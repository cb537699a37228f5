/** Failure-compatible wrappers and the error taxonomy shared by the backend
    services, the stock controller and the point-of-sale cart. */
module Tipos {

  /** `undefined`/`null` versus a present value. */
  datatype Option<+T> = None | Some(value: T) {
    function GetOr(default: T): T {
      match this
      case Some(v) => v
      case None => default
    }
  }

  /** The errors the model raises, one constructor per distinct failure of the
      source. A failing step returns `Failure` and no new state, which is how
      an aborted database transaction is modelled. */
  datatype Erro =
    // stock service (AppError 400): quantity must be positive
    | QuantidadeNaoPositiva
    // stock service (AppError 404) and sale service: unknown product id
    | ProdutoNaoEncontrado(id: int)
    // stock service (AppError 400): reports the quantity still available
    | EstoqueInsuficiente(disponivel: int)
    // sale service: names the product whose line asks for more than its stock
    | EstoqueInsuficienteVenda(nome: string)
    // Prisma P2025: update or delete of a row that does not exist
    | RegistroNaoEncontrado(id: int)
    // Prisma P2002: a barcode that is already in use
    | CodigoDuplicado
    // stock controller: a required field is missing or falsy
    | DadosIncompletos
    // stock controller: the movement type is not one it accepts
    | TipoInvalido
    // cart: the typed quantity is not a positive integer
    | QuantidadeInvalida
    // cart: the cart would hold more than the product's stock
    | EstoqueInsuficienteCarrinho(restam: int)

  datatype Result<+T> = Success(value: T) | Failure(error: Erro) {
    predicate IsFailure() {
      Failure?
    }

    function PropagateFailure<U>(): Result<U>
      requires Failure?
    {
      Failure(error)
    }

    function Extract(): T
      requires Success?
    {
      value
    }
  }
}
