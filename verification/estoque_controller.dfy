/** The stock controller's request validation and defaults: which requests
    reach the stock ledger, with which arguments, and which history read a
    history request dispatches to. Request fields are modelled as numbers and
    strings already decoded from JSON; `None` is an absent (`undefined`) field. */
module EstoqueController {
  import opened Tipos
  import opened Modelo
  import opened Sequencias
  import EstoqueService

  datatype PedidoMovimentacao = PedidoMovimentacao(
    produtoId: Option<int>,
    tipo: Option<string>,
    quantidade: Option<int>,
    motivo: Option<string>)

  datatype PedidoCorrecao = PedidoCorrecao(
    produtoId: Option<int>,
    novoEstoque: Option<int>,
    motivo: Option<string>)

  /** The arguments the controller hands to the ledger. */
  datatype Movimento = Movimento(produtoId: int, tipo: string, quantidade: int, motivo: Option<string>)

  /** Reason used when a correction request carries none. */
  const MOTIVO_PADRAO := "Ajuste Manual"

  /** JavaScript truthiness of an optional number: absent and `0` are falsy. */
  predicate NumeroVerdadeiro(v: Option<int>) {
    v.Some? && v.value != 0
  }

  /** JavaScript truthiness of an optional string: absent and `""` are falsy. */
  predicate TextoVerdadeiro(v: Option<string>) {
    v.Some? && v.value != ""
  }

  predicate ComecaCom(s: string, prefixo: string) {
    |prefixo| <= |s| && s[..|prefixo|] == prefixo
  }

  /** The accepted movement types: three exact names, or anything that starts
      with `AJUSTE`. */
  predicate TipoAceito(tipo: string) {
    tipo in [EstoqueService.ENTRADA, EstoqueService.SAIDA, EstoqueService.PERDA] || ComecaCom(tipo, "AJUSTE")
  }

  /** `registrarMovimentacao`'s checks: required fields first, then the type. */
  function ValidarMovimentacao(req: PedidoMovimentacao): (r: Result<Movimento>)
    ensures r.Success? <==>
              && NumeroVerdadeiro(req.produtoId)
              && TextoVerdadeiro(req.tipo)
              && NumeroVerdadeiro(req.quantidade)
              && TipoAceito(req.tipo.value)
    ensures !(NumeroVerdadeiro(req.produtoId) && TextoVerdadeiro(req.tipo) && NumeroVerdadeiro(req.quantidade))
            ==> r == Failure(DadosIncompletos)
    ensures r.Failure? && r.error != DadosIncompletos ==> r.error == TipoInvalido
    ensures r.Success? ==>
              r.value == Movimento(req.produtoId.value, req.tipo.value, req.quantidade.value, req.motivo)
  {
    if !NumeroVerdadeiro(req.produtoId) || !TextoVerdadeiro(req.tipo) || !NumeroVerdadeiro(req.quantidade) then
      Failure(DadosIncompletos)
    else if !TipoAceito(req.tipo.value) then Failure(TipoInvalido)
    else Success(Movimento(req.produtoId.value, req.tipo.value, req.quantidade.value, req.motivo))
  }

  /** The movement endpoint: validation, then the ledger. */
  function RegistrarMovimentacao(db: Db, req: PedidoMovimentacao, agora: int): (r: Result<Db>)
    ensures req.quantidade == Some(0) ==> r == Failure(DadosIncompletos)
    ensures ValidarMovimentacao(req).Failure? ==> r == Failure(ValidarMovimentacao(req).error)
    ensures ValidarMovimentacao(req).Success? ==>
              var m := ValidarMovimentacao(req).value;
              r == EstoqueService.RegistrarMovimentacao(db, m.produtoId, m.tipo, m.quantidade, m.motivo, agora)
  {
    var m :- ValidarMovimentacao(req);
    EstoqueService.RegistrarMovimentacao(db, m.produtoId, m.tipo, m.quantidade, m.motivo, agora)
  }

  /** Any type that starts with `AJUSTE`, other than `AJUSTE_SAIDA`, is let
      through and then raises the stock by the requested quantity. */
  lemma AjusteDesconhecidoAumentaEstoque(db: Db, req: PedidoMovimentacao, agora: int)
    requires NumeroVerdadeiro(req.produtoId) && NumeroVerdadeiro(req.quantidade)
    requires req.tipo.Some? && ComecaCom(req.tipo.value, "AJUSTE") && req.tipo.value != EstoqueService.AJUSTE_SAIDA
    requires req.quantidade.value > 0 && req.produtoId.value in db.produtos
    ensures RegistrarMovimentacao(db, req, agora).Success?
    ensures RegistrarMovimentacao(db, req, agora).value.produtos[req.produtoId.value].estoque
            == db.produtos[req.produtoId.value].estoque + req.quantidade.value
  {
    var t := req.tipo.value;
    assert t != EstoqueService.SAIDA && t != EstoqueService.PERDA by {
      assert t[..6] == "AJUSTE";
    }
    assert !EstoqueService.EhSaida(t);
  }

  /** `motivo || 'Ajuste Manual'`. */
  function MotivoOuPadrao(motivo: Option<string>): (r: string)
    ensures r != ""
    ensures TextoVerdadeiro(motivo) ==> r == motivo.value
    ensures !TextoVerdadeiro(motivo) ==> r == MOTIVO_PADRAO
  {
    if TextoVerdadeiro(motivo) then motivo.value else MOTIVO_PADRAO
  }

  /** The correction endpoint: only a falsy product id or an absent target
      stops it; a target of zero goes through. */
  function CorrigirEstoque(db: Db, req: PedidoCorrecao, agora: int): (r: Result<Db>)
    ensures !NumeroVerdadeiro(req.produtoId) || req.novoEstoque.None? ==> r == Failure(DadosIncompletos)
    ensures NumeroVerdadeiro(req.produtoId) && req.novoEstoque.Some? ==>
              r == EstoqueService.CorrigirEstoque(
                     db, req.produtoId.value, req.novoEstoque.value, MotivoOuPadrao(req.motivo), agora)
    ensures NumeroVerdadeiro(req.produtoId) && req.novoEstoque == Some(0) && req.produtoId.value in db.produtos
            && db.produtos[req.produtoId.value].estoque >= 0
            ==> r.Success? && r.value.produtos[req.produtoId.value].estoque == 0
  {
    if !NumeroVerdadeiro(req.produtoId) || req.novoEstoque.None? then Failure(DadosIncompletos)
    else EstoqueService.CorrigirEstoque(db, req.produtoId.value, req.novoEstoque.value, MotivoOuPadrao(req.motivo), agora)
  }

  /** The history endpoint: no product id lists the general history,
      otherwise that product's. */
  function ListarHistorico(db: Db, produtoId: Option<int>): (r: seq<Movimentacao>)
    ensures Ordenada(r, EstoqueService.MaisRecente)
    ensures produtoId.None? ==> r == EstoqueService.ListarGeral(db) && |r| <= EstoqueService.LIMITE_GERAL
    ensures produtoId.Some? ==>
              forall m :: multiset(r)[m] == if m.produtoId == produtoId.value then multiset(db.movimentacoes)[m] else 0
  {
    match produtoId
    case None => EstoqueService.ListarGeral(db)
    case Some(id) => EstoqueService.GetHistorico(db, id)
  }
}
