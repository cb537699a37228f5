/** The persistent state the services act on: the product, barcode, stock
    movement and sale tables, with the database's id counters. Money is held
    in integer cents and timestamps in integer milliseconds. */
module Modelo {
  import opened Tipos

  /** A product row; its barcodes live in their own table. */
  datatype Produto = Produto(nome: string, valor: int, estoque: int)

  /** A barcode row: the barcode string is unique across the whole table. */
  datatype CodigoBarras = CodigoBarras(codigo: string, produtoId: int)

  /** One append-only stock movement. `tipo` is kept as the string the caller
      sent, exactly as the service stores it. */
  datatype Movimentacao = Movimentacao(
    produtoId: int,
    tipo: string,
    quantidade: int,
    motivo: Option<string>,
    data: int)

  /** A sale line, priced when the sale is created. */
  datatype ItemVenda = ItemVenda(produtoId: int, quantidade: int, subtotal: int)

  datatype Venda = Venda(id: int, total: int, dataVenda: int, itens: seq<ItemVenda>)

  /** The database. Barcode rows and movements are in creation order; the id
      counters play the part of the autoincrement sequences. */
  datatype Db = Db(
    produtos: map<int, Produto>,
    codigos: seq<CodigoBarras>,
    movimentacoes: seq<Movimentacao>,
    vendas: seq<Venda>,
    proximoProdutoId: int,
    proximoVendaId: int)

  /** The barcodes owned by product `id`, in creation order. */
  function CodigosDe(tabela: seq<CodigoBarras>, id: int): (r: seq<string>)
    ensures |r| <= |tabela|
    ensures forall c :: c in r <==> exists i :: 0 <= i < |tabela| && tabela[i].produtoId == id && tabela[i].codigo == c
  {
    if |tabela| == 0 then []
    else
      var resto := CodigosDe(tabela[1..], id);
      assert forall i :: 1 <= i < |tabela| ==> tabela[i] == tabela[1..][i - 1];
      if tabela[0].produtoId == id then [tabela[0].codigo] + resto else resto
  }

  /** The unique constraint on the barcode column. */
  predicate CodigosUnicos(tabela: seq<CodigoBarras>) {
    forall i, j :: 0 <= i < j < |tabela| ==> tabela[i].codigo != tabela[j].codigo
  }

  /** What the schema guarantees about every reachable state: fresh ids come
      from the counters, barcodes are unique and belong to existing products,
      and sale ids are distinct. */
  predicate Consistente(db: Db) {
    && db.proximoProdutoId >= 1
    && (forall k :: k in db.produtos ==> 1 <= k < db.proximoProdutoId)
    && CodigosUnicos(db.codigos)
    && (forall i :: 0 <= i < |db.codigos| ==> db.codigos[i].produtoId in db.produtos)
    && (forall i :: 0 <= i < |db.movimentacoes| ==> db.movimentacoes[i].produtoId < db.proximoProdutoId)
    && (forall i :: 0 <= i < |db.vendas| ==> db.vendas[i].id < db.proximoVendaId)
    && (forall i, j :: 0 <= i < j < |db.vendas| ==> db.vendas[i].id != db.vendas[j].id)
  }
}
