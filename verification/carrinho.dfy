/** The point-of-sale screen's cart: adding a product (merging into its line
    when it is already there), the stock check made before an add, removing a
    line by position, and the running total. Prices are integer cents. */
module Carrinho {
  import opened Tipos
  import opened Sequencias

  /** A product as the screen received it from the catalog. */
  datatype ProdutoTela = ProdutoTela(id: int, nome: string, valor: int, estoque: int)

  /** A cart line: the product snapshot it was added with, its quantity and
      its subtotal. */
  datatype ItemCarrinho = ItemCarrinho(produtoId: int, produto: ProdutoTela, quantidade: int, subtotal: int)

  // ---------------------------------------------------------------------------
  // Sums over the cart

  function Subtotal(item: ItemCarrinho): int {
    item.subtotal
  }

  /** The amount shown at the foot of the cart. */
  function Total(itens: seq<ItemCarrinho>): int {
    Somar(itens, Subtotal)
  }

  /** The total is `reduce` from 0, adding one line's subtotal at a time from
      the first line to the last; with no negative subtotal it is never
      negative. */
  lemma TotalDaEsquerda(itens: seq<ItemCarrinho>)
    ensures |itens| == 0 ==> Total(itens) == 0
    ensures |itens| > 0 ==> Total(itens) == Total(itens[..|itens| - 1]) + itens[|itens| - 1].subtotal
    ensures (forall i :: 0 <= i < |itens| ==> itens[i].subtotal >= 0) ==> Total(itens) >= 0
  {
    if |itens| > 0 {
      var n := |itens| - 1;
      assert itens == itens[..n] + [itens[n]];
      SomarConcat(itens[..n], [itens[n]], Subtotal);
      assert Somar([itens[n]], Subtotal) == Subtotal(itens[n]) + Somar([], Subtotal);
    }
    SomarNaoNegativa(itens, Subtotal);
  }

  /** How many units of product `id` the cart holds, over all its lines. */
  function Quantidade(itens: seq<ItemCarrinho>, id: int): int {
    Somar(itens, (i: ItemCarrinho) => if i.produtoId == id then i.quantidade else 0)
  }

  /** Every line's subtotal is its quantity times the price it was added at. */
  predicate Coerente(itens: seq<ItemCarrinho>) {
    forall i :: 0 <= i < |itens| ==> itens[i].subtotal == itens[i].quantidade * itens[i].produto.valor
  }

  /** No two lines for the same product. */
  predicate SemRepetidos(itens: seq<ItemCarrinho>) {
    forall i, j :: 0 <= i < j < |itens| ==> itens[i].produtoId != itens[j].produtoId
  }

  // ---------------------------------------------------------------------------
  // Looking a product up

  /** `findIndex`: the first line of product `id`, or -1. */
  function Indice(itens: seq<ItemCarrinho>, id: int): (r: int)
    ensures -1 <= r < |itens|
    ensures r >= 0 ==> itens[r].produtoId == id
    ensures forall j :: 0 <= j < |itens| && (r < 0 || j < r) ==> itens[j].produtoId != id
  {
    if |itens| == 0 then -1
    else if itens[0].produtoId == id then 0
    else
      var k := Indice(itens[1..], id);
      assert forall j :: 1 <= j < |itens| ==> itens[j] == itens[1..][j - 1];
      if k < 0 then -1 else k + 1
  }

  /** `find(...)?.quantidade`, with 0 when the product has no line. */
  function QtdNoCarrinho(itens: seq<ItemCarrinho>, id: int): (r: int)
    ensures (forall i :: 0 <= i < |itens| ==> itens[i].produtoId != id) ==> r == 0
    ensures forall i :: 0 <= i < |itens| && itens[i].produtoId == id && (forall j :: 0 <= j < i ==> itens[j].produtoId != id) ==>
              r == itens[i].quantidade
  {
    var k := Indice(itens, id);
    if k >= 0 then itens[k].quantidade else 0
  }

  /** Without repeated lines the first line of a product holds all of its units. */
  lemma {:induction false} QtdNoCarrinhoEhQuantidade(itens: seq<ItemCarrinho>, id: int)
    requires SemRepetidos(itens)
    ensures QtdNoCarrinho(itens, id) == Quantidade(itens, id)
  {
    if |itens| > 0 {
      assert SemRepetidos(itens[1..]);
      QtdNoCarrinhoEhQuantidade(itens[1..], id);
      if itens[0].produtoId == id {
        assert forall j :: 0 <= j < |itens[1..]| ==> itens[1..][j].produtoId != id by {
          forall j | 0 <= j < |itens[1..]| ensures itens[1..][j].produtoId != id {
            assert itens[1..][j] == itens[j + 1];
          }
        }
        QuantidadeAusente(itens[1..], id);
      }
    }
  }

  lemma {:induction false} QuantidadeAusente(itens: seq<ItemCarrinho>, id: int)
    requires forall j :: 0 <= j < |itens| ==> itens[j].produtoId != id
    ensures Quantidade(itens, id) == 0
  {
    if |itens| > 0 {
      assert forall j :: 0 <= j < |itens[1..]| ==> itens[1..][j] == itens[j + 1];
      QuantidadeAusente(itens[1..], id);
    }
  }

  // ---------------------------------------------------------------------------
  // Operations

  /** `addProductFromList`: a product already in the cart has `quantidade`
      added to its first line, whose subtotal is recomputed from the price the
      line was added at; any other product gets a new line at the end. */
  function Adicionar(itens: seq<ItemCarrinho>, produto: ProdutoTela, quantidade: int): (r: seq<ItemCarrinho>)
    ensures var k := Indice(itens, produto.id);
            && (k < 0 ==> r == itens + [ItemCarrinho(produto.id, produto, quantidade, quantidade * produto.valor)])
            && (k >= 0 ==>
                  && |r| == |itens|
                  && r[k].produtoId == itens[k].produtoId
                  && r[k].produto == itens[k].produto
                  && r[k].quantidade == itens[k].quantidade + quantidade
                  && r[k].subtotal == r[k].quantidade * itens[k].produto.valor
                  && forall j :: 0 <= j < |itens| && j != k ==> r[j] == itens[j])
  {
    var k := Indice(itens, produto.id);
    if k >= 0 then
      var novaQtd := itens[k].quantidade + quantidade;
      itens[k := itens[k].(quantidade := novaQtd, subtotal := novaQtd * itens[k].produto.valor)]
    else
      itens + [ItemCarrinho(produto.id, produto, quantidade, quantidade * produto.valor)]
  }

  /** Adding changes the added product's unit count by exactly `quantidade`
      and no other product's, whatever the cart held before. */
  lemma AdicionarQuantidade(itens: seq<ItemCarrinho>, produto: ProdutoTela, quantidade: int, id: int)
    ensures Quantidade(Adicionar(itens, produto, quantidade), id)
            == Quantidade(itens, id) + (if id == produto.id then quantidade else 0)
  {
    var f := (i: ItemCarrinho) => if i.produtoId == id then i.quantidade else 0;
    var k := Indice(itens, produto.id);
    var novo := ItemCarrinho(produto.id, produto, quantidade, quantidade * produto.valor);
    if k >= 0 {
      var novaQtd := itens[k].quantidade + quantidade;
      SomarSubstituir(itens, k, itens[k].(quantidade := novaQtd, subtotal := novaQtd * itens[k].produto.valor), f);
    } else {
      SomarConcat(itens, [novo], f);
      assert Somar([novo], f) == f(novo) + Somar([], f);
    }
  }

  /** Adding keeps a consistent cart consistent and raises its total by the
      added units at the line's price. */
  lemma AdicionarTotal(itens: seq<ItemCarrinho>, produto: ProdutoTela, quantidade: int)
    requires Coerente(itens)
    ensures Coerente(Adicionar(itens, produto, quantidade))
    ensures var k := Indice(itens, produto.id);
            var preco := if k >= 0 then itens[k].produto.valor else produto.valor;
            Total(Adicionar(itens, produto, quantidade)) == Total(itens) + quantidade * preco
  {
    var k := Indice(itens, produto.id);
    var novo := ItemCarrinho(produto.id, produto, quantidade, quantidade * produto.valor);
    if k >= 0 {
      var novaQtd := itens[k].quantidade + quantidade;
      var linha := itens[k].(quantidade := novaQtd, subtotal := novaQtd * itens[k].produto.valor);
      SomarSubstituir(itens, k, linha, Subtotal);
      assert novaQtd * itens[k].produto.valor
             == itens[k].quantidade * itens[k].produto.valor + quantidade * itens[k].produto.valor;
    } else {
      SomarConcat(itens, [novo], Subtotal);
      assert Somar([novo], Subtotal) == Subtotal(novo) + Somar([], Subtotal);
    }
  }

  /** Adding never creates a second line for a product, and afterwards the
      product's line is the one holding the new count. */
  lemma AdicionarSemRepetidos(itens: seq<ItemCarrinho>, produto: ProdutoTela, quantidade: int)
    ensures SemRepetidos(itens) ==> SemRepetidos(Adicionar(itens, produto, quantidade))
    ensures QtdNoCarrinho(Adicionar(itens, produto, quantidade), produto.id)
            == QtdNoCarrinho(itens, produto.id) + quantidade
  {
    var r := Adicionar(itens, produto, quantidade);
    var k := Indice(itens, produto.id);
    if k >= 0 {
      assert forall j :: 0 <= j < k ==> r[j] == itens[j];
      assert Indice(r, produto.id) == k;
    } else {
      assert forall j :: 0 <= j < |itens| ==> r[j] == itens[j];
      assert r[|itens|].produtoId == produto.id;
      assert forall j :: 0 <= j < |itens| ==> r[j].produtoId != produto.id;
      assert Indice(r, produto.id) == |itens|;
    }
  }

  /** `confirmQuantidade`. No product selected leaves the cart alone; an
      absent (unparsable) or non-positive quantity is refused; so is one that
      would take the cart past the selected product's stock; otherwise the
      units are added. */
  function Confirmar(itens: seq<ItemCarrinho>, produto: Option<ProdutoTela>, qtd: Option<int>): (r: Result<seq<ItemCarrinho>>)
    ensures produto.None? ==> r == Success(itens)
    ensures produto.Some? && (qtd.None? || qtd.value <= 0) ==> r == Failure(QuantidadeInvalida)
    ensures produto.Some? && qtd.Some? && qtd.value > 0 ==>
              (r.Success? <==> QtdNoCarrinho(itens, produto.value.id) + qtd.value <= produto.value.estoque)
    ensures r.Failure? && r.error != QuantidadeInvalida ==>
              produto.Some? && r.error == EstoqueInsuficienteCarrinho(produto.value.estoque)
    ensures produto.Some? && r.Success? ==>
              && r.value == Adicionar(itens, produto.value, qtd.value)
              && QtdNoCarrinho(r.value, produto.value.id) == QtdNoCarrinho(itens, produto.value.id) + qtd.value
              && QtdNoCarrinho(r.value, produto.value.id) <= produto.value.estoque
  {
    match produto
    case None => Success(itens)
    case Some(p) =>
      if qtd.None? || qtd.value <= 0 then Failure(QuantidadeInvalida)
      else if QtdNoCarrinho(itens, p.id) + qtd.value > p.estoque then Failure(EstoqueInsuficienteCarrinho(p.estoque))
      else
        AdicionarSemRepetidos(itens, p, qtd.value);
        Success(Adicionar(itens, p, qtd.value))
  }

  /** The remove button: keeps every line whose position is not `idx`. */
  function Remover(itens: seq<ItemCarrinho>, idx: int): (r: seq<ItemCarrinho>)
    ensures 0 <= idx < |itens| ==> r == itens[..idx] + itens[idx + 1..]
    ensures !(0 <= idx < |itens|) ==> r == itens
    decreases |itens|
  {
    if |itens| == 0 then []
    else
      var resto := Remover(itens[1..], idx - 1);
      assert itens == [itens[0]] + itens[1..];
      if idx == 0 then resto else [itens[0]] + resto
  }

  /** Removing a line takes exactly that line's subtotal off the total. */
  lemma RemoverTotal(itens: seq<ItemCarrinho>, idx: int)
    requires 0 <= idx < |itens|
    ensures Total(Remover(itens, idx)) == Total(itens) - itens[idx].subtotal
  {
    var antes, depois := itens[..idx], itens[idx + 1..];
    var meio := [itens[idx]] + depois;
    assert itens == antes + meio;
    assert meio[1..] == depois;
    assert Somar(meio, Subtotal) == itens[idx].subtotal + Somar(depois, Subtotal);
    SomarConcat(antes, meio, Subtotal);
    SomarConcat(antes, depois, Subtotal);
  }

  /** Removing a line keeps a consistent cart consistent and free of repeats. */
  lemma RemoverPreserva(itens: seq<ItemCarrinho>, idx: int)
    requires 0 <= idx < |itens|
    ensures Coerente(itens) ==> Coerente(Remover(itens, idx))
    ensures SemRepetidos(itens) ==> SemRepetidos(Remover(itens, idx))
  {
    var r := Remover(itens, idx);
    assert forall j :: 0 <= j < |r| ==> r[j] == itens[if j < idx then j else j + 1];
  }
}
