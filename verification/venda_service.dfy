/** Sale creation as the backend performs it (a per-line stock pre-check,
    pricing at sale time, one sale row, an unconditional stock decrement per
    line, no movement rows), the corrected creation that goes through the
    stock ledger, and the sale reads. */
module VendaService {
  import opened Tipos
  import opened Modelo
  import opened Sequencias
  import EstoqueService

  /** One requested line: product and quantity, as the caller sends it. */
  datatype ItemPedido = ItemPedido(produtoId: int, quantidade: int)

  /** The combined quantity the request asks of product `id`. */
  function QtdPedida(itens: seq<ItemPedido>, id: int): int {
    Somar(itens, (i: ItemPedido) => if i.produtoId == id then i.quantidade else 0)
  }

  /** The combined quantity of product `id` over priced sale lines. */
  function QtdVendida(itens: seq<ItemVenda>, id: int): int {
    Somar(itens, (i: ItemVenda) => if i.produtoId == id then i.quantidade else 0)
  }

  /** The sale total: the sum of the line subtotals. */
  function SomaSubtotais(itens: seq<ItemVenda>): int {
    Somar(itens, (i: ItemVenda) => i.subtotal)
  }

  // ---------------------------------------------------------------------------
  // Sale creation as written

  /** A line passes the pre-check when its product exists and has, on its own,
      at least the line's quantity in stock. */
  predicate LinhaDisponivel(produtos: map<int, Produto>, item: ItemPedido) {
    item.produtoId in produtos && produtos[item.produtoId].estoque >= item.quantidade
  }

  /** The error the pre-check raises for a line that does not pass. */
  function ErroDaLinha(produtos: map<int, Produto>, item: ItemPedido): Erro {
    if item.produtoId !in produtos then ProdutoNaoEncontrado(item.produtoId)
    else EstoqueInsuficienteVenda(produtos[item.produtoId].nome)
  }

  /** The pre-check loop: stops at the first line that does not pass. */
  function VerificarItens(produtos: map<int, Produto>, itens: seq<ItemPedido>): (r: Option<Erro>)
    ensures r.None? <==> forall i :: 0 <= i < |itens| ==> LinhaDisponivel(produtos, itens[i])
    ensures r.Some? ==>
              exists i :: 0 <= i < |itens|
                && !LinhaDisponivel(produtos, itens[i])
                && (forall j :: 0 <= j < i ==> LinhaDisponivel(produtos, itens[j]))
                && r.value == ErroDaLinha(produtos, itens[i])
  {
    if |itens| == 0 then None
    else if !LinhaDisponivel(produtos, itens[0]) then Some(ErroDaLinha(produtos, itens[0]))
    else
      var r := VerificarItens(produtos, itens[1..]);
      assert forall i :: 1 <= i < |itens| ==> itens[i] == itens[1..][i - 1];
      if r.Some? then
        var i :| 0 <= i < |itens[1..]|
                 && !LinhaDisponivel(produtos, itens[1..][i])
                 && (forall j :: 0 <= j < i ==> LinhaDisponivel(produtos, itens[1..][j]))
                 && r.value == ErroDaLinha(produtos, itens[1..][i]);
        assert !LinhaDisponivel(produtos, itens[i + 1]);
        r
      else r
  }

  /** Prices each line at the product's current `valor`; a line whose product
      is gone is skipped, as the pricing loop does. */
  function Precificar(produtos: map<int, Produto>, itens: seq<ItemPedido>): (r: seq<ItemVenda>)
    ensures |r| <= |itens|
    ensures (forall i :: 0 <= i < |itens| ==> itens[i].produtoId in produtos) ==>
              && |r| == |itens|
              && forall i :: 0 <= i < |itens| ==>
                   r[i] == ItemVenda(itens[i].produtoId, itens[i].quantidade,
                                     produtos[itens[i].produtoId].valor * itens[i].quantidade)
  {
    if |itens| == 0 then []
    else
      var resto := Precificar(produtos, itens[1..]);
      assert forall i :: 1 <= i < |itens| ==> itens[i] == itens[1..][i - 1];
      var item := itens[0];
      if item.produtoId !in produtos then resto
      else [ItemVenda(item.produtoId, item.quantidade, produtos[item.produtoId].valor * item.quantidade)] + resto
  }

  lemma {:induction false} QtdVendidaDePrecificar(produtos: map<int, Produto>, itens: seq<ItemPedido>, id: int)
    requires forall i :: 0 <= i < |itens| ==> itens[i].produtoId in produtos
    ensures QtdVendida(Precificar(produtos, itens), id) == QtdPedida(itens, id)
  {
    if |itens| > 0 {
      assert forall i :: 1 <= i < |itens| ==> itens[i] == itens[1..][i - 1];
      QtdVendidaDePrecificar(produtos, itens[1..], id);
      var r := Precificar(produtos, itens);
      assert r[1..] == Precificar(produtos, itens[1..]);
    }
  }

  /** The stock update loop: decrements each line's product by the line's
      quantity, with no check and no movement row. */
  function Decrementar(produtos: map<int, Produto>, itens: seq<ItemVenda>): (r: map<int, Produto>)
    requires forall i :: 0 <= i < |itens| ==> itens[i].produtoId in produtos
    ensures r.Keys == produtos.Keys
    ensures forall k :: k in produtos ==>
              r[k] == produtos[k].(estoque := produtos[k].estoque - QtdVendida(itens, k))
  {
    if |itens| == 0 then produtos
    else
      var id := itens[0].produtoId;
      var p := produtos[id];
      assert forall i :: 1 <= i < |itens| ==> itens[i] == itens[1..][i - 1];
      Decrementar(produtos[id := p.(estoque := p.estoque - itens[0].quantidade)], itens[1..])
  }

  /** `cadastrar`: pre-check, then in one transaction create the sale with one
      priced line per requested line and decrement the stock. */
  function Cadastrar(db: Db, itens: seq<ItemPedido>, agora: int): (r: Result<(Db, Venda)>)
    ensures r.Failure? <==> VerificarItens(db.produtos, itens).Some?
    ensures r.Failure? ==> r.error == VerificarItens(db.produtos, itens).value
    ensures r.Success? ==>
              var (novo, venda) := r.value;
              && venda.id == db.proximoVendaId
              && venda.dataVenda == agora
              && |venda.itens| == |itens|
              && (forall i :: 0 <= i < |itens| ==>
                    venda.itens[i] == ItemVenda(itens[i].produtoId, itens[i].quantidade,
                                                db.produtos[itens[i].produtoId].valor * itens[i].quantidade))
              && venda.total == SomaSubtotais(venda.itens)
              && novo.vendas == db.vendas + [venda]
              && novo.proximoVendaId == db.proximoVendaId + 1
              && novo.produtos.Keys == db.produtos.Keys
              && (forall k :: k in db.produtos ==>
                    novo.produtos[k] == db.produtos[k].(estoque := db.produtos[k].estoque - QtdPedida(itens, k)))
              && novo.movimentacoes == db.movimentacoes
              && novo.codigos == db.codigos
              && novo.proximoProdutoId == db.proximoProdutoId
    ensures r.Success? && Consistente(db) ==> Consistente(r.value.0)
  {
    match VerificarItens(db.produtos, itens)
    case Some(e) => Failure(e)
    case None =>
      var linhas := Precificar(db.produtos, itens);
      var venda := Venda(db.proximoVendaId, SomaSubtotais(linhas), agora, linhas);
      forall k ensures QtdVendida(linhas, k) == QtdPedida(itens, k) {
        QtdVendidaDePrecificar(db.produtos, itens, k);
      }
      var produtos := Decrementar(db.produtos, linhas);
      AnexarVendaMantemConsistente(db, produtos, venda);
      Success((db.(produtos := produtos, vendas := db.vendas + [venda], proximoVendaId := db.proximoVendaId + 1), venda))
  }

  /** A sale row under the next sale id, with the product ids unchanged,
      keeps the schema's guarantees. */
  lemma AnexarVendaMantemConsistente(db: Db, produtos: map<int, Produto>, venda: Venda)
    requires produtos.Keys == db.produtos.Keys
    requires venda.id == db.proximoVendaId
    ensures Consistente(db) ==>
              Consistente(db.(produtos := produtos, vendas := db.vendas + [venda], proximoVendaId := db.proximoVendaId + 1))
  {
    var vendas := db.vendas + [venda];
    assert forall i :: 0 <= i < |db.vendas| ==> vendas[i] == db.vendas[i];
  }

  /** Sale creation never touches the movement log, so whenever it changes a
      product's stock the ledger invariant that held before no longer holds. */
  lemma CadastrarDesalinhaRazao(db: Db, inicial: map<int, int>, itens: seq<ItemPedido>, agora: int, k: int)
    requires EstoqueService.Razao(db, inicial)
    requires Cadastrar(db, itens, agora).Success?
    requires k in db.produtos && QtdPedida(itens, k) != 0
    ensures !EstoqueService.Razao(Cadastrar(db, itens, agora).value.0, inicial)
  {
    var novo := Cadastrar(db, itens, agora).value.0;
    assert novo.produtos[k].estoque != inicial[k] + EstoqueService.Saldo(novo.movimentacoes, k);
  }

  /** Two lines of the same product, each within stock on its own, pass the
      pre-check together and leave the stock negative. */
  lemma CadastrarPodeNegativarEstoque()
    ensures
      var db := Db(map[1 := Produto("Arroz 5kg", 2590, 10)], [CodigoBarras("7891234567890", 1)], [], [], 2, 1);
      var r := Cadastrar(db, [ItemPedido(1, 6), ItemPedido(1, 6)], 0);
      && r.Success?
      && r.value.0.produtos[1].estoque == -2
      && r.value.1.total == 31080
  {
    var db := Db(map[1 := Produto("Arroz 5kg", 2590, 10)], [CodigoBarras("7891234567890", 1)], [], [], 2, 1);
    var itens := [ItemPedido(1, 6), ItemPedido(1, 6)];
    assert QtdPedida(itens, 1) == 12 by {
      assert itens[1..] == [ItemPedido(1, 6)];
    }
    var venda := Cadastrar(db, itens, 0).value.1;
    assert venda.itens == [ItemVenda(1, 6, 15540), ItemVenda(1, 6, 15540)];
    assert venda.itens[1..] == [ItemVenda(1, 6, 15540)];
  }

  /** A line with a negative quantity passes the pre-check, raises the stock
      and lowers the sale total. */
  lemma CadastrarQuantidadeNegativaAumentaEstoque()
    ensures
      var db := Db(map[1 := Produto("Arroz 5kg", 2590, 10)], [CodigoBarras("7891234567890", 1)], [], [], 2, 1);
      var r := Cadastrar(db, [ItemPedido(1, -5)], 0);
      && r.Success?
      && r.value.0.produtos[1].estoque == 15
      && r.value.1.total == -12950
  {
    var db := Db(map[1 := Produto("Arroz 5kg", 2590, 10)], [CodigoBarras("7891234567890", 1)], [], [], 2, 1);
    var itens := [ItemPedido(1, -5)];
    assert QtdPedida(itens, 1) == -5;
    var venda := Cadastrar(db, itens, 0).value.1;
    assert venda.itens == [ItemVenda(1, -5, -12950)];
  }

  // ---------------------------------------------------------------------------
  // Corrected sale creation

  /** A line the corrected pre-check accepts: the product exists, the quantity
      is positive, and the request's combined quantity of that product fits in
      its stock. */
  predicate LinhaCabe(produtos: map<int, Produto>, itens: seq<ItemPedido>, item: ItemPedido) {
    && item.produtoId in produtos
    && item.quantidade > 0
    && QtdPedida(itens, item.produtoId) <= produtos[item.produtoId].estoque
  }

  function ErroDaLinhaCorrigido(produtos: map<int, Produto>, item: ItemPedido): Erro {
    if item.produtoId !in produtos then ProdutoNaoEncontrado(item.produtoId)
    else if item.quantidade <= 0 then QuantidadeNaoPositiva
    else EstoqueInsuficienteVenda(produtos[item.produtoId].nome)
  }

  /** The corrected pre-check: the first line that does not fit, if any. */
  function VerificarItensCorrigido(produtos: map<int, Produto>, itens: seq<ItemPedido>): (r: Option<Erro>)
    ensures r.None? <==> forall i :: 0 <= i < |itens| ==> LinhaCabe(produtos, itens, itens[i])
    ensures r.Some? ==>
              exists i :: 0 <= i < |itens|
                && !LinhaCabe(produtos, itens, itens[i])
                && r.value == ErroDaLinhaCorrigido(produtos, itens[i])
  {
    Primeira(produtos, itens, 0)
  }

  function Primeira(produtos: map<int, Produto>, itens: seq<ItemPedido>, desde: nat): (r: Option<Erro>)
    requires desde <= |itens|
    ensures r.None? <==> forall i :: desde <= i < |itens| ==> LinhaCabe(produtos, itens, itens[i])
    ensures r.Some? ==>
              exists i :: desde <= i < |itens|
                && !LinhaCabe(produtos, itens, itens[i])
                && r.value == ErroDaLinhaCorrigido(produtos, itens[i])
    decreases |itens| - desde
  {
    if desde == |itens| then None
    else if !LinhaCabe(produtos, itens, itens[desde]) then Some(ErroDaLinhaCorrigido(produtos, itens[desde]))
    else Primeira(produtos, itens, desde + 1)
  }

  /** Decimal digits of a natural number. */
  function Decimal(n: nat): (r: string)
    ensures |r| > 0
    ensures forall i :: 0 <= i < |r| ==> '0' <= r[i] <= '9'
  {
    var digito := ['0' + (n % 10) as char];
    if n < 10 then digito else Decimal(n / 10) + digito
  }

  /** The reason each sale movement carries, naming the sale. */
  function MotivoVenda(id: int): string {
    "Venda #" + if id >= 0 then Decimal(id) else "-" + Decimal(-id)
  }

  /** Records one outgoing movement per line through the stock ledger; the
      first refused line aborts the whole step. */
  function BaixarEstoque(db: Db, itens: seq<ItemPedido>, motivo: Option<string>, agora: int): Result<Db>
    decreases |itens|
  {
    if |itens| == 0 then Success(db)
    else
      var seguinte :- EstoqueService.RegistrarMovimentacao(
                        db, itens[0].produtoId, EstoqueService.SAIDA, itens[0].quantidade, motivo, agora);
      BaixarEstoque(seguinte, itens[1..], motivo, agora)
  }

  /** When every line's product exists, every quantity is positive and every
      product's combined quantity fits in its stock, every ledger step
      succeeds and each product loses exactly its combined quantity. */
  lemma {:induction false} BaixarEstoqueSucede(db: Db, itens: seq<ItemPedido>, motivo: Option<string>, agora: int)
    requires forall i :: 0 <= i < |itens| ==>
               && itens[i].produtoId in db.produtos
               && itens[i].quantidade > 0
               && QtdPedida(itens, itens[i].produtoId) <= db.produtos[itens[i].produtoId].estoque
    ensures BaixarEstoque(db, itens, motivo, agora).Success?
    ensures var novo := BaixarEstoque(db, itens, motivo, agora).value;
            && novo.produtos.Keys == db.produtos.Keys
            && forall k :: k in db.produtos ==>
                 novo.produtos[k] == db.produtos[k].(estoque := db.produtos[k].estoque - QtdPedida(itens, k))
    decreases |itens|
  {
    if |itens| > 0 {
      PrimeiraBaixa(db, itens, motivo, agora);
      var seguinte := EstoqueService.RegistrarMovimentacao(
                        db, itens[0].produtoId, EstoqueService.SAIDA, itens[0].quantidade, motivo, agora).value;
      BaixarEstoqueSucede(seguinte, itens[1..], motivo, agora);
      forall k | k in db.produtos
        ensures QtdPedida(itens, k) == (if k == itens[0].produtoId then itens[0].quantidade else 0) + QtdPedida(itens[1..], k)
      {
      }
    }
  }

  /** The first ledger step of a request that passes the corrected pre-check
      succeeds, lowers that line's product by the line's quantity, and leaves
      the rest of the request passing the check against the new stock. */
  lemma PrimeiraBaixa(db: Db, itens: seq<ItemPedido>, motivo: Option<string>, agora: int)
    requires |itens| > 0
    requires forall i :: 0 <= i < |itens| ==>
               && itens[i].produtoId in db.produtos
               && itens[i].quantidade > 0
               && QtdPedida(itens, itens[i].produtoId) <= db.produtos[itens[i].produtoId].estoque
    ensures var id := itens[0].produtoId;
            var q := itens[0].quantidade;
            var passo := EstoqueService.RegistrarMovimentacao(db, id, EstoqueService.SAIDA, q, motivo, agora);
            && passo.Success?
            && passo.value.produtos == db.produtos[id := db.produtos[id].(estoque := db.produtos[id].estoque - q)]
            && forall i :: 0 <= i < |itens[1..]| ==>
                 && itens[1..][i].produtoId in passo.value.produtos
                 && itens[1..][i].quantidade > 0
                 && QtdPedida(itens[1..], itens[1..][i].produtoId) <= passo.value.produtos[itens[1..][i].produtoId].estoque
  {
    var id := itens[0].produtoId;
    var q := itens[0].quantidade;
    assert QtdPedida(itens, id) == q + QtdPedida(itens[1..], id);
    assert q <= db.produtos[id].estoque by {
      assert QtdPedida(itens[1..], id) >= 0 by { QtdPedidaPositiva(itens[1..], id); }
    }
    var seguinte := EstoqueService.RegistrarMovimentacao(db, id, EstoqueService.SAIDA, q, motivo, agora).value;
    assert seguinte.produtos == db.produtos[id := db.produtos[id].(estoque := db.produtos[id].estoque - q)];
    forall i | 0 <= i < |itens[1..]|
      ensures itens[1..][i].produtoId in seguinte.produtos
      ensures QtdPedida(itens[1..], itens[1..][i].produtoId) <= seguinte.produtos[itens[1..][i].produtoId].estoque
    {
      assert itens[1..][i] == itens[i + 1];
      var k := itens[i + 1].produtoId;
      assert QtdPedida(itens, k) == (if k == id then q else 0) + QtdPedida(itens[1..], k);
    }
  }

  /** The outgoing movements a run of ledger steps logs: one per line, in
      line order, each carrying the line's product and quantity. */
  function Saidas(itens: seq<ItemPedido>, motivo: Option<string>, agora: int): (r: seq<Movimentacao>)
    ensures |r| == |itens|
    ensures forall i :: 0 <= i < |itens| ==>
              r[i] == Movimentacao(itens[i].produtoId, EstoqueService.SAIDA, itens[i].quantidade, motivo, agora)
  {
    if |itens| == 0 then []
    else
      var r := [Movimentacao(itens[0].produtoId, EstoqueService.SAIDA, itens[0].quantidade, motivo, agora)]
               + Saidas(itens[1..], motivo, agora);
      assert forall i :: 1 <= i < |itens| ==> itens[i] == itens[1..][i - 1] && r[i] == Saidas(itens[1..], motivo, agora)[i - 1];
      r
  }

  /** A completed run of ledger steps leaves the products' ids, the sales,
      the barcodes and the counters alone. */
  lemma {:induction false} BaixarEstoqueMoldura(db: Db, itens: seq<ItemPedido>, motivo: Option<string>, agora: int)
    ensures BaixarEstoque(db, itens, motivo, agora).Success? ==>
              var novo := BaixarEstoque(db, itens, motivo, agora).value;
              && novo.produtos.Keys == db.produtos.Keys
              && novo.vendas == db.vendas
              && novo.codigos == db.codigos
              && novo.proximoProdutoId == db.proximoProdutoId
              && novo.proximoVendaId == db.proximoVendaId
    decreases |itens|
  {
    if |itens| > 0 {
      var passo := EstoqueService.RegistrarMovimentacao(
                     db, itens[0].produtoId, EstoqueService.SAIDA, itens[0].quantidade, motivo, agora);
      if passo.Success? {
        BaixarEstoqueMoldura(passo.value, itens[1..], motivo, agora);
      }
    }
  }

  /** A completed run of ledger steps appends exactly one outgoing movement
      per line, in line order, after the old log. */
  lemma {:induction false} BaixarEstoqueRegistraSaidas(db: Db, itens: seq<ItemPedido>, motivo: Option<string>, agora: int)
    ensures BaixarEstoque(db, itens, motivo, agora).Success? ==>
              BaixarEstoque(db, itens, motivo, agora).value.movimentacoes
                == db.movimentacoes + Saidas(itens, motivo, agora)
    decreases |itens|
  {
    if |itens| == 0 {
      assert db.movimentacoes + Saidas(itens, motivo, agora) == db.movimentacoes;
    } else {
      var passo := EstoqueService.RegistrarMovimentacao(
                     db, itens[0].produtoId, EstoqueService.SAIDA, itens[0].quantidade, motivo, agora);
      if passo.Success? {
        BaixarEstoqueRegistraSaidas(passo.value, itens[1..], motivo, agora);
        AnexarUm(db.movimentacoes, Movimentacao(itens[0].produtoId, EstoqueService.SAIDA, itens[0].quantidade, motivo, agora),
                 Saidas(itens[1..], motivo, agora));
      }
    }
  }

  /** Every ledger step keeps the schema's guarantees, so a completed run does. */
  lemma {:induction false} BaixarEstoqueMantemConsistente(db: Db, itens: seq<ItemPedido>, motivo: Option<string>, agora: int)
    ensures Consistente(db) && BaixarEstoque(db, itens, motivo, agora).Success? ==>
              Consistente(BaixarEstoque(db, itens, motivo, agora).value)
    decreases |itens|
  {
    if |itens| > 0 {
      var passo := EstoqueService.RegistrarMovimentacao(
                     db, itens[0].produtoId, EstoqueService.SAIDA, itens[0].quantidade, motivo, agora);
      if passo.Success? {
        BaixarEstoqueMantemConsistente(passo.value, itens[1..], motivo, agora);
      }
    }
  }

  lemma {:induction false} QtdPedidaPositiva(itens: seq<ItemPedido>, id: int)
    requires forall i :: 0 <= i < |itens| ==> itens[i].quantidade > 0
    ensures QtdPedida(itens, id) >= 0
  {
    if |itens| > 0 {
      assert forall i :: 1 <= i < |itens| ==> itens[i] == itens[1..][i - 1];
      QtdPedidaPositiva(itens[1..], id);
    }
  }

  /** Every successful ledger step keeps the ledger invariant, so the whole
      sequence of steps does too. */
  lemma {:induction false} BaixarEstoquePreservaRazao(
    db: Db, inicial: map<int, int>, itens: seq<ItemPedido>, motivo: Option<string>, agora: int)
    requires EstoqueService.Razao(db, inicial)
    ensures BaixarEstoque(db, itens, motivo, agora).Success? ==>
              EstoqueService.Razao(BaixarEstoque(db, itens, motivo, agora).value, inicial)
    decreases |itens|
  {
    if |itens| > 0 {
      var passo := EstoqueService.RegistrarMovimentacao(
                     db, itens[0].produtoId, EstoqueService.SAIDA, itens[0].quantidade, motivo, agora);
      if passo.Success? {
        EstoqueService.RegistrarPreservaRazao(
          db, inicial, itens[0].produtoId, EstoqueService.SAIDA, itens[0].quantidade, motivo, agora);
        BaixarEstoquePreservaRazao(passo.value, inicial, itens[1..], motivo, agora);
      }
    }
  }

  /** Sale creation routed through the stock ledger: the pre-check rejects
      non-positive quantities and compares each product's combined quantity
      with its stock, and the stock is taken out through the ledger, one
      outgoing movement per line naming the sale. */
  function CadastrarCorrigido(db: Db, itens: seq<ItemPedido>, agora: int): (r: Result<(Db, Venda)>)
    ensures r.Failure? <==> VerificarItensCorrigido(db.produtos, itens).Some?
    ensures r.Failure? ==> r.error == VerificarItensCorrigido(db.produtos, itens).value
    ensures r.Success? ==>
              var (novo, venda) := r.value;
              && venda.id == db.proximoVendaId
              && |venda.itens| == |itens|
              && (forall i :: 0 <= i < |itens| ==>
                    venda.itens[i] == ItemVenda(itens[i].produtoId, itens[i].quantidade,
                                                db.produtos[itens[i].produtoId].valor * itens[i].quantidade))
              && venda.total == SomaSubtotais(venda.itens)
              && novo.vendas == db.vendas + [venda]
              && novo.produtos.Keys == db.produtos.Keys
              && (forall k :: k in db.produtos ==>
                    && novo.produtos[k] == db.produtos[k].(estoque := db.produtos[k].estoque - QtdPedida(itens, k))
                    && (db.produtos[k].estoque >= 0 ==> novo.produtos[k].estoque >= 0))
              && venda.dataVenda == agora
              && novo.proximoVendaId == db.proximoVendaId + 1
              && novo.codigos == db.codigos
              && novo.proximoProdutoId == db.proximoProdutoId
              && |novo.movimentacoes| == |db.movimentacoes| + |itens|
              && novo.movimentacoes[..|db.movimentacoes|] == db.movimentacoes
              && (forall i :: 0 <= i < |itens| ==>
                    novo.movimentacoes[|db.movimentacoes| + i]
                      == Movimentacao(itens[i].produtoId, EstoqueService.SAIDA, itens[i].quantidade,
                                      Some(MotivoVenda(venda.id)), agora))
    ensures r.Success? && Consistente(db) ==> Consistente(r.value.0)
  {
    match VerificarItensCorrigido(db.produtos, itens)
    case Some(e) => Failure(e)
    case None =>
      var linhas := Precificar(db.produtos, itens);
      var venda := Venda(db.proximoVendaId, SomaSubtotais(linhas), agora, linhas);
      var comVenda := db.(vendas := db.vendas + [venda], proximoVendaId := db.proximoVendaId + 1);
      BaixaDaVenda(db, itens, venda, agora);
      var novo := BaixarEstoque(comVenda, itens, Some(MotivoVenda(venda.id)), agora).value;
      Success((novo, venda))
  }

  /** What the ledger steps of an accepted request do once the sale row
      `venda` is in: every step succeeds, each product loses its combined
      quantity and stays non-negative if it was, one outgoing movement naming
      the sale is logged per line, and nothing else changes. */
  lemma BaixaDaVenda(db: Db, itens: seq<ItemPedido>, venda: Venda, agora: int)
    requires VerificarItensCorrigido(db.produtos, itens).None?
    requires venda.id == db.proximoVendaId
    ensures var comVenda := db.(vendas := db.vendas + [venda], proximoVendaId := db.proximoVendaId + 1);
            var baixa := BaixarEstoque(comVenda, itens, Some(MotivoVenda(venda.id)), agora);
            && baixa.Success?
            && baixa.value.produtos.Keys == db.produtos.Keys
            && (forall k :: k in db.produtos ==>
                  && baixa.value.produtos[k] == db.produtos[k].(estoque := db.produtos[k].estoque - QtdPedida(itens, k))
                  && (db.produtos[k].estoque >= 0 ==> baixa.value.produtos[k].estoque >= 0))
            && baixa.value.vendas == db.vendas + [venda]
            && baixa.value.proximoVendaId == db.proximoVendaId + 1
            && baixa.value.codigos == db.codigos
            && baixa.value.proximoProdutoId == db.proximoProdutoId
            && baixa.value.movimentacoes == db.movimentacoes + Saidas(itens, Some(MotivoVenda(venda.id)), agora)
            && (Consistente(db) ==> Consistente(baixa.value))
  {
    var comVenda := db.(vendas := db.vendas + [venda], proximoVendaId := db.proximoVendaId + 1);
    var motivo := Some(MotivoVenda(venda.id));
    BaixarEstoqueSucede(comVenda, itens, motivo, agora);
    BaixarEstoqueMoldura(comVenda, itens, motivo, agora);
    BaixarEstoqueRegistraSaidas(comVenda, itens, motivo, agora);
    AnexarVendaMantemConsistente(db, db.produtos, venda);
    BaixarEstoqueMantemConsistente(comVenda, itens, motivo, agora);
    forall k | k in db.produtos && db.produtos[k].estoque >= 0
      ensures QtdPedida(itens, k) <= db.produtos[k].estoque
    {
      QtdPedidaPositiva(itens, k);
      QtdPedidaDeOutro(itens, k);
    }
  }

  /** A product that no line names is asked for nothing. */
  lemma {:induction false} QtdPedidaDeOutro(itens: seq<ItemPedido>, k: int)
    ensures (forall i :: 0 <= i < |itens| ==> itens[i].produtoId != k) ==> QtdPedida(itens, k) == 0
  {
    if |itens| > 0 {
      assert forall i :: 1 <= i < |itens| ==> itens[i] == itens[1..][i - 1];
      QtdPedidaDeOutro(itens[1..], k);
    }
  }

  lemma CadastrarCorrigidoPreservaRazao(db: Db, inicial: map<int, int>, itens: seq<ItemPedido>, agora: int)
    requires EstoqueService.Razao(db, inicial)
    requires CadastrarCorrigido(db, itens, agora).Success?
    ensures EstoqueService.Razao(CadastrarCorrigido(db, itens, agora).value.0, inicial)
  {
    var linhas := Precificar(db.produtos, itens);
    var venda := Venda(db.proximoVendaId, SomaSubtotais(linhas), agora, linhas);
    var comVenda := db.(vendas := db.vendas + [venda], proximoVendaId := db.proximoVendaId + 1);
    BaixaDaVendaPreservaRazao(db, inicial, itens, venda, agora);
    assert CadastrarCorrigido(db, itens, agora).value.0
        == BaixarEstoque(comVenda, itens, Some(MotivoVenda(venda.id)), agora).value;
  }

  /** After a sale row is added, the ledger steps of an accepted request keep
      the ledger invariant. */
  lemma BaixaDaVendaPreservaRazao(db: Db, inicial: map<int, int>, itens: seq<ItemPedido>, venda: Venda, agora: int)
    requires EstoqueService.Razao(db, inicial)
    requires VerificarItensCorrigido(db.produtos, itens).None?
    ensures var comVenda := db.(vendas := db.vendas + [venda], proximoVendaId := db.proximoVendaId + 1);
            var baixa := BaixarEstoque(comVenda, itens, Some(MotivoVenda(venda.id)), agora);
            baixa.Success? && EstoqueService.Razao(baixa.value, inicial)
  {
    var comVenda := db.(vendas := db.vendas + [venda], proximoVendaId := db.proximoVendaId + 1);
    BaixarEstoqueSucede(comVenda, itens, Some(MotivoVenda(venda.id)), agora);
    BaixarEstoquePreservaRazao(comVenda, inicial, itens, Some(MotivoVenda(venda.id)), agora);
  }

  // ---------------------------------------------------------------------------
  // Reads

  /** Milliseconds in a day. */
  const DIA := 86_400_000

  /** 23:59:59.999 of the day holding instant `t` (days counted in UTC). */
  function FimDoDia(t: int): (r: int)
    ensures t <= r
    ensures r / DIA == t / DIA
    ensures r % DIA == DIA - 1
  {
    t - t % DIA + DIA - 1
  }

  /** The date filter: an inclusive lower bound, and an inclusive upper bound
      at the end of the given day; an absent bound does not filter. */
  predicate NoPeriodo(v: Venda, inicio: Option<int>, fim: Option<int>) {
    && (inicio.Some? ==> v.dataVenda >= inicio.value)
    && (fim.Some? ==> v.dataVenda <= FimDoDia(fim.value))
  }

  predicate MaisRecente(a: Venda, b: Venda) {
    a.dataVenda >= b.dataVenda
  }

  /** The sales in the period, newest first. */
  function Listar(db: Db, inicio: Option<int>, fim: Option<int>): (r: seq<Venda>)
    ensures Ordenada(r, MaisRecente)
    ensures forall v :: multiset(r)[v] == if NoPeriodo(v, inicio, fim) then multiset(db.vendas)[v] else 0
    ensures inicio.None? && fim.None? ==> multiset(r) == multiset(db.vendas)
  {
    assert PreOrdemTotal(MaisRecente);
    Ordenar(Filtrar(db.vendas, (v: Venda) => NoPeriodo(v, inicio, fim)), MaisRecente)
  }

  /** The sale with that id, if any. */
  function BuscarPorId(db: Db, id: int): (r: Option<Venda>)
    ensures r.Some? ==> r.value in db.vendas && r.value.id == id
    ensures r.None? <==> forall i :: 0 <= i < |db.vendas| ==> db.vendas[i].id != id
    ensures Consistente(db) ==> forall i :: 0 <= i < |db.vendas| && db.vendas[i].id == id ==> r == Some(db.vendas[i])
  {
    Procurar(db.vendas, id)
  }

  function Procurar(vendas: seq<Venda>, id: int): (r: Option<Venda>)
    ensures r.Some? ==> exists i :: 0 <= i < |vendas| && vendas[i] == r.value && vendas[i].id == id
                                   && forall j :: 0 <= j < i ==> vendas[j].id != id
    ensures r.None? <==> forall i :: 0 <= i < |vendas| ==> vendas[i].id != id
  {
    if |vendas| == 0 then None
    else if vendas[0].id == id then Some(vendas[0])
    else
      var r := Procurar(vendas[1..], id);
      assert forall i :: 1 <= i < |vendas| ==> vendas[i] == vendas[1..][i - 1];
      if r.Some? then
        var i :| 0 <= i < |vendas[1..]| && vendas[1..][i] == r.value && vendas[1..][i].id == id
                 && forall j :: 0 <= j < i ==> vendas[1..][j].id != id;
        assert vendas[i + 1] == r.value;
        r
      else r
  }
}
