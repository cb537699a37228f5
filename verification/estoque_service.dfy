/** The stock ledger: typed movements that change a product's stock and are
    appended to the movement log, the absolute-stock correction built on top
    of them, and the two history reads. */
module EstoqueService {
  import opened Tipos
  import opened Modelo
  import opened Sequencias

  const ENTRADA := "ENTRADA"
  const SAIDA := "SAIDA"
  const PERDA := "PERDA"
  const AJUSTE_ENTRADA := "AJUSTE_ENTRADA"
  const AJUSTE_SAIDA := "AJUSTE_SAIDA"

  /** Prefix the correction puts in front of the reason of a downward adjustment. */
  const PREFIXO_CORRECAO := "Correção de Estoque: "

  /** How many movements the general history shows. */
  const LIMITE_GERAL := 100

  /** The decreasing types; every other string, including an unknown one,
      increases stock. */
  predicate EhSaida(tipo: string) {
    tipo in [SAIDA, PERDA, AJUSTE_SAIDA]
  }

  /** Exactly the three decreasing types decrease; the two entry types and
      every other string increase. */
  lemma ClassificacaoDosTipos(tipo: string)
    ensures EhSaida(tipo) <==> tipo == SAIDA || tipo == PERDA || tipo == AJUSTE_SAIDA
    ensures !EhSaida(ENTRADA) && !EhSaida(AJUSTE_ENTRADA)
  {
  }

  /** The signed change a movement makes to its product's stock: the quantity
      itself, negated exactly for a decreasing type. */
  function Sinal(tipo: string, quantidade: int): (r: int)
    ensures r == quantidade || r == -quantidade
    ensures quantidade > 0 ==> (r < 0 <==> EhSaida(tipo))
  {
    if EhSaida(tipo) then -quantidade else quantidade
  }

  /** Records one movement: validates the quantity, looks the product up,
      refuses a decrease larger than the stock, then applies the signed
      quantity and appends exactly one movement row stamped `agora`. */
  function RegistrarMovimentacao(
    db: Db, produtoId: int, tipo: string, quantidade: int, motivo: Option<string>, agora: int
  ): (r: Result<Db>)
    ensures quantidade <= 0 ==> r == Failure(QuantidadeNaoPositiva)
    ensures quantidade > 0 && produtoId !in db.produtos ==> r == Failure(ProdutoNaoEncontrado(produtoId))
    ensures quantidade > 0 && produtoId in db.produtos && EhSaida(tipo) && db.produtos[produtoId].estoque < quantidade
            ==> r == Failure(EstoqueInsuficiente(db.produtos[produtoId].estoque))
    ensures r.Success? <==>
              && quantidade > 0
              && produtoId in db.produtos
              && (EhSaida(tipo) ==> quantidade <= db.produtos[produtoId].estoque)
    ensures r.Success? ==>
              && r.value.produtos.Keys == db.produtos.Keys
              && r.value.produtos[produtoId].estoque == db.produtos[produtoId].estoque + Sinal(tipo, quantidade)
              && r.value.produtos[produtoId].nome == db.produtos[produtoId].nome
              && r.value.produtos[produtoId].valor == db.produtos[produtoId].valor
              && (forall k :: k in db.produtos && k != produtoId ==> r.value.produtos[k] == db.produtos[k])
              && r.value.movimentacoes == db.movimentacoes + [Movimentacao(produtoId, tipo, quantidade, motivo, agora)]
              && r.value.codigos == db.codigos
              && r.value.vendas == db.vendas
              && r.value.proximoProdutoId == db.proximoProdutoId
              && r.value.proximoVendaId == db.proximoVendaId
    ensures r.Success? && db.produtos[produtoId].estoque >= 0 ==> r.value.produtos[produtoId].estoque >= 0
    ensures r.Success? && Consistente(db) ==> Consistente(r.value)
  {
    if quantidade <= 0 then Failure(QuantidadeNaoPositiva)
    else if produtoId !in db.produtos then Failure(ProdutoNaoEncontrado(produtoId))
    else
      var produto := db.produtos[produtoId];
      if EhSaida(tipo) && produto.estoque < quantidade then Failure(EstoqueInsuficiente(produto.estoque))
      else
        var atualizado := produto.(estoque := produto.estoque + Sinal(tipo, quantidade));
        Success(db.(
          produtos := db.produtos[produtoId := atualizado],
          movimentacoes := db.movimentacoes + [Movimentacao(produtoId, tipo, quantidade, motivo, agora)]))
  }

  /** Sets a product's stock to an absolute value by recording the difference
      as one adjustment movement; a zero difference records nothing. */
  function CorrigirEstoque(db: Db, produtoId: int, novoEstoque: int, motivo: string, agora: int): (r: Result<Db>)
    ensures produtoId !in db.produtos ==> r == Failure(ProdutoNaoEncontrado(produtoId))
    ensures produtoId in db.produtos ==>
              var atual := db.produtos[produtoId].estoque;
              && (novoEstoque == atual ==> r == Success(db))
              && (r.Success? <==> novoEstoque >= atual || novoEstoque >= 0)
              && (r.Failure? ==> r.error == EstoqueInsuficiente(atual))
              && (r.Success? ==>
                    && r.value.produtos.Keys == db.produtos.Keys
                    && r.value.produtos[produtoId] == db.produtos[produtoId].(estoque := novoEstoque)
                    && (forall k :: k in db.produtos && k != produtoId ==> r.value.produtos[k] == db.produtos[k]))
              && (novoEstoque > atual ==>
                    r.Success? && r.value.movimentacoes
                      == db.movimentacoes + [Movimentacao(produtoId, AJUSTE_ENTRADA, novoEstoque - atual, Some(motivo), agora)])
              && (novoEstoque < atual && r.Success? ==>
                    r.value.movimentacoes
                      == db.movimentacoes + [Movimentacao(produtoId, AJUSTE_SAIDA, atual - novoEstoque, Some(PREFIXO_CORRECAO + motivo), agora)])
              && (atual >= 0 && novoEstoque < 0 ==> r == Failure(EstoqueInsuficiente(atual)))
    ensures r.Success? ==>
              && r.value.codigos == db.codigos
              && r.value.vendas == db.vendas
              && r.value.proximoProdutoId == db.proximoProdutoId
              && r.value.proximoVendaId == db.proximoVendaId
    ensures r.Success? && Consistente(db) ==> Consistente(r.value)
  {
    if produtoId !in db.produtos then Failure(ProdutoNaoEncontrado(produtoId))
    else
      var diferenca := novoEstoque - db.produtos[produtoId].estoque;
      if diferenca == 0 then Success(db)
      else if diferenca > 0 then RegistrarMovimentacao(db, produtoId, AJUSTE_ENTRADA, diferenca, Some(motivo), agora)
      else RegistrarMovimentacao(db, produtoId, AJUSTE_SAIDA, -diferenca, Some(PREFIXO_CORRECAO + motivo), agora)
  }

  // ---------------------------------------------------------------------------
  // The ledger invariant

  /** The signed sum of the logged movements of product `id`. */
  function Saldo(log: seq<Movimentacao>, id: int): int {
    if |log| == 0 then 0
    else (if log[0].produtoId == id then Sinal(log[0].tipo, log[0].quantidade) else 0) + Saldo(log[1..], id)
  }

  lemma {:induction false} SaldoAcrescentar(log: seq<Movimentacao>, m: Movimentacao, id: int)
    ensures Saldo(log + [m], id) == Saldo(log, id) + (if m.produtoId == id then Sinal(m.tipo, m.quantidade) else 0)
  {
    if |log| == 0 {
      assert log + [m] == [m];
    } else {
      assert (log + [m])[1..] == log[1..] + [m];
      SaldoAcrescentar(log[1..], m, id);
    }
  }

  /** A product that never appears in the log has a zero balance. */
  lemma {:induction false} SaldoSemMovimentos(log: seq<Movimentacao>, id: int)
    requires forall i :: 0 <= i < |log| ==> log[i].produtoId != id
    ensures Saldo(log, id) == 0
  {
    if |log| > 0 {
      assert forall i :: 0 <= i < |log[1..]| ==> log[1..][i] == log[i + 1];
      SaldoSemMovimentos(log[1..], id);
    }
  }

  /** The ledger invariant relative to the stock each product started with:
      current stock is the initial stock plus the signed sum of its logged
      movements, and it is never negative. */
  predicate Razao(db: Db, inicial: map<int, int>) {
    forall id :: id in db.produtos ==>
      && id in inicial
      && db.produtos[id].estoque == inicial[id] + Saldo(db.movimentacoes, id)
      && db.produtos[id].estoque >= 0
  }

  lemma RegistrarPreservaRazao(
    db: Db, inicial: map<int, int>, produtoId: int, tipo: string, quantidade: int, motivo: Option<string>, agora: int)
    requires Razao(db, inicial)
    requires RegistrarMovimentacao(db, produtoId, tipo, quantidade, motivo, agora).Success?
    ensures Razao(RegistrarMovimentacao(db, produtoId, tipo, quantidade, motivo, agora).value, inicial)
  {
    var m := Movimentacao(produtoId, tipo, quantidade, motivo, agora);
    forall id | id in db.produtos
      ensures Saldo(db.movimentacoes + [m], id)
              == Saldo(db.movimentacoes, id) + (if id == produtoId then Sinal(tipo, quantidade) else 0)
    {
      SaldoAcrescentar(db.movimentacoes, m, id);
    }
  }

  lemma CorrigirPreservaRazao(db: Db, inicial: map<int, int>, produtoId: int, novoEstoque: int, motivo: string, agora: int)
    requires Razao(db, inicial)
    requires CorrigirEstoque(db, produtoId, novoEstoque, motivo, agora).Success?
    ensures Razao(CorrigirEstoque(db, produtoId, novoEstoque, motivo, agora).value, inicial)
  {
    var diferenca := novoEstoque - db.produtos[produtoId].estoque;
    if diferenca > 0 {
      RegistrarPreservaRazao(db, inicial, produtoId, AJUSTE_ENTRADA, diferenca, Some(motivo), agora);
    } else if diferenca < 0 {
      RegistrarPreservaRazao(db, inicial, produtoId, AJUSTE_SAIDA, -diferenca, Some(PREFIXO_CORRECAO + motivo), agora);
    }
  }

  // ---------------------------------------------------------------------------
  // History reads

  /** `orderBy: { data: 'desc' }`: a newer movement comes first. */
  predicate MaisRecente(a: Movimentacao, b: Movimentacao) {
    a.data >= b.data
  }

  lemma MaisRecenteEhPreOrdem()
    ensures PreOrdemTotal(MaisRecente)
  {
  }

  /** Every movement of one product, newest first. */
  function GetHistorico(db: Db, produtoId: int): (r: seq<Movimentacao>)
    ensures Ordenada(r, MaisRecente)
    ensures forall m :: multiset(r)[m] == if m.produtoId == produtoId then multiset(db.movimentacoes)[m] else 0
  {
    MaisRecenteEhPreOrdem();
    Ordenar(Filtrar(db.movimentacoes, (m: Movimentacao) => m.produtoId == produtoId), MaisRecente)
  }

  /** A prefix of a newest-first list holds movements at least as new as any
      copy of a movement left out of it, counting copies: a movement the
      prefix holds fewer times than the list is no newer than anything in it. */
  lemma PrefixoTemOsMaisRecentes(s: seq<Movimentacao>, n: nat)
    requires Ordenada(s, MaisRecente)
    requires n <= |s|
    ensures forall m :: multiset(s[..n])[m] < multiset(s)[m] ==> forall i :: 0 <= i < n ==> s[..n][i].data >= m.data
  {
    assert s == s[..n] + s[n..];
    forall m | multiset(s[..n])[m] < multiset(s)[m]
      ensures forall i :: 0 <= i < n ==> s[..n][i].data >= m.data
    {
      assert multiset(s)[m] == multiset(s[..n])[m] + multiset(s[n..])[m];
      assert m in s[n..];
      var j :| 0 <= j < |s[n..]| && s[n..][j] == m;
      forall i | 0 <= i < n
        ensures s[..n][i].data >= m.data
      {
        assert MaisRecente(s[i], s[n + j]);
      }
    }
  }

  /** The first `n` of a newest-first rearrangement of the log. */
  lemma PrimeirosDoLog(log: seq<Movimentacao>, todas: seq<Movimentacao>, n: nat)
    requires multiset(todas) == multiset(log)
    requires Ordenada(todas, MaisRecente)
    requires n <= |log|
    ensures n <= |todas| && |todas[..n]| == n
    ensures Ordenada(todas[..n], MaisRecente)
    ensures multiset(todas[..n]) <= multiset(log)
    ensures forall m :: multiset(todas[..n])[m] < multiset(log)[m] ==> forall i :: 0 <= i < n ==> todas[..n][i].data >= m.data
  {
    assert |todas| == |multiset(todas)| == |log|;
    PrefixoTemOsMaisRecentes(todas, n);
    assert todas == todas[..n] + todas[n..];
    assert multiset(todas) == multiset(todas[..n]) + multiset(todas[n..]);
  }

  /** The newest `LIMITE_GERAL` movements across all products, newest first. */
  function ListarGeral(db: Db): (r: seq<Movimentacao>)
    ensures |r| == if |db.movimentacoes| < LIMITE_GERAL then |db.movimentacoes| else LIMITE_GERAL
    ensures Ordenada(r, MaisRecente)
    ensures multiset(r) <= multiset(db.movimentacoes)
    ensures forall m :: multiset(r)[m] < multiset(db.movimentacoes)[m] ==> forall i :: 0 <= i < |r| ==> r[i].data >= m.data
  {
    MaisRecenteEhPreOrdem();
    var todas := Ordenar(db.movimentacoes, MaisRecente);
    var n := if |db.movimentacoes| < LIMITE_GERAL then |db.movimentacoes| else LIMITE_GERAL;
    PrimeirosDoLog(db.movimentacoes, todas, n);
    todas[..n]
  }
}
