/** The product catalog: create, partial update, delete, barcode lookup and
    the name-ordered listing, over the product map and the barcode table. */
module ProdutoService {
  import opened Tipos
  import opened Modelo
  import opened Sequencias
  import EstoqueService

  /** The body of a create request. */
  datatype ProdutoInput = ProdutoInput(nome: string, codigos: seq<string>, valor: int, estoque: int)

  /** The body of an update request: `None` is a field left `undefined`. */
  datatype ProdutoParcial = ProdutoParcial(
    nome: Option<string>,
    codigos: Option<seq<string>>,
    valor: Option<int>,
    estoque: Option<int>)

  /** A product as the queries return it, with its barcodes joined in. */
  datatype ProdutoComCodigos = ProdutoComCodigos(id: int, produto: Produto, codigos: seq<string>)

  /** The barcode strings present in the table. */
  function Usados(tabela: seq<CodigoBarras>): (r: set<string>)
    ensures forall c :: c in r <==> exists i :: 0 <= i < |tabela| && tabela[i].codigo == c
  {
    set i | 0 <= i < |tabela| :: tabela[i].codigo
  }

  /** Whether `novos` can be inserted without breaking the unique constraint:
      none is already used and none repeats an earlier one. */
  function Livres(usados: set<string>, novos: seq<string>): (r: bool)
    ensures r <==>
              && (forall i :: 0 <= i < |novos| ==> novos[i] !in usados)
              && (forall i, j :: 0 <= i < j < |novos| ==> novos[i] != novos[j])
    decreases |novos|
  {
    if |novos| == 0 then true
    else
      assert forall i :: 1 <= i < |novos| ==> novos[i] == novos[1..][i - 1];
      novos[0] !in usados && Livres(usados + {novos[0]}, novos[1..])
  }

  /** One barcode row per string, in order, owned by product `id`. */
  function Linhas(novos: seq<string>, id: int): (r: seq<CodigoBarras>)
    ensures |r| == |novos|
    ensures forall i :: 0 <= i < |r| ==> r[i] == CodigoBarras(novos[i], id)
  {
    seq(|novos|, i requires 0 <= i < |novos| => CodigoBarras(novos[i], id))
  }

  /** The barcode table without the rows of product `id`. */
  function Restantes(tabela: seq<CodigoBarras>, id: int): (r: seq<CodigoBarras>)
    ensures forall c :: multiset(r)[c] == if c.produtoId != id then multiset(tabela)[c] else 0
  {
    Filtrar(tabela, (c: CodigoBarras) => c.produtoId != id)
  }

  lemma {:induction false} CodigosDeConcat(a: seq<CodigoBarras>, b: seq<CodigoBarras>, id: int)
    ensures CodigosDe(a + b, id) == CodigosDe(a, id) + CodigosDe(b, id)
  {
    if |a| > 0 {
      assert (a + b)[1..] == a[1..] + b;
      CodigosDeConcat(a[1..], b, id);
    } else {
      assert a + b == b;
    }
  }

  lemma {:induction false} CodigosDeLinhas(novos: seq<string>, id: int, k: int)
    ensures CodigosDe(Linhas(novos, id), k) == if k == id then novos else []
  {
    if |novos| > 0 {
      assert Linhas(novos, id)[1..] == Linhas(novos[1..], id);
      CodigosDeLinhas(novos[1..], id, k);
    }
  }

  /** Dropping the rows of product `id` empties its barcodes and keeps every
      other product's. */
  lemma {:induction false} CodigosDeSemProduto(tabela: seq<CodigoBarras>, id: int, k: int)
    ensures CodigosDe(Restantes(tabela, id), k)
            == if k == id then [] else CodigosDe(tabela, k)
  {
    if |tabela| > 0 {
      CodigosDeSemProduto(tabela[1..], id, k);
    }
  }

  lemma {:induction false} SemLinhasDe(tabela: seq<CodigoBarras>, id: int)
    requires forall i :: 0 <= i < |tabela| ==> tabela[i].produtoId != id
    ensures CodigosDe(tabela, id) == []
  {
    if |tabela| > 0 {
      assert forall i :: 1 <= i < |tabela| ==> tabela[i] == tabela[1..][i - 1];
      SemLinhasDe(tabela[1..], id);
    }
  }

  /** The unique constraint survives appending rows whose strings are free. */
  lemma AcrescentarLivres(tabela: seq<CodigoBarras>, novos: seq<string>, id: int)
    requires CodigosUnicos(tabela)
    requires Livres(Usados(tabela), novos)
    ensures CodigosUnicos(tabela + Linhas(novos, id))
  {
    var t := tabela + Linhas(novos, id);
    forall i, j | 0 <= i < j < |t|
      ensures t[i].codigo != t[j].codigo
    {
      if j >= |tabela| && i < |tabela| {
        assert t[j].codigo == novos[j - |tabela|];
      }
    }
  }

  /** Appending product `id`'s rows adds exactly those barcodes to it. */
  lemma CodigosAposAcrescentar(tabela: seq<CodigoBarras>, novos: seq<string>, id: int)
    ensures forall k :: CodigosDe(tabela + Linhas(novos, id), k)
                        == CodigosDe(tabela, k) + (if k == id then novos else [])
  {
    forall k ensures CodigosDe(tabela + Linhas(novos, id), k) == CodigosDe(tabela, k) + (if k == id then novos else []) {
      CodigosDeConcat(tabela, Linhas(novos, id), k);
      CodigosDeLinhas(novos, id, k);
    }
  }

  /** Rows appended for an existing product keep every row's owner existing. */
  lemma DonosAposAcrescentar(tabela: seq<CodigoBarras>, novos: seq<string>, id: int, produtos: map<int, Produto>)
    requires forall i :: 0 <= i < |tabela| ==> tabela[i].produtoId in produtos
    requires id in produtos
    ensures var t := tabela + Linhas(novos, id);
            forall i :: 0 <= i < |t| ==> t[i].produtoId in produtos
  {
    var linhas := Linhas(novos, id);
    var t := tabela + linhas;
    forall i | 0 <= i < |t|
      ensures t[i].produtoId in produtos
    {
      if i >= |tabela| {
        assert t[i] == linhas[i - |tabela|];
      } else {
        assert t[i] == tabela[i];
      }
    }
  }

  // ---------------------------------------------------------------------------
  // Operations

  /** `cadastrar`: a new product under the next id with one barcode row per
      input string; a barcode already in use, or repeated, aborts it. */
  function Cadastrar(db: Db, dados: ProdutoInput): (r: Result<(Db, int)>)
    ensures r.Success? <==> Livres(Usados(db.codigos), dados.codigos)
    ensures r.Failure? ==> r.error == CodigoDuplicado
    ensures r.Success? ==>
              var (novo, id) := r.value;
              && id == db.proximoProdutoId
              && novo.proximoProdutoId == db.proximoProdutoId + 1
              && novo.produtos == db.produtos[id := Produto(dados.nome, dados.valor, dados.estoque)]
              && (forall k :: k != id ==> CodigosDe(novo.codigos, k) == CodigosDe(db.codigos, k))
              && novo.movimentacoes == db.movimentacoes
              && novo.vendas == db.vendas
              && novo.proximoVendaId == db.proximoVendaId
    ensures r.Success? && Consistente(db) ==>
              && CodigosDe(r.value.0.codigos, r.value.1) == dados.codigos
              && r.value.1 !in db.produtos
              && Consistente(r.value.0)
  {
    if !Livres(Usados(db.codigos), dados.codigos) then Failure(CodigoDuplicado)
    else
      var id := db.proximoProdutoId;
      var novo := db.(
        produtos := db.produtos[id := Produto(dados.nome, dados.valor, dados.estoque)],
        codigos := db.codigos + Linhas(dados.codigos, id),
        proximoProdutoId := id + 1);
      AcrescentarProduto(db, dados, novo);
      Success((novo, id))
  }

  /** A product created with a non-negative stock joins the ledger invariant
      with that stock as its initial stock: the fresh id has no movements yet,
      so its balance is zero, and no other product is touched. */
  lemma CadastrarPreservaRazao(db: Db, inicial: map<int, int>, dados: ProdutoInput)
    requires Consistente(db)
    requires EstoqueService.Razao(db, inicial)
    requires dados.estoque >= 0
    ensures var r := Cadastrar(db, dados);
            r.Success? ==> EstoqueService.Razao(r.value.0, inicial[r.value.1 := dados.estoque])
  {
    EstoqueService.SaldoSemMovimentos(db.movimentacoes, db.proximoProdutoId);
  }

  /** Creation does not check the stock's sign: a product created with stock
      −3 in an empty database is stored as is, and no initial stock makes the
      ledger invariant hold afterwards. */
  lemma CadastrarEstoqueNegativo()
    ensures var db := Db(map[], [], [], [], 1, 1);
            var r := Cadastrar(db, ProdutoInput("X", [], 100, -3));
            && Consistente(db)
            && EstoqueService.Razao(db, map[])
            && r.Success?
            && r.value.0.produtos[r.value.1].estoque == -3
            && forall inicial :: !EstoqueService.Razao(r.value.0, inicial)
  {
    var db := Db(map[], [], [], [], 1, 1);
    var r := Cadastrar(db, ProdutoInput("X", [], 100, -3));
    assert Livres(Usados(db.codigos), []);
    forall inicial ensures !EstoqueService.Razao(r.value.0, inicial) {
      assert r.value.1 in r.value.0.produtos && r.value.0.produtos[r.value.1].estoque < 0;
    }
  }

  /** Adding a product under the next id with free barcodes gives it exactly
      those barcodes, leaves everyone else's alone, and keeps the schema's
      guarantees. */
  lemma AcrescentarProduto(db: Db, dados: ProdutoInput, novo: Db)
    requires Livres(Usados(db.codigos), dados.codigos)
    requires novo == db.(
               produtos := db.produtos[db.proximoProdutoId := Produto(dados.nome, dados.valor, dados.estoque)],
               codigos := db.codigos + Linhas(dados.codigos, db.proximoProdutoId),
               proximoProdutoId := db.proximoProdutoId + 1)
    ensures forall k :: k != db.proximoProdutoId ==> CodigosDe(novo.codigos, k) == CodigosDe(db.codigos, k)
    ensures Consistente(db) ==>
              && CodigosDe(novo.codigos, db.proximoProdutoId) == dados.codigos
              && db.proximoProdutoId !in db.produtos
              && Consistente(novo)
  {
    CodigosAposAcrescentar(db.codigos, dados.codigos, db.proximoProdutoId);
    if Consistente(db) {
      AcrescentarMantemConsistente(db, dados);
    }
  }

  lemma AcrescentarMantemConsistente(db: Db, dados: ProdutoInput)
    requires Consistente(db)
    requires Livres(Usados(db.codigos), dados.codigos)
    ensures CodigosDe(db.codigos, db.proximoProdutoId) == []
    ensures Consistente(db.(
              produtos := db.produtos[db.proximoProdutoId := Produto(dados.nome, dados.valor, dados.estoque)],
              codigos := db.codigos + Linhas(dados.codigos, db.proximoProdutoId),
              proximoProdutoId := db.proximoProdutoId + 1))
  {
    var id := db.proximoProdutoId;
    SemLinhasDe(db.codigos, id);
    AcrescentarLivres(db.codigos, dados.codigos, id);
    DonosAposAcrescentar(db.codigos, dados.codigos, id, db.produtos[id := Produto(dados.nome, dados.valor, dados.estoque)]);
  }

  /** `atualizar`: every field given replaces the stored one, every omitted
      field is kept; a given barcode list replaces all of the product's rows. */
  function Atualizar(db: Db, id: int, dados: ProdutoParcial): (r: Result<Db>)
    ensures id !in db.produtos ==> r == Failure(RegistroNaoEncontrado(id))
    ensures id in db.produtos ==>
              (r.Failure? <==>
                 dados.codigos.Some? && !Livres(Usados(Restantes(db.codigos, id)), dados.codigos.value))
    ensures r.Failure? && id in db.produtos ==> r.error == CodigoDuplicado
    ensures r.Success? ==> id in db.produtos && r.value.produtos.Keys == db.produtos.Keys
    ensures r.Success? ==>
              var antes := db.produtos[id];
              var depois := r.value.produtos[id];
              && depois.nome == (if dados.nome.Some? then dados.nome.value else antes.nome)
              && depois.valor == (if dados.valor.Some? then dados.valor.value else antes.valor)
              && depois.estoque == (if dados.estoque.Some? then dados.estoque.value else antes.estoque)
              && (forall k :: k in db.produtos && k != id ==> r.value.produtos[k] == db.produtos[k])
              && CodigosDe(r.value.codigos, id)
                   == (if dados.codigos.Some? then dados.codigos.value else CodigosDe(db.codigos, id))
              && (forall k :: k != id ==> CodigosDe(r.value.codigos, k) == CodigosDe(db.codigos, k))
              && r.value.movimentacoes == db.movimentacoes
              && r.value.vendas == db.vendas
              && r.value.proximoProdutoId == db.proximoProdutoId
              && r.value.proximoVendaId == db.proximoVendaId
    ensures r.Success? && Consistente(db) ==> Consistente(r.value)
  {
    if id !in db.produtos then Failure(RegistroNaoEncontrado(id))
    else
      var antes := db.produtos[id];
      var depois := Produto(dados.nome.GetOr(antes.nome), dados.valor.GetOr(antes.valor), dados.estoque.GetOr(antes.estoque));
      match dados.codigos
      case None => Success(db.(produtos := db.produtos[id := depois]))
      case Some(novos) =>
        if !Livres(Usados(Restantes(db.codigos, id)), novos) then Failure(CodigoDuplicado)
        else
          SubstituirCodigos(db, id, depois, novos);
          Success(db.(produtos := db.produtos[id := depois], codigos := Restantes(db.codigos, id) + Linhas(novos, id)))
  }

  /** Replacing product `id`'s barcode rows with free ones gives it exactly the
      new barcodes, keeps everyone else's, and keeps the schema's guarantees. */
  lemma SubstituirCodigos(db: Db, id: int, depois: Produto, novos: seq<string>)
    requires id in db.produtos
    requires Livres(Usados(Restantes(db.codigos, id)), novos)
    ensures var tabela := Restantes(db.codigos, id) + Linhas(novos, id);
            && (forall k :: CodigosDe(tabela, k) == if k == id then novos else CodigosDe(db.codigos, k))
            && (Consistente(db) ==> Consistente(db.(produtos := db.produtos[id := depois], codigos := tabela)))
  {
    var restantes := Restantes(db.codigos, id);
    CodigosAposAcrescentar(restantes, novos, id);
    forall k ensures CodigosDe(restantes, k) == if k == id then [] else CodigosDe(db.codigos, k) {
      CodigosDeSemProduto(db.codigos, id, k);
    }
    if Consistente(db) {
      SubstituirMantemConsistente(db, id, depois, novos);
    }
  }

  lemma SubstituirMantemConsistente(db: Db, id: int, depois: Produto, novos: seq<string>)
    requires id in db.produtos
    requires Livres(Usados(Restantes(db.codigos, id)), novos)
    requires Consistente(db)
    ensures Consistente(db.(produtos := db.produtos[id := depois], codigos := Restantes(db.codigos, id) + Linhas(novos, id)))
  {
    var restantes := Restantes(db.codigos, id);
    FiltrarPreservaUnicos(db.codigos, id);
    AcrescentarLivres(restantes, novos, id);
    FiltrarPreservaDonos(db.codigos, id, db.produtos);
    DonosAposAcrescentar(restantes, novos, id, db.produtos[id := depois]);
  }

  lemma {:induction false} FiltrarPreservaUnicos(tabela: seq<CodigoBarras>, id: int)
    requires CodigosUnicos(tabela)
    ensures CodigosUnicos(Restantes(tabela, id))
  {
    if |tabela| > 0 {
      assert CodigosUnicos(tabela[1..]) by {
        assert forall i :: 1 <= i < |tabela| ==> tabela[i] == tabela[1..][i - 1];
      }
      FiltrarPreservaUnicos(tabela[1..], id);
      if tabela[0].produtoId != id {
        PrimeiroNaoSeRepete(tabela, id);
        UnicosComPrimeiro(tabela[0], Restantes(tabela[1..], id));
      }
    }
  }

  lemma PrimeiroNaoSeRepete(tabela: seq<CodigoBarras>, id: int)
    requires CodigosUnicos(tabela)
    requires |tabela| > 0
    ensures forall c :: c in Restantes(tabela[1..], id) ==> c.codigo != tabela[0].codigo
  {
    forall c | c in Restantes(tabela[1..], id)
      ensures c.codigo != tabela[0].codigo
    {
      assert c in multiset(Restantes(tabela[1..], id));
      assert c in multiset(tabela[1..]);
      var b :| 0 <= b < |tabela[1..]| && tabela[1..][b] == c;
      assert tabela[b + 1] == c;
    }
  }

  lemma UnicosComPrimeiro(x: CodigoBarras, f: seq<CodigoBarras>)
    requires CodigosUnicos(f)
    requires forall c :: c in f ==> c.codigo != x.codigo
    ensures CodigosUnicos([x] + f)
  {
    var t := [x] + f;
    forall i, j | 0 <= i < j < |t|
      ensures t[i].codigo != t[j].codigo
    {
      assert t[j] == f[j - 1];
      if i > 0 {
        assert t[i] == f[i - 1];
      }
    }
  }

  lemma FiltrarPreservaDonos(tabela: seq<CodigoBarras>, id: int, produtos: map<int, Produto>)
    requires forall i :: 0 <= i < |tabela| ==> tabela[i].produtoId in produtos
    ensures var f := Restantes(tabela, id);
            forall i :: 0 <= i < |f| ==> f[i].produtoId in produtos && f[i].produtoId != id
  {
    var f := Restantes(tabela, id);
    forall i | 0 <= i < |f|
      ensures f[i].produtoId in produtos
    {
      assert f[i] in multiset(tabela);
    }
  }

  /** Updating the stock field moves stock without logging a movement, so the
      ledger invariant that held before no longer holds. */
  lemma AtualizarDesalinhaRazao(db: Db, inicial: map<int, int>, id: int, dados: ProdutoParcial)
    requires EstoqueService.Razao(db, inicial)
    requires Atualizar(db, id, dados).Success?
    requires dados.estoque.Some? && dados.estoque.value != db.produtos[id].estoque
    ensures !EstoqueService.Razao(Atualizar(db, id, dados).value, inicial)
  {
    var novo := Atualizar(db, id, dados).value;
    assert novo.produtos[id].estoque != inicial[id] + EstoqueService.Saldo(novo.movimentacoes, id);
  }

  /** `excluir`: removes exactly that product, with its barcode rows. */
  function Excluir(db: Db, id: int): (r: Result<Db>)
    ensures r.Failure? <==> id !in db.produtos
    ensures r.Failure? ==> r.error == RegistroNaoEncontrado(id)
    ensures r.Success? ==>
              && r.value.produtos.Keys == db.produtos.Keys - {id}
              && (forall k :: k in r.value.produtos ==> r.value.produtos[k] == db.produtos[k])
              && CodigosDe(r.value.codigos, id) == []
              && (forall k :: k != id ==> CodigosDe(r.value.codigos, k) == CodigosDe(db.codigos, k))
              && r.value.movimentacoes == db.movimentacoes
              && r.value.vendas == db.vendas
              && r.value.proximoProdutoId == db.proximoProdutoId
              && r.value.proximoVendaId == db.proximoVendaId
    ensures r.Success? && Consistente(db) ==> Consistente(r.value)
  {
    if id !in db.produtos then Failure(RegistroNaoEncontrado(id))
    else
      RetirarProduto(db, id);
      Success(db.(produtos := db.produtos - {id}, codigos := Restantes(db.codigos, id)))
  }
  /** Deleting a product keeps the ledger invariant for every product that
      remains: their stock and the log are untouched. */
  lemma ExcluirPreservaRazao(db: Db, inicial: map<int, int>, id: int)
    requires EstoqueService.Razao(db, inicial)
    ensures Excluir(db, id).Success? ==> EstoqueService.Razao(Excluir(db, id).value, inicial)
  {
  }


  /** Removing a product together with its barcode rows empties its barcodes,
      keeps everyone else's, and keeps the schema's guarantees. */
  lemma RetirarProduto(db: Db, id: int)
    ensures var tabela := Restantes(db.codigos, id);
            && CodigosDe(tabela, id) == []
            && (forall k :: k != id ==> CodigosDe(tabela, k) == CodigosDe(db.codigos, k))
            && (Consistente(db) ==> Consistente(db.(produtos := db.produtos - {id}, codigos := tabela)))
  {
    var tabela := Restantes(db.codigos, id);
    forall k ensures CodigosDe(tabela, k) == if k == id then [] else CodigosDe(db.codigos, k) {
      CodigosDeSemProduto(db.codigos, id, k);
    }
    if Consistente(db) {
      RetirarMantemConsistente(db, id);
    }
  }

  lemma RetirarMantemConsistente(db: Db, id: int)
    requires Consistente(db)
    ensures Consistente(db.(produtos := db.produtos - {id}, codigos := Restantes(db.codigos, id)))
  {
    FiltrarPreservaUnicos(db.codigos, id);
    FiltrarPreservaDonos(db.codigos, id, db.produtos);
  }

  /** `buscarPorCodigo`: the product owning the barcode, with its barcodes. */
  function BuscarPorCodigo(db: Db, codigo: string): (r: Option<ProdutoComCodigos>)
    ensures r.Some? ==>
              && r.value.id in db.produtos
              && r.value.produto == db.produtos[r.value.id]
              && r.value.codigos == CodigosDe(db.codigos, r.value.id)
              && codigo in r.value.codigos
    ensures Consistente(db) ==>
              && (r.None? <==> codigo !in Usados(db.codigos))
              && forall i :: 0 <= i < |db.codigos| && db.codigos[i].codigo == codigo ==> r.Some? && r.value.id == db.codigos[i].produtoId
  {
    match Linha(db.codigos, codigo)
    case None => None
    case Some(i) =>
      var id := db.codigos[i].produtoId;
      if id in db.produtos then Some(ProdutoComCodigos(id, db.produtos[id], CodigosDe(db.codigos, id)))
      else None
  }

  /** The position of the row holding `codigo`, if any. */
  function Linha(tabela: seq<CodigoBarras>, codigo: string): (r: Option<nat>)
    ensures r.Some? ==> r.value < |tabela| && tabela[r.value].codigo == codigo
    ensures r.None? <==> forall i :: 0 <= i < |tabela| ==> tabela[i].codigo != codigo
  {
    if |tabela| == 0 then None
    else if tabela[0].codigo == codigo then Some(0)
    else
      match Linha(tabela[1..], codigo)
      case None => None
      case Some(i) => Some(i + 1)
  }

  // ---------------------------------------------------------------------------
  // Listing

  /** The ids the product table can hold, in ascending (storage) order: the
      counter hands them out from 1 upwards. */
  function IdsPossiveis(db: Db): (r: seq<int>)
    ensures forall i :: 0 <= i < |r| ==> 1 <= r[i] < db.proximoProdutoId
    ensures forall k :: 1 <= k < db.proximoProdutoId ==> k in r
    ensures SemRepeticao(r)
  {
    var n := if db.proximoProdutoId > 1 then db.proximoProdutoId - 1 else 0;
    var r := seq(n, i requires 0 <= i < n => i + 1);
    forall k | 1 <= k < db.proximoProdutoId
      ensures k in r
    {
      assert r[k - 1] == k;
    }
    r
  }

  /** `orderBy: { nome: 'asc' }`, names compared by code point. */
  predicate PorNome(a: ProdutoComCodigos, b: ProdutoComCodigos) {
    TextoAteh(a.produto.nome, b.produto.nome)
  }

  lemma PorNomeEhPreOrdem()
    ensures PreOrdemTotal(PorNome)
  {
    forall a: ProdutoComCodigos, b: ProdutoComCodigos
      ensures PorNome(a, b) || PorNome(b, a)
    {
      TextoAtehTotal(a.produto.nome, b.produto.nome);
    }
    forall a: ProdutoComCodigos, b: ProdutoComCodigos, c: ProdutoComCodigos | PorNome(a, b) && PorNome(b, c)
      ensures PorNome(a, c)
    {
      TextoAtehTransitivo(a.produto.nome, b.produto.nome, c.produto.nome);
    }
  }

  /** `listar`: every product, with its barcodes, ordered by name. */
  function Listar(db: Db): (r: seq<ProdutoComCodigos>)
    ensures Ordenada(r, PorNome)
    ensures forall i :: 0 <= i < |r| ==>
              && r[i].id in db.produtos
              && r[i].produto == db.produtos[r[i].id]
              && r[i].codigos == CodigosDe(db.codigos, r[i].id)
    ensures Consistente(db) ==> forall k :: k in db.produtos ==> exists i :: 0 <= i < |r| && r[i].id == k
    ensures forall i, j :: 0 <= i < j < |r| ==> r[i].id != r[j].id
  {
    var ids := Filtrar(IdsPossiveis(db), (k: int) => k in db.produtos);
    var linhas := Entradas(db, ids);
    PorNomeEhPreOrdem();
    var r := Ordenar(linhas, PorNome);
    ListagemCompleta(db, ids, linhas, r);
    r
  }

  /** Each listed id with its product and barcodes joined in. */
  function Entradas(db: Db, ids: seq<int>): (linhas: seq<ProdutoComCodigos>)
    requires forall i :: 0 <= i < |ids| ==> ids[i] in db.produtos
    ensures |linhas| == |ids|
    ensures forall i :: 0 <= i < |ids| ==>
              linhas[i] == ProdutoComCodigos(ids[i], db.produtos[ids[i]], CodigosDe(db.codigos, ids[i]))
  {
    seq(|ids|, i requires 0 <= i < |ids| =>
          ProdutoComCodigos(ids[i], db.produtos[ids[i]], CodigosDe(db.codigos, ids[i])))
  }

  /** Any rearrangement of the joined rows lists every product once, with
      its own data. */
  lemma ListagemCompleta(db: Db, ids: seq<int>, linhas: seq<ProdutoComCodigos>, r: seq<ProdutoComCodigos>)
    requires ids == Filtrar(IdsPossiveis(db), (k: int) => k in db.produtos)
    requires linhas == Entradas(db, ids)
    requires multiset(r) == multiset(linhas)
    ensures forall i :: 0 <= i < |r| ==>
              && r[i].id in db.produtos
              && r[i].produto == db.produtos[r[i].id]
              && r[i].codigos == CodigosDe(db.codigos, r[i].id)
    ensures Consistente(db) ==> forall k :: k in db.produtos ==> exists i :: 0 <= i < |r| && r[i].id == k
    ensures forall i, j :: 0 <= i < j < |r| ==> r[i].id != r[j].id
  {
    IdsExistentes(db, ids);
    OrdenarMantemLinhas(db, ids, linhas, r);
    UmaVezCada(ids, linhas, r);
  }

  /** The ids the listing visits: existing products, none twice, and, when the
      counter is ahead of every id, all of them. */
  lemma IdsExistentes(db: Db, ids: seq<int>)
    requires ids == Filtrar(IdsPossiveis(db), (k: int) => k in db.produtos)
    ensures forall i :: 0 <= i < |ids| ==> ids[i] in db.produtos
    ensures SemRepeticao(ids)
    ensures Consistente(db) ==> forall k :: k in db.produtos ==> k in ids
  {
    FiltrarSemRepeticao(IdsPossiveis(db), (k: int) => k in db.produtos);
    if Consistente(db) {
      forall k | k in db.produtos
        ensures k in ids
      {
        assert k in IdsPossiveis(db);
        assert k in multiset(IdsPossiveis(db));
        assert k in multiset(ids);
      }
    }
  }

  lemma OrdenarMantemLinhas(db: Db, ids: seq<int>, linhas: seq<ProdutoComCodigos>, r: seq<ProdutoComCodigos>)
    requires forall i :: 0 <= i < |ids| ==> ids[i] in db.produtos
    requires |linhas| == |ids|
    requires forall i :: 0 <= i < |ids| ==>
               linhas[i] == ProdutoComCodigos(ids[i], db.produtos[ids[i]], CodigosDe(db.codigos, ids[i]))
    requires multiset(r) == multiset(linhas)
    ensures forall i :: 0 <= i < |r| ==>
              && r[i].id in db.produtos
              && r[i].produto == db.produtos[r[i].id]
              && r[i].codigos == CodigosDe(db.codigos, r[i].id)
    ensures forall k :: k in ids ==> exists i :: 0 <= i < |r| && r[i].id == k
  {
    forall i | 0 <= i < |r|
      ensures r[i] in linhas
    {
      assert r[i] in multiset(r);
    }
    forall k | k in ids
      ensures exists i :: 0 <= i < |r| && r[i].id == k
    {
      var j :| 0 <= j < |ids| && ids[j] == k;
      assert linhas[j] in multiset(linhas);
      assert linhas[j] in multiset(r);
      var i :| 0 <= i < |r| && r[i] == linhas[j];
    }
  }

  /** No product is listed twice. */
  lemma UmaVezCada(ids: seq<int>, linhas: seq<ProdutoComCodigos>, r: seq<ProdutoComCodigos>)
    requires SemRepeticao(ids)
    requires |linhas| == |ids|
    requires forall i :: 0 <= i < |ids| ==> linhas[i].id == ids[i]
    requires multiset(r) == multiset(linhas)
    ensures forall i, j :: 0 <= i < j < |r| ==> r[i].id != r[j].id
  {
    assert SemRepeticao(linhas);
    PermutacaoSemRepeticao(linhas, r);
    forall i, j | 0 <= i < j < |r|
      ensures r[i].id != r[j].id
    {
      assert r[i] in multiset(linhas) && r[j] in multiset(linhas);
      var a :| 0 <= a < |linhas| && linhas[a] == r[i];
      var b :| 0 <= b < |linhas| && linhas[b] == r[j];
      assert a != b;
    }
  }
}
