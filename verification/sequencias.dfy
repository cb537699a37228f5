/** Sequence operations the queries rely on: filtering (`where`), sorting
    (`orderBy`) by any total preorder, and the code-point lexicographic order
    on strings used for product names. */
module Sequencias {

  /** The elements of `s` that satisfy `p`, in their original order. */
  function Filtrar<T(!new)>(s: seq<T>, p: T -> bool): (r: seq<T>)
    ensures |r| <= |s|
    ensures forall x :: multiset(r)[x] == if p(x) then multiset(s)[x] else 0
    ensures forall i :: 0 <= i < |r| ==> p(r[i])
  {
    if |s| == 0 then []
    else
      assert s == [s[0]] + s[1..];
      if p(s[0]) then [s[0]] + Filtrar(s[1..], p) else Filtrar(s[1..], p)
  }

  /** Filtering distributes over concatenation: what survives from the front
      part comes before what survives from the back part. */
  lemma {:induction false} FiltrarConcat<T(!new)>(a: seq<T>, b: seq<T>, p: T -> bool)
    ensures Filtrar(a + b, p) == Filtrar(a, p) + Filtrar(b, p)
  {
    if |a| == 0 {
      assert a + b == b;
    } else {
      assert (a + b)[0] == a[0];
      assert (a + b)[1..] == a[1..] + b;
      FiltrarConcat(a[1..], b, p);
    }
  }

  lemma FiltrarUnitario<T(!new)>(x: T, p: T -> bool)
    ensures Filtrar([x], p) == if p(x) then [x] else []
  {
    assert [x][1..] == [];
  }

  lemma AnexarUm<T>(a: seq<T>, x: T, b: seq<T>)
    ensures a + ([x] + b) == (a + [x]) + b
  {
  }

  /** The sum of `f` over the elements of `s`. */
  function Somar<T>(itens: seq<T>, f: T -> int): int {
    if |itens| == 0 then 0 else f(itens[0]) + Somar(itens[1..], f)
  }

  /** Sums distribute over concatenation. */
  lemma {:induction false} SomarConcat<T>(a: seq<T>, b: seq<T>, f: T -> int)
    ensures Somar(a + b, f) == Somar(a, f) + Somar(b, f)
  {
    if |a| == 0 {
      assert a + b == b;
    } else {
      assert (a + b)[1..] == a[1..] + b;
      SomarConcat(a[1..], b, f);
    }
  }

  /** A sum of non-negative terms is non-negative. */
  lemma {:induction false} SomarNaoNegativa<T>(s: seq<T>, f: T -> int)
    ensures (forall i :: 0 <= i < |s| ==> f(s[i]) >= 0) ==> Somar(s, f) >= 0
  {
    if |s| > 0 {
      assert forall i :: 0 <= i < |s[1..]| ==> s[1..][i] == s[i + 1];
      SomarNaoNegativa(s[1..], f);
    }
  }

  /** Replacing one element changes the sum by the difference of its terms. */
  lemma SomarSubstituir<T>(s: seq<T>, k: int, x: T, f: T -> int)
    requires 0 <= k < |s|
    ensures Somar(s[k := x], f) == Somar(s, f) - f(s[k]) + f(x)
  {
    assert s == s[..k] + [s[k]] + s[k + 1..];
    assert s[k := x] == s[..k] + [x] + s[k + 1..];
    SomarConcat(s[..k] + [s[k]], s[k + 1..], f);
    SomarConcat(s[..k], [s[k]], f);
    SomarConcat(s[..k] + [x], s[k + 1..], f);
    SomarConcat(s[..k], [x], f);
  }

  /** No element occurs twice. */
  predicate SemRepeticao<T(==)>(s: seq<T>) {
    forall i, j :: 0 <= i < j < |s| ==> s[i] != s[j]
  }

  lemma {:induction false} FiltrarSemRepeticao<T(!new)>(s: seq<T>, p: T -> bool)
    requires SemRepeticao(s)
    ensures SemRepeticao(Filtrar(s, p))
  {
    if |s| > 0 {
      assert SemRepeticao(s[1..]) by {
        assert forall i :: 1 <= i < |s| ==> s[i] == s[1..][i - 1];
      }
      FiltrarSemRepeticao(s[1..], p);
      var resto := Filtrar(s[1..], p);
      if p(s[0]) {
        CabecaForaDoFiltro(s, p);
        SemRepeticaoComCabeca(s[0], resto);
      }
    }
  }

  lemma CabecaForaDoFiltro<T(!new)>(s: seq<T>, p: T -> bool)
    requires SemRepeticao(s) && |s| > 0
    ensures forall k :: 0 <= k < |Filtrar(s[1..], p)| ==> Filtrar(s[1..], p)[k] != s[0]
  {
    var resto := Filtrar(s[1..], p);
    forall k | 0 <= k < |resto|
      ensures resto[k] != s[0]
    {
      assert resto[k] in multiset(resto);
      assert resto[k] in multiset(s[1..]);
      var m :| 0 <= m < |s[1..]| && s[1..][m] == resto[k];
      assert s[m + 1] == resto[k];
    }
  }

  lemma SemRepeticaoComCabeca<T>(x: T, s: seq<T>)
    requires SemRepeticao(s)
    requires forall k :: 0 <= k < |s| ==> s[k] != x
    ensures SemRepeticao([x] + s)
  {
    var t := [x] + s;
    forall i, j | 0 <= i < j < |t|
      ensures t[i] != t[j]
    {
      assert t[j] == s[j - 1];
      if i > 0 {
        assert t[i] == s[i - 1];
      }
    }
  }

  lemma {:induction false} ContagemSemRepeticao<T>(s: seq<T>, x: T)
    requires SemRepeticao(s)
    ensures multiset(s)[x] <= 1
  {
    if |s| > 0 {
      assert s == [s[0]] + s[1..];
      assert SemRepeticao(s[1..]) by {
        assert forall i :: 1 <= i < |s| ==> s[i] == s[1..][i - 1];
      }
      ContagemSemRepeticao(s[1..], x);
      forall m | 0 <= m < |s[1..]|
        ensures s[1..][m] != s[0]
      {
        assert s[1..][m] == s[m + 1];
      }
    }
  }

  /** A rearrangement of a sequence without repeats has none either. */
  lemma PermutacaoSemRepeticao<T>(a: seq<T>, b: seq<T>)
    requires SemRepeticao(a)
    requires multiset(a) == multiset(b)
    ensures SemRepeticao(b)
  {
    forall i, j | 0 <= i < j < |b|
      ensures b[i] != b[j]
    {
      assert b == b[..j] + b[j..];
      assert b[i] == b[..j][i];
      assert b[j] == b[j..][0];
      assert multiset(b)[b[i]] == multiset(b[..j])[b[i]] + multiset(b[j..])[b[i]];
      ContagemSemRepeticao(a, b[i]);
    }
  }

  ghost predicate Total<T(!new)>(le: (T, T) -> bool) {
    forall x, y :: le(x, y) || le(y, x)
  }

  ghost predicate Transitiva<T(!new)>(le: (T, T) -> bool) {
    forall x, y, z :: le(x, y) && le(y, z) ==> le(x, z)
  }

  /** The orders an `orderBy` clause can produce: every two rows compare, and
      rows with equal keys may come in either order. */
  ghost predicate PreOrdemTotal<T(!new)>(le: (T, T) -> bool) {
    Total(le) && Transitiva(le)
  }

  predicate Ordenada<T>(s: seq<T>, le: (T, T) -> bool) {
    forall i, j :: 0 <= i < j < |s| ==> le(s[i], s[j])
  }

  /** Inserts `x` into the sorted `s` before the first element it may precede. */
  function Inserir<T(!new)>(x: T, s: seq<T>, le: (T, T) -> bool): (r: seq<T>)
    requires PreOrdemTotal(le)
    requires Ordenada(s, le)
    ensures Ordenada(r, le)
    ensures multiset(r) == multiset(s) + multiset{x}
  {
    if |s| == 0 then [x]
    else if le(x, s[0]) then [x] + s
    else
      var t := Inserir(x, s[1..], le);
      assert s == [s[0]] + s[1..];
      CabecaPrecede(x, s, t, le);
      [s[0]] + t
  }

  /** The head of a sorted list precedes everything its tail holds, and `x`
      when `x` may not go before it. */
  lemma CabecaPrecede<T(!new)>(x: T, s: seq<T>, t: seq<T>, le: (T, T) -> bool)
    requires PreOrdemTotal(le)
    requires Ordenada(s, le) && |s| > 0 && !le(x, s[0])
    requires multiset(t) == multiset(s[1..]) + multiset{x}
    ensures forall k :: 0 <= k < |t| ==> le(s[0], t[k])
  {
    forall k | 0 <= k < |t|
      ensures le(s[0], t[k])
    {
      assert t[k] in multiset(t);
      if t[k] != x {
        assert t[k] in multiset(s[1..]);
        var m :| 0 <= m < |s[1..]| && s[1..][m] == t[k];
        assert s[m + 1] == t[k];
      }
    }
  }

  /** Sorts `s` so that `le` holds between every earlier and later element. */
  function Ordenar<T(!new)>(s: seq<T>, le: (T, T) -> bool): (r: seq<T>)
    requires PreOrdemTotal(le)
    ensures Ordenada(r, le)
    ensures multiset(r) == multiset(s)
  {
    if |s| == 0 then []
    else
      assert s == [s[0]] + s[1..];
      Inserir(s[0], Ordenar(s[1..], le), le)
  }

  /** Code-point lexicographic order: a prefix comes first, otherwise the first
      differing character decides. */
  predicate TextoAteh(a: string, b: string)
    decreases |a|
  {
    |a| == 0 || (|b| > 0 && (a[0] < b[0] || (a[0] == b[0] && TextoAteh(a[1..], b[1..]))))
  }

  lemma {:induction false} TextoAtehTotal(a: string, b: string)
    ensures TextoAteh(a, b) || TextoAteh(b, a)
    decreases |a|
  {
    if |a| > 0 && |b| > 0 && a[0] == b[0] {
      TextoAtehTotal(a[1..], b[1..]);
    }
  }

  lemma {:induction false} TextoAtehTransitivo(a: string, b: string, c: string)
    requires TextoAteh(a, b) && TextoAteh(b, c)
    ensures TextoAteh(a, c)
    decreases |a|
  {
    if |a| > 0 && a[0] == b[0] && b[0] == c[0] {
      TextoAtehTransitivo(a[1..], b[1..], c[1..]);
    }
  }
}
