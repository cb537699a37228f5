/** The product form's barcode field: a comma-separated string becomes the
    list of barcodes sent to the catalog by splitting on `,`, trimming every
    piece with JavaScript's notion of white space, and dropping the pieces
    left empty. */
module FormularioProduto {
  import opened Sequencias

  const VIRGULA := ','

  /** The characters `String.prototype.trim` removes: ECMAScript's WhiteSpace
      (tab, vertical tab, form feed, space, no-break space, the byte order
      mark and the Space_Separator category) and LineTerminator code points. */
  predicate EspacoJs(c: char) {
    || c in {'\t', '\n', '\U{000B}', '\U{000C}', '\r', ' ', '\U{00A0}', '\U{1680}'}
    || ('\U{2000}' <= c <= '\U{200A}')
    || c in {'\U{2028}', '\U{2029}', '\U{202F}', '\U{205F}', '\U{3000}', '\U{FEFF}'}
  }

  // ---------------------------------------------------------------------------
  // split(',')

  /** `pecas` glued back with a comma between each two. */
  function Juntar(pecas: seq<string>): string
    requires |pecas| >= 1
  {
    if |pecas| == 1 then pecas[0] else pecas[0] + [VIRGULA] + Juntar(pecas[1..])
  }

  /** `split(',')`: always at least one piece (the empty string gives one
      empty piece), no piece holds a comma, and gluing the pieces back gives
      the input. */
  function Dividir(s: string): (r: seq<string>)
    ensures |r| >= 1
    ensures forall i :: 0 <= i < |r| ==> VIRGULA !in r[i]
    ensures Juntar(r) == s
  {
    if |s| == 0 then [""]
    else
      var resto := Dividir(s[1..]);
      assert s == [s[0]] + s[1..];
      if s[0] == VIRGULA then [""] + resto
      else
        var r := [[s[0]] + resto[0]] + resto[1..];
        assert forall i :: 1 <= i < |r| ==> r[i] == resto[i];
        assert |resto| > 1 ==> Juntar(resto) == resto[0] + [VIRGULA] + Juntar(resto[1..]);
        r
  }

  lemma {:induction false} DividirSemVirgula(s: string)
    requires VIRGULA !in s
    ensures Dividir(s) == [s]
  {
    if |s| > 0 {
      assert VIRGULA !in s[1..] by {
        forall i | 0 <= i < |s[1..]| ensures s[1..][i] != VIRGULA {
          assert s[1..][i] == s[i + 1];
        }
      }
      DividirSemVirgula(s[1..]);
      assert [s[0]] + s[1..] == s;
    }
  }

  /** One step of the split: a leading comma starts a new piece, any other
      character joins the first piece of the rest. */
  lemma DividirPasso(c: char, t: string)
    ensures Dividir([c] + t) ==
              if c == VIRGULA then [""] + Dividir(t)
              else [[c] + Dividir(t)[0]] + Dividir(t)[1..]
  {
    assert ([c] + t)[0] == c;
    assert ([c] + t)[1..] == t;
  }

  /** A comma-free stretch followed by a comma is exactly the first piece. */
  lemma {:induction false} DividirPrimeira(x: string, y: string)
    requires VIRGULA !in x
    ensures Dividir(x + [VIRGULA] + y) == [x] + Dividir(y)
  {
    if |x| == 0 {
      assert x + [VIRGULA] + y == [VIRGULA] + y;
      DividirPasso(VIRGULA, y);
    } else {
      var t := x[1..];
      assert VIRGULA !in t by {
        forall i | 0 <= i < |t| ensures t[i] != VIRGULA {
          assert t[i] == x[i + 1];
        }
      }
      assert x + [VIRGULA] + y == [x[0]] + (t + [VIRGULA] + y);
      DividirPrimeira(t, y);
      DividirPasso(x[0], t + [VIRGULA] + y);
      assert [x[0]] + t == x;
    }
  }

  /** The other half of the round trip: pieces without commas are recovered
      exactly from their comma-joined string. */
  lemma {:induction false} DividirJuntar(pecas: seq<string>)
    requires |pecas| >= 1
    requires forall i :: 0 <= i < |pecas| ==> VIRGULA !in pecas[i]
    ensures Dividir(Juntar(pecas)) == pecas
  {
    if |pecas| == 1 {
      DividirSemVirgula(pecas[0]);
    } else {
      DividirJuntar(pecas[1..]);
      DividirPrimeira(pecas[0], Juntar(pecas[1..]));
      assert pecas == [pecas[0]] + pecas[1..];
    }
  }

  /** Gluing two lists of pieces puts one comma between their glued forms. */
  lemma {:induction false} JuntarConcat(p: seq<string>, q: seq<string>)
    requires |p| >= 1 && |q| >= 1
    ensures Juntar(p + q) == Juntar(p) + [VIRGULA] + Juntar(q)
  {
    assert (p + q)[0] == p[0];
    assert (p + q)[1..] == p[1..] + q;
    if |p| > 1 {
      JuntarConcat(p[1..], q);
    }
  }

  /** A comma in the input separates the pieces before it from those after it. */
  lemma DividirConcat(a: string, b: string)
    ensures Dividir(a + [VIRGULA] + b) == Dividir(a) + Dividir(b)
  {
    var pa, pb := Dividir(a), Dividir(b);
    JuntarConcat(pa, pb);
    assert forall i :: 0 <= i < |pa + pb| ==> VIRGULA !in (pa + pb)[i] by {
      forall i | 0 <= i < |pa + pb| ensures VIRGULA !in (pa + pb)[i] {
        if i < |pa| { assert (pa + pb)[i] == pa[i]; } else { assert (pa + pb)[i] == pb[i - |pa|]; }
      }
    }
    DividirJuntar(pa + pb);
  }

  // ---------------------------------------------------------------------------
  // trim()

  /** How many characters at the front are white space. */
  function Brancos(s: string): (n: nat)
    ensures n <= |s|
    ensures forall i :: 0 <= i < n ==> EspacoJs(s[i])
    ensures n < |s| ==> !EspacoJs(s[n])
  {
    if |s| == 0 || !EspacoJs(s[0]) then 0
    else
      var n := Brancos(s[1..]);
      assert forall i :: 1 <= i <= n ==> s[i] == s[1..][i - 1];
      1 + n
  }

  /** How many characters at the back are white space. */
  function BrancosFinais(s: string): (n: nat)
    ensures n <= |s|
    ensures forall i :: |s| - n <= i < |s| ==> EspacoJs(s[i])
    ensures n < |s| ==> !EspacoJs(s[|s| - n - 1])
  {
    if |s| == 0 || !EspacoJs(s[|s| - 1]) then 0
    else
      var n := BrancosFinais(s[..|s| - 1]);
      assert forall i :: 0 <= i < |s| - 1 ==> s[i] == s[..|s| - 1][i];
      1 + n
  }

  /** Neither starts nor ends with white space. */
  predicate Aparado(s: string) {
    |s| > 0 ==> !EspacoJs(s[0]) && !EspacoJs(s[|s| - 1])
  }

  /** `trim()`: the result is a stretch of the input with only white space
      before and after it, and it neither starts nor ends with white space. */
  function Aparar(s: string): (r: string)
    ensures Brancos(s) + |r| <= |s|
    ensures r == s[Brancos(s)..Brancos(s) + |r|]
    ensures forall i :: 0 <= i < Brancos(s) ==> EspacoJs(s[i])
    ensures forall i :: Brancos(s) + |r| <= i < |s| ==> EspacoJs(s[i])
    ensures Aparado(r)
  {
    var a := Brancos(s);
    if a == |s| then ""
    else s[a..|s| - BrancosFinais(s)]
  }

  lemma ApararIdempotente(s: string)
    ensures Aparar(Aparar(s)) == Aparar(s)
  {
    var r := Aparar(s);
    if |r| > 0 {
      assert Brancos(r) == 0;
      assert BrancosFinais(r) == 0;
      assert r[0..|r|] == r;
    }
  }

  // ---------------------------------------------------------------------------
  // The whole field

  /** Every piece trimmed, in order. */
  function Aparados(pecas: seq<string>): (r: seq<string>)
    ensures |r| == |pecas|
    ensures forall i :: 0 <= i < |pecas| ==> r[i] == Aparar(pecas[i])
  {
    seq(|pecas|, i requires 0 <= i < |pecas| => Aparar(pecas[i]))
  }

  function NaoVazio(c: string): bool {
    c != ""
  }

  /** `split(',').map(c => c.trim()).filter(c => c)`. */
  function ParseCodigos(texto: string): (r: seq<string>)
    ensures forall i :: 0 <= i < |r| ==> r[i] != ""
    ensures forall i :: 0 <= i < |r| ==> VIRGULA !in r[i]
    ensures forall i :: 0 <= i < |r| ==> Aparado(r[i])
    ensures VIRGULA !in texto ==> r == (if Aparar(texto) == "" then [] else [Aparar(texto)])
  {
    PecasSemVirgula(texto);
    var r := Filtrar(Aparados(Dividir(texto)), NaoVazio);
    if VIRGULA !in texto then UmaPeca(texto); r else r
  }

  lemma ApararSemVirgula(s: string)
    requires VIRGULA !in s
    ensures VIRGULA !in Aparar(s)
  {
    var r := Aparar(s);
    var m := Brancos(s);
    forall i | 0 <= i < |r|
      ensures r[i] != VIRGULA
    {
      assert r[i] == s[m + i];
    }
  }

  /** No trimmed piece that survives the filter holds a comma. */
  lemma PecasSemVirgula(texto: string)
    ensures var r := Filtrar(Aparados(Dividir(texto)), NaoVazio);
            && (forall i :: 0 <= i < |r| ==> r[i] != "")
            && (forall i :: 0 <= i < |r| ==> VIRGULA !in r[i])
            && (forall i :: 0 <= i < |r| ==> Aparado(r[i]))
  {
    var pecas := Dividir(texto);
    var aparados := Aparados(pecas);
    forall j | 0 <= j < |pecas|
      ensures VIRGULA !in aparados[j]
    {
      ApararSemVirgula(pecas[j]);
    }
    var r := Filtrar(aparados, NaoVazio);
    forall i | 0 <= i < |r|
      ensures VIRGULA !in r[i] && r[i] != "" && Aparado(r[i])
    {
      assert r[i] in multiset(r);
      assert r[i] in multiset(aparados);
      var j :| 0 <= j < |aparados| && aparados[j] == r[i];
    }
  }

  /** Without a comma the field is one piece. */
  lemma UmaPeca(texto: string)
    requires VIRGULA !in texto
    ensures Filtrar(Aparados(Dividir(texto)), NaoVazio) == (if Aparar(texto) == "" then [] else [Aparar(texto)])
  {
    DividirSemVirgula(texto);
    assert Aparados([texto]) == [Aparar(texto)];
    FiltrarUnitario(Aparar(texto), NaoVazio);
  }

  /** The field keeps the written order: the barcodes before a comma come
      first, those after it follow. */
  lemma ParseConcatena(a: string, b: string)
    ensures ParseCodigos(a + [VIRGULA] + b) == ParseCodigos(a) + ParseCodigos(b)
  {
    var pa, pb := Aparados(Dividir(a)), Aparados(Dividir(b));
    DividirConcat(a, b);
    AparadosConcat(Dividir(a), Dividir(b));
    FiltrarConcat(pa, pb, NaoVazio);
    Desdobrar(a + [VIRGULA] + b);
    Desdobrar(a);
    Desdobrar(b);
  }

  lemma AparadosConcat(x: seq<string>, y: seq<string>)
    ensures Aparados(x + y) == Aparados(x) + Aparados(y)
  {
    assert forall i :: 0 <= i < |x| ==> (x + y)[i] == x[i];
    assert forall i :: |x| <= i < |x + y| ==> (x + y)[i] == y[i - |x|];
  }

  lemma Desdobrar(texto: string)
    ensures ParseCodigos(texto) == Filtrar(Aparados(Dividir(texto)), NaoVazio)
  {
  }
}
