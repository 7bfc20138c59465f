/** Parameterised SQL text, treated as opaque fragments. A query is a text
    with positional placeholders (`$1`, `$2`, ...) and a parallel list of the
    values bound to them. What the SQL means is not modelled: a fragment of SQL
    is only one of the search's fixed phrases.

    Besides the rendering of texts, this module gives a reference way to build
    such a query: an ordered list of clauses, each a template with holes and
    the values for its holes, assembled once so that every hole is numbered by
    the position of its value in the parameter list. */
module SqlText {
  import opened JsValue
  import opened SqlPhrase

  /** A piece of query text: a fixed phrase of SQL, or the placeholder `$index`. */
  datatype Fragment = Sql(phrase: Phrase) | Param(index: nat)

  /** A query: its text and the values bound to its placeholders, in order. */
  datatype Query = Query(text: seq<Fragment>, params: seq<Value>)

  /** The text of the placeholder `$k`. */
  function Placeholder(k: nat): (s: string)
    ensures |s| >= 2 && s[0] == '$'
    ensures forall i :: 1 <= i < |s| ==> IsDigit(s[i])
    ensures DecimalValue(s[1..]) == k
  {
    var s := "$" + NatToDecimal(k);
    assert s[1..] == NatToDecimal(k);
    DecimalRoundTrip(k);
    s
  }

  function RenderFragment(f: Fragment): string
  {
    match f
    case Sql(p) => PhraseText(p)
    case Param(k) => Placeholder(k)
  }

  /** The string a text stands for. */
  function Render(t: seq<Fragment>): string
  {
    if t == [] then "" else Render(t[..|t| - 1]) + RenderFragment(t[|t| - 1])
  }

  /* Appending elements one at a time or all at once gives the same sequence.
     These facts are kept apart from the lemmas about rendering so that their
     proofs see no other definitions. */

  lemma TakeSnoc<T>(t: seq<T>, f: T)
    ensures (t + [f])[..|t|] == t && (t + [f])[|t|] == f
  {
  }

  lemma AppendEmpty<T>(t: seq<T>)
    ensures [] + t == t && t + [] == t
  {
  }

  lemma SplitLast<T>(a: seq<T>, b: seq<T>)
    requires b != []
    ensures a + b == (a + b[..|b| - 1]) + [b[|b| - 1]]
  {
    assert b == b[..|b| - 1] + [b[|b| - 1]];
  }

  lemma TakeOneMore<T>(s: seq<T>, j: nat)
    requires j < |s|
    ensures s[..j + 1] == s[..j] + [s[j]]
  {
  }

  lemma SliceOfPrefix<T>(a: seq<T>, b: seq<T>, s: seq<T>)
    requires a + b <= s
    ensures |a| + |b| <= |s| && s[|a|..|a| + |b|] == b
  {
    assert s[|a|..|a| + |b|] == (a + b)[|a|..];
  }

  /** The six parts of a concatenation, read back by slicing. */
  lemma SixParts<T>(a: seq<T>, b: seq<T>, c: seq<T>, d: seq<T>, e: seq<T>, f: seq<T>)
    ensures var s := a + b + c + d + e + f;
      var i, j, k, m, n := |a|, |a| + |b|, |a| + |b| + |c|, |a| + |b| + |c| + |d|, |a| + |b| + |c| + |d| + |e|;
      |s| == n + |f| &&
      s[..i] == a && s[i..j] == b && s[j..k] == c && s[k..m] == d && s[m..n] == e && s[n..] == f
  {
    var s := a + b + c + d + e + f;
    SliceOfPrefix([], a, s);
    SliceOfPrefix(a, b, s);
    SliceOfPrefix(a + b, c, s);
    SliceOfPrefix(a + b + c, d, s);
    SliceOfPrefix(a + b + c + d, e, s);
    SliceOfPrefix(a + b + c + d + e, f, s);
  }

  /** Where an element occurs in a concatenation. */
  lemma InTwo<T>(a: seq<T>, b: seq<T>, x: T)
    ensures x in a + b <==> x in a || x in b
  {
  }

  lemma InSix<T>(a: seq<T>, b: seq<T>, c: seq<T>, d: seq<T>, e: seq<T>, f: seq<T>, x: T)
    ensures x in a + b + c + d + e + f <==> x in a || x in b || x in c || x in d || x in e || x in f
  {
    InTwo(a, b, x);
    InTwo(a + b, c, x);
    InTwo(a + b + c, d, x);
    InTwo(a + b + c + d, e, x);
    InTwo(a + b + c + d + e, f, x);
  }

  /** Where an element occurs in the part of a six-part concatenation that
      starts inside the second part. */
  lemma InDropSix<T>(a: seq<T>, b: seq<T>, c: seq<T>, d: seq<T>, e: seq<T>, f: seq<T>, k: nat, x: T)
    requires |a| <= k <= |a| + |b|
    ensures x in (a + b + c + d + e + f)[k..] <==> x in b[k - |a|..] || x in c || x in d || x in e || x in f
  {
    var b' := b[k - |a|..];
    assert (a + b + c + d + e + f)[k..] == b' + c + d + e + f;
    InTwo(b', c, x);
    InTwo(b' + c, d, x);
    InTwo(b' + c + d, e, x);
    InTwo(b' + c + d + e, f, x);
  }

  /** Where an element occurs among the first three parts of a six-part
      concatenation. */
  lemma InTakeSix<T>(a: seq<T>, b: seq<T>, c: seq<T>, d: seq<T>, e: seq<T>, f: seq<T>, x: T)
    ensures x in (a + b + c + d + e + f)[..|a| + |b| + |c|] <==> x in a || x in b || x in c
  {
    assert (a + b + c + d + e + f)[..|a| + |b| + |c|] == a + b + c;
    InTwo(a, b, x);
    InTwo(a + b, c, x);
  }

  lemma AssociateStrings(a: string, b: string, c: string)
    ensures (a + b) + c == a + (b + c)
  {
  }

  lemma Snoc2<T>(t: seq<T>, f0: T, f1: T)
    ensures t + [f0] + [f1] == t + [f0, f1]
  {
  }

  lemma Snoc3<T>(t: seq<T>, f0: T, f1: T, f2: T)
    ensures t + [f0] + [f1] + [f2] == t + [f0, f1, f2]
  {
  }

  lemma Snoc4<T>(t: seq<T>, f0: T, f1: T, f2: T, f3: T)
    ensures t + [f0] + [f1] + [f2] + [f3] == t + [f0, f1, f2, f3]
  {
  }

  lemma Snoc5<T>(t: seq<T>, f0: T, f1: T, f2: T, f3: T, f4: T)
    ensures t + [f0] + [f1] + [f2] + [f3] + [f4] == t + [f0, f1, f2, f3, f4]
  {
  }

  lemma RenderSnoc(t: seq<Fragment>, f: Fragment)
    ensures Render(t + [f]) == Render(t) + RenderFragment(f)
  {
    TakeSnoc(t, f);
  }

  lemma RenderSnocSql(s: string, t: seq<Fragment>, a: Phrase)
    requires s == Render(t)
    ensures s + PhraseText(a) == Render(t + [Sql(a)])
  {
    RenderSnoc(t, Sql(a));
  }

  lemma RenderSql(a: Phrase)
    ensures Render([Sql(a)]) == PhraseText(a)
  {
    RenderSnoc([], Sql(a));
    AppendEmpty([Sql(a)]);
  }

  lemma RenderSqlSql(a: Phrase, b: Phrase)
    ensures Render([Sql(a), Sql(b)]) == PhraseText(a) + PhraseText(b)
  {
    RenderSql(a);
    RenderSnoc([Sql(a)], Sql(b));
    Snoc2([], Sql(a), Sql(b));
    AppendEmpty([Sql(a)]);
  }

  lemma RenderSnoc2(t: seq<Fragment>, f0: Fragment, f1: Fragment)
    ensures Render(t + [f0, f1]) == Render(t) + RenderFragment(f0) + RenderFragment(f1)
  {
    RenderSnoc(t, f0);
    RenderSnoc(t + [f0], f1);
    Snoc2(t, f0, f1);
  }

  lemma RenderSnoc3(t: seq<Fragment>, f0: Fragment, f1: Fragment, f2: Fragment)
    ensures Render(t + [f0, f1, f2]) == Render(t) + RenderFragment(f0) + RenderFragment(f1) + RenderFragment(f2)
  {
    RenderSnoc(t, f0);
    RenderSnoc(t + [f0], f1);
    RenderSnoc(t + [f0] + [f1], f2);
    Snoc3(t, f0, f1, f2);
  }

  lemma RenderSnoc4(t: seq<Fragment>, f0: Fragment, f1: Fragment, f2: Fragment, f3: Fragment)
    ensures Render(t + [f0, f1, f2, f3])
         == Render(t) + RenderFragment(f0) + RenderFragment(f1) + RenderFragment(f2) + RenderFragment(f3)
  {
    RenderSnoc(t, f0);
    RenderSnoc(t + [f0], f1);
    RenderSnoc(t + [f0] + [f1], f2);
    RenderSnoc(t + [f0] + [f1] + [f2], f3);
    Snoc4(t, f0, f1, f2, f3);
  }

  lemma RenderSnoc5(t: seq<Fragment>, f0: Fragment, f1: Fragment, f2: Fragment, f3: Fragment, f4: Fragment)
    ensures Render(t + [f0, f1, f2, f3, f4])
         == Render(t) + RenderFragment(f0) + RenderFragment(f1) + RenderFragment(f2) + RenderFragment(f3)
            + RenderFragment(f4)
  {
    RenderSnoc(t, f0);
    RenderSnoc(t + [f0], f1);
    RenderSnoc(t + [f0] + [f1], f2);
    RenderSnoc(t + [f0] + [f1] + [f2], f3);
    RenderSnoc(t + [f0] + [f1] + [f2] + [f3], f4);
    Snoc5(t, f0, f1, f2, f3, f4);
  }

  /** Rendering distributes over concatenation: appending fragments to a text
      appends their strings to its rendering, as `+=` on the query string does.
      A general fact; the builder's proofs use the one-fragment steps above. */
  lemma {:induction false} RenderAppend(a: seq<Fragment>, b: seq<Fragment>)
    ensures Render(a + b) == Render(a) + Render(b)
    decreases |b|
  {
    if b == [] {
      AppendEmpty(a);
    } else {
      var b', f := b[..|b| - 1], b[|b| - 1];
      SplitLast(a, b);
      SplitLast([], b);
      AppendEmpty(b);
      RenderAppend(a, b');
      RenderSnoc(a + b', f);
      RenderSnoc(b', f);
      AssociateStrings(Render(a), Render(b'), RenderFragment(f));
    }
  }

  /** The placeholder numbers of a text, in the order they appear. */
  function Placeholders(t: seq<Fragment>): seq<nat>
  {
    if t == [] then []
    else Placeholders(t[..|t| - 1]) + (if t[|t| - 1].Param? then [t[|t| - 1].index] else [])
  }

  lemma {:induction false} PlaceholdersAppend(a: seq<Fragment>, b: seq<Fragment>)
    ensures Placeholders(a + b) == Placeholders(a) + Placeholders(b)
    decreases |b|
  {
    if b == [] {
      assert a + b == a;
    } else {
      var b' := b[..|b| - 1];
      assert (a + b)[..|a + b| - 1] == a + b';
      PlaceholdersAppend(a, b');
    }
  }

  /** The numbers `first`, `first + 1`, ..., `first + n - 1`, in that order. */
  predicate Consecutive(p: seq<nat>, first: nat, n: nat)
  {
    |p| == n && forall i :: 0 <= i < |p| ==> p[i] == first + i
  }

  lemma ConsecutiveAppend(p: seq<nat>, q: seq<nat>, first: nat, m: nat, n: nat)
    requires Consecutive(p, first, m) && Consecutive(q, first + m, n)
    ensures Consecutive(p + q, first, m + n)
  {
  }

  /** A piece of a clause template: a fixed phrase, or a hole for the next value. */
  datatype Piece = Text(phrase: Phrase) | Hole

  /** One clause of a query: its template and the values for its holes. */
  datatype Clause = Clause(pieces: seq<Piece>, args: seq<Value>)

  /** The number of holes of a template. */
  function Holes(ps: seq<Piece>): nat
  {
    if ps == [] then 0 else Holes(ps[..|ps| - 1]) + (if ps[|ps| - 1].Hole? then 1 else 0)
  }

  /** A clause has one value per hole. */
  predicate WellFormed(c: Clause)
  {
    Holes(c.pieces) == |c.args|
  }

  /** The text of a template whose holes are numbered from `first` on: each
      literal piece stays where it is, and the hole after `h` earlier holes
      becomes the placeholder `first + h`. */
  function Fill(ps: seq<Piece>, first: nat): (t: seq<Fragment>)
    ensures |t| == |ps|
  {
    if ps == [] then []
    else
      var ps' := ps[..|ps| - 1];
      var last := ps[|ps| - 1];
      Fill(ps', first) + [if last.Text? then Sql(last.phrase) else Param(first + Holes(ps'))]
  }

  lemma {:induction false} FillNumbersHoles(ps: seq<Piece>, first: nat)
    ensures Consecutive(Placeholders(Fill(ps, first)), first, Holes(ps))
    decreases |ps|
  {
    if ps != [] {
      var ps' := ps[..|ps| - 1];
      var t := Fill(ps, first);
      FillNumbersHoles(ps', first);
      assert t == Fill(ps', first) + [t[|t| - 1]];
      PlaceholdersAppend(Fill(ps', first), [t[|t| - 1]]);
      assert Placeholders([t[|t| - 1]]) == Placeholders([]) + (if t[|t| - 1].Param? then [t[|t| - 1].index] else []);
    }
  }

  /** The reference query of a clause list: the clauses' texts in order, each
      with its holes numbered after the values of the clauses before it, and
      all clauses' values in the same order. */
  function Assemble(cs: seq<Clause>): (q: Query)
  {
    if cs == [] then Query([], [])
    else
      var q' := Assemble(cs[..|cs| - 1]);
      var c := cs[|cs| - 1];
      Query(q'.text + Fill(c.pieces, |q'.params| + 1), q'.params + c.args)
  }

  lemma AssembleSnoc(cs: seq<Clause>, c: Clause)
    ensures Assemble(cs + [c]).text == Assemble(cs).text + Fill(c.pieces, |Assemble(cs).params| + 1)
    ensures Assemble(cs + [c]).params == Assemble(cs).params + c.args
  {
    assert (cs + [c])[..|cs + [c]| - 1] == cs;
  }

  lemma AssembleOne(c: Clause)
    ensures Assemble([c]) == Query(Fill(c.pieces, 1), c.args)
  {
    AssembleSnoc([], c);
    AppendEmpty([c]);
    AppendEmpty(Fill(c.pieces, 1));
    AppendEmpty(c.args);
  }

  /** Assembling a clause list followed by at most one more clause. */
  lemma AssembleOptional(cs: seq<Clause>, part: seq<Clause>, text: seq<Fragment>, args: seq<Value>)
    requires |part| <= 1
    requires part == [] ==> text == [] && args == []
    requires part != [] ==> text == Fill(part[0].pieces, |Assemble(cs).params| + 1) && args == part[0].args
    ensures Assemble(cs + part) == Query(Assemble(cs).text + text, Assemble(cs).params + args)
  {
    if part == [] {
      AppendEmpty(cs);
      AppendEmpty(Assemble(cs).text);
      AppendEmpty(Assemble(cs).params);
    } else {
      assert part == [part[0]];
      AssembleSnoc(cs, part[0]);
    }
  }

  /** In an assembled query the placeholders, read in text order, are exactly
      1, 2, ..., n, where n is the number of bound values. */
  lemma {:induction false} AssembleNumbersPlaceholders(cs: seq<Clause>)
    requires forall i :: 0 <= i < |cs| ==> WellFormed(cs[i])
    ensures Consecutive(Placeholders(Assemble(cs).text), 1, |Assemble(cs).params|)
    decreases |cs|
  {
    if cs != [] {
      var cs' := cs[..|cs| - 1];
      var c := cs[|cs| - 1];
      assert WellFormed(c);
      AssembleNumbersPlaceholders(cs');
      var q' := Assemble(cs');
      var filled := Fill(c.pieces, |q'.params| + 1);
      assert Assemble(cs).text == q'.text + filled;
      assert |Assemble(cs).params| == |q'.params| + |c.args|;
      PlaceholdersAppend(q'.text, filled);
      FillNumbersHoles(c.pieces, |q'.params| + 1);
      ConsecutiveAppend(Placeholders(q'.text), Placeholders(filled), 1, |q'.params|, |c.args|);
    }
  }

  /** Assembling a prefix of the clauses gives a prefix of the query. */
  lemma {:induction false} AssemblePrefix(cs: seq<Clause>, j: nat)
    requires j <= |cs|
    ensures Assemble(cs[..j]).text <= Assemble(cs).text
    ensures Assemble(cs[..j]).params <= Assemble(cs).params
    decreases |cs|
  {
    if j < |cs| {
      var cs' := cs[..|cs| - 1];
      assert cs'[..j] == cs[..j];
      AssemblePrefix(cs', j);
    } else {
      assert cs[..j] == cs;
    }
  }

  /** Each clause's values sit in the parameter list at the positions its
      holes name: after the values of the clauses before it, in the text at
      the place where its own template was filled in. */
  lemma AssembleBindsClause(cs: seq<Clause>, j: nat)
    requires j < |cs|
    ensures var before := Assemble(cs[..j]);
      var q := Assemble(cs);
      var filled := Fill(cs[j].pieces, |before.params| + 1);
      |before.params| + |cs[j].args| <= |q.params| &&
      q.params[|before.params|..|before.params| + |cs[j].args|] == cs[j].args &&
      |before.text| + |filled| <= |q.text| &&
      q.text[|before.text|..|before.text| + |filled|] == filled
  {
    var before := Assemble(cs[..j]);
    var filled := Fill(cs[j].pieces, |before.params| + 1);
    TakeOneMore(cs, j);
    AssemblePrefix(cs, j + 1);
    AssembleSnoc(cs[..j], cs[j]);
    SliceOfPrefix(before.params, cs[j].args, Assemble(cs).params);
    SliceOfPrefix(before.text, filled, Assemble(cs).text);
  }

}
