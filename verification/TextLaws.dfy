/** How the normalisations read a title made of pieces with blanks between them. */
module TextLaws {
  import opened Text

  lemma {:induction false} TranslitConcat(a: string, b: string)
    ensures Translit(a + b) == Translit(a) + Translit(b)
  {
    if a == "" {
      assert a + b == b;
    } else {
      assert (a + b)[1..] == a[1..] + b;
      TranslitConcat(a[1..], b);
    }
  }

  lemma {:induction false} FoldConcat(a: string, b: string)
    ensures Fold(a + b) == Fold(a) + Fold(b)
  {
    if a == "" {
      assert a + b == b;
    } else {
      assert (a + b)[1..] == a[1..] + b;
      FoldConcat(a[1..], b);
    }
  }

  lemma BlankStays()
    ensures Fold(" ") == " " && Translit(" ") == " "
  {}

  lemma FoldBlank(a: string, b: string)
    ensures Fold(a + " " + b) == Fold(a) + " " + Fold(b)
  {
    BlankStays();
    FoldConcat(a + " ", b);
    FoldConcat(a, " ");
  }

  lemma TranslitBlank(a: string, b: string)
    ensures Translit(a + " " + b) == Translit(a) + " " + Translit(b)
  {
    BlankStays();
    TranslitConcat(a + " ", b);
    TranslitConcat(a, " ");
  }

  lemma {:induction false} RunLengthStops(a: string, b: string, ok: char -> bool)
    requires !ok(' ')
    ensures RunLength(a + (" " + b), ok) == RunLength(a, ok)
  {
    if a != "" {
      assert (a + (" " + b))[1..] == a[1..] + (" " + b);
      RunLengthStops(a[1..], b, ok);
    }
  }

  lemma RunsSkip(s: string, ok: char -> bool)
    requires s != "" && !ok(s[0])
    ensures Runs(s, ok) == Runs(s[1..], ok)
  {}

  lemma RunsStep(s: string, n: nat, ok: char -> bool)
    requires s != "" && ok(s[0]) && n == RunLength(s, ok)
    ensures Runs(s, ok) == [s[..n]] + Runs(s[n..], ok)
  {}

  lemma BlankAfterSkip(s: string, a: string, b: string, ok: char -> bool)
    requires s != "" && a != "" && s[0] == a[0] && !ok(a[0]) && Runs(s[1..], ok) == Runs(a[1..], ok) + Runs(b, ok)
    ensures Runs(s, ok) == Runs(a, ok) + Runs(b, ok)
  {
    RunsSkip(s, ok);
    RunsSkip(a, ok);
  }

  lemma OneBefore<T>(x: T, p: seq<T>, q: seq<T>)
    ensures [x] + (p + q) == ([x] + p) + q
  {}

  lemma BlankAfterRun(s: string, a: string, b: string, n: nat, ok: char -> bool)
    requires s != "" && a != "" && ok(a[0]) && s[0] == a[0] && n == RunLength(a, ok) == RunLength(s, ok) && s[..n] == a[..n]
    requires Runs(s[n..], ok) == Runs(a[n..], ok) + Runs(b, ok)
    ensures Runs(s, ok) == Runs(a, ok) + Runs(b, ok)
  {
    RunsStep(s, n, ok);
    RunsStep(a, n, ok);
    OneBefore(a[..n], Runs(a[n..], ok), Runs(b, ok));
  }

  lemma DropBefore(a: string, b: string, n: nat)
    requires 0 < n <= |a|
    ensures (a + b)[0] == a[0] && (a + b)[..n] == a[..n] && (a + b)[n..] == a[n..] + b
  {}

  /** A blank separates the runs before it from those after it. */
  lemma {:induction false} RunsBlank(a: string, b: string, ok: char -> bool)
    requires !ok(' ')
    ensures Runs(a + (" " + b), ok) == Runs(a, ok) + Runs(b, ok)
    decreases |a|
  {
    if a == "" {
      assert a + (" " + b) == " " + b && (" " + b)[1..] == b;
      RunsSkip(" " + b, ok);
    } else if !ok(a[0]) {
      RunsBlank(a[1..], b, ok);
      DropBefore(a, " " + b, 1);
      BlankAfterSkip(a + (" " + b), a, b, ok);
    } else {
      var n := RunLength(a, ok);
      RunsBlank(a[n..], b, ok);
      RunLengthStops(a, b, ok);
      DropBefore(a, " " + b, n);
      BlankAfterRun(a + (" " + b), a, b, n, ok);
    }
  }

  lemma NoYearOverBlank(a: string, b: string)
    requires a != ""
    ensures YearAt(a + (" " + b)) == YearAt(a)
    ensures YearAt(a) ==> (a + (" " + b))[..4] == a[..4] && (a + (" " + b))[4..] == a[4..] + (" " + b)
  {
    var s := a + (" " + b);
    assert s[|a|] == ' ';
    if |a| == 1 && |s| >= 2 { assert s[..2][1] == ' '; }
    if |a| >= 2 { assert s[..2] == a[..2]; }
  }

  lemma {:induction false} YearsOverBlank(a: string, b: string)
    ensures FindYears(a + (" " + b)) == FindYears(a) + FindYears(b)
    decreases |a|
  {
    var s := a + (" " + b);
    if a == "" {
      assert s == " " + b && s[1..] == b;
      assert |s| >= 2 ==> s[..2][0] == ' ';
    } else {
      NoYearOverBlank(a, b);
      if YearAt(a) {
        YearsOverBlank(a[4..], b);
      } else {
        assert s[1..] == a[1..] + (" " + b);
        YearsOverBlank(a[1..], b);
      }
    }
  }

  lemma {:induction false} JoinConcat(p: seq<string>, q: seq<string>)
    ensures Join(p + q) == Join(p) + Join(q)
  {
    if p == [] {
      assert p + q == q;
    } else {
      assert (p + q)[1..] == p[1..] + q;
      JoinConcat(p[1..], q);
    }
  }

  lemma RunsApart(s: string, a: string, b: string, ok: char -> bool)
    requires !ok(' ') && s == a + " " + b
    ensures Runs(s, ok) == Runs(a, ok) + Runs(b, ok)
  {
    OnTheRight(a, " ", b);
    RunsBlank(a, b, ok);
  }

  lemma OnTheRight<T>(a: seq<T>, b: seq<T>, c: seq<T>)
    ensures a + b + c == a + (b + c)
  {}

  // ----- what a matcher reads off two pieces -----

  lemma WordsBlank(a: string, b: string)
    ensures Words(a + " " + b) == Words(a) + Words(b)
  {
    FoldBlank(a, b);
    RunsApart(Fold(a + " " + b), Fold(a), Fold(b), IsTokenChar);
  }

  lemma TokensBlank(a: string, b: string)
    ensures TranslitTokens(a + " " + b) == TranslitTokens(a) + TranslitTokens(b)
  {
    TranslitBlank(a, b);
    RunsApart(Translit(a + " " + b), Translit(a), Translit(b), IsLatinTokenChar);
  }

  lemma KeyBlank(a: string, b: string)
    ensures TranslitKey(a + " " + b) == TranslitKey(a) + TranslitKey(b)
  {
    TokensBlank(a, b);
    JoinConcat(TranslitTokens(a), TranslitTokens(b));
  }

  lemma NumbersBlank(a: string, b: string)
    ensures Numbers(a + " " + b) == Numbers(a) + Numbers(b)
  {
    RunsApart(a + " " + b, a, b, IsDigit);
  }

  lemma YearsBlank(a: string, b: string)
    ensures FindYears(a + " " + b) == FindYears(a) + FindYears(b)
  {
    assert a + " " + b == a + (" " + b);
    YearsOverBlank(a, b);
  }

  // ----- any number of pieces -----

  /** The pieces with a blank between neighbours. */
  function Spaced(pieces: seq<string>): string {
    if pieces == [] then "" else if |pieces| == 1 then pieces[0] else pieces[0] + " " + Spaced(pieces[1..])
  }

  function Keys(pieces: seq<string>): seq<string> {
    if pieces == [] then [] else [TranslitKey(pieces[0])] + Keys(pieces[1..])
  }

  ghost function UnionOf(pieces: seq<string>, f: string -> set<string>): set<string> {
    if pieces == [] then {} else f(pieces[0]) + UnionOf(pieces[1..], f)
  }

  lemma {:induction false} UnionHolds(pieces: seq<string>, f: string -> set<string>, x: string)
    ensures x in UnionOf(pieces, f) <==> exists p <- pieces :: x in f(p)
  {
    if pieces != [] {
      UnionHolds(pieces[1..], f, x);
      assert pieces == [pieces[0]] + pieces[1..];
    }
  }

  lemma UnionIgnoresOrder(p: seq<string>, q: seq<string>, f: string -> set<string>)
    requires multiset(p) == multiset(q)
    ensures UnionOf(p, f) == UnionOf(q, f)
  {
    forall x: string ensures x in UnionOf(p, f) <==> x in UnionOf(q, f) {
      UnionHolds(p, f, x);
      UnionHolds(q, f, x);
      assert forall s: string :: s in p <==> s in multiset(p);
      assert forall s: string :: s in q <==> s in multiset(q);
    }
  }

  lemma EmptyReads()
    ensures Words("") == {} && Numbers("") == {} && FindYears("") == {} && TranslitKey("") == ""
  {}

  /** A spaced title reads as its pieces do. */
  lemma {:induction false} SpacedReads(pieces: seq<string>)
    ensures Words(Spaced(pieces)) == UnionOf(pieces, Words)
    ensures Numbers(Spaced(pieces)) == UnionOf(pieces, Numbers)
    ensures FindYears(Spaced(pieces)) == UnionOf(pieces, FindYears)
    ensures TranslitKey(Spaced(pieces)) == Join(Keys(pieces))
  {
    EmptyReads();
    if pieces != [] {
      var first, rest := pieces[0], pieces[1..];
      SpacedReads(rest);
      if rest != [] {
        WordsBlank(first, Spaced(rest));
        NumbersBlank(first, Spaced(rest));
        YearsBlank(first, Spaced(rest));
        KeyBlank(first, Spaced(rest));
      } else {
        assert Keys(rest) == [] && Join([]) == "";
      }
    }
  }
}
