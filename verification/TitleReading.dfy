/** What the matchers read off short plain titles. */
module TitleReading {
  import opened Collections
  import opened Text
  import opened TextLaws
  import opened TitleMatch

  /** A lower-case Russian word that leaves something after transliteration. */
  predicate PlainWord(w: string) {
    Translit(w) != "" && forall c <- w :: 'а' <= c <= 'я'
  }

  predicate Digits(d: string) {
    d != "" && forall c <- d :: IsDigit(c)
  }

  lemma LowerAlready(c: char)
    requires IsTokenChar(c) || c == ' '
    ensures LowerChar(c) == c && c != 'ё'
  {}

  lemma OneBeforeRest(s: string)
    requires s != ""
    ensures [s[0]] + s[1..] == s
  {}

  lemma {:induction false} FoldPlain(s: string)
    requires forall c <- s :: IsTokenChar(c) || c == ' '
    ensures Fold(s) == s
  {
    if s != "" {
      assert s[0] in s;
      FoldPlain(s[1..]);
      LowerAlready(s[0]);
      OneBeforeRest(s);
    }
  }

  lemma LatinOfTokenChar(c: char)
    requires IsTokenChar(c)
    ensures LowerChar(c) == c && forall x <- Latin(c) :: IsLatinTokenChar(x)
    ensures IsDigit(c) ==> Latin(c) == [c]
  {}

  lemma {:induction false} TranslitPlain(s: string)
    requires forall c <- s :: IsTokenChar(c)
    ensures forall c <- Translit(s) :: IsLatinTokenChar(c)
    ensures (forall c <- s :: IsDigit(c)) ==> Translit(s) == s
  {
    if s != "" {
      assert s[0] in s && s == [s[0]] + s[1..];
      LatinOfTokenChar(s[0]);
      TranslitPlain(s[1..]);
    }
  }

  lemma OneRun(t: string, ok: char -> bool)
    requires t != "" && forall c <- t :: ok(c)
    ensures Runs(t, ok) == [t]
  {
    RunsToken(t, "", ok);
    assert t + "" == t;
  }

  lemma {:induction false} NoRun(t: string, ok: char -> bool)
    requires forall c <- t :: !ok(c)
    ensures Runs(t, ok) == []
  {
    if t != "" {
      assert t[0] in t;
      assert forall c <- t[1..] :: c in t;
      NoRun(t[1..], ok);
    }
  }

  /** The word and the key of a plain token. */
  lemma ReadOne(t: string)
    requires PlainWord(t) || Digits(t)
    ensures Words(t) == {t} && TranslitKey(t) == Translit(t) && Translit(t) != ""
    ensures Digits(t) ==> Translit(t) == t
  {
    assert Translit("") == "";
    FoldPlain(t);
    TranslitPlain(t);
    OneRun(t, IsTokenChar);
    OneRun(Translit(t), IsLatinTokenChar);
    assert Elements([t]) == {t};
    assert Join([Translit(t)]) == Translit(t) + Join([]);
  }

  /** The words and the key of two of them. */
  lemma ReadTwo(t: string, u: string)
    requires (PlainWord(t) || Digits(t)) && (PlainWord(u) || Digits(u))
    ensures Words(t + " " + u) == {t, u} && TranslitKey(t + " " + u) == Translit(t) + Translit(u)
  {
    ReadOne(t);
    ReadOne(u);
    WordsBlank(t, u);
    KeyBlank(t, u);
  }

  lemma {:induction false} NoYears(s: string)
    requires forall c <- s :: !IsDigit(c)
    ensures FindYears(s) == {}
  {
    if s != "" {
      assert s[0] in s;
      assert |s| >= 4 ==> s[..2][0] == s[0];
      assert forall c <- s[1..] :: c in s;
      NoYears(s[1..]);
    }
  }

  lemma ReadDigits(d: string)
    requires Digits(d)
    ensures Numbers(d) == if IsYear(d) then {} else {d}
    ensures IsYear(d) ==> FindYears(d) == {d}
  {
    OneRun(d, IsDigit);
    if IsYear(d) { assert d[..4] == d && d[4..] == ""; }
  }

  lemma {:induction false} DigitsHaveNoAge(d: string)
    requires forall c <- d :: IsDigit(c)
    ensures StripAge(d) == d
  {
    if d != "" {
      assert RunLength(d, IsDigit) == |d| by { assert forall i | 0 <= i < |d| :: d[i] in d; }
      DigitsHaveNoAge(d[1..]);
    }
  }

  lemma NoAgeHere(s: string)
    requires s != "" && !IsDigit(s[0]) && StripAge(s[1..]) == s[1..]
    ensures StripAge(s) == s
  {
    assert s == [s[0]] + s[1..];
  }

  lemma {:induction false} NoAgeToStrip(s: string, d: string)
    requires (forall c <- s :: !IsDigit(c)) && forall c <- d :: IsDigit(c)
    ensures StripAge(s + d) == s + d
  {
    if s == "" {
      assert s + d == d;
      DigitsHaveNoAge(d);
    } else {
      assert s[0] in s && (s + d)[0] == s[0] && (s + d)[1..] == s[1..] + d;
      NoAgeToStrip(s[1..], d);
      NoAgeHere(s + d);
    }
  }

  /** Neither number nor year in a word; after a blank a number or a year is read. */
  lemma ReadNumbers(w: string, d: string)
    requires PlainWord(w) && Digits(d)
    ensures Numbers(w) == {} && FindYears(w) == {} && StripAge(w) == w && StripAge(w + " " + d) == w + " " + d
    ensures Numbers(w + " " + d) == if IsYear(d) then {} else {d}
    ensures IsYear(d) ==> FindYears(w + " " + d) == {d}
  {
    NoRun(w, IsDigit);
    NoYears(w);
    ReadDigits(d);
    NumbersBlank(w, d);
    YearsBlank(w, d);
    NoAgeToStrip(w + " ", d);
    NoAgeToStrip(w, "");
    assert w + "" == w;
  }

  /** One word against the same word and one more: the walk cannot matter. */
  lemma OneExtraWord(m: Matcher, a: string, b: string, w: string, x: string)
    requires Walks(m) && Words(a) == {w} && Words(b) == {w, x} && w != x && !StemEq(w, x)
    ensures Extra(m, a, b) == Some({x}) && Extra(m, b, a) == Some({x})
  {
    assert |{w, x}| == 2 && |{w}| == 1;
    var small, big := m.walk(a), m.walk(b);
    DistinctSize(small);
    DistinctSize(big);
    assert small == [w] by { assert small[0] in Elements(small); }
    assert w in Elements(big) && x in Elements(big);
    assert FirstFree(w, big, {}) == Some(w);
    assert small[1..] == [];
    assert Greedy(small, big, {}) == Some({w});
    assert Elements(big) - {w} == {x};
  }

  lemma StemEqSharesFirst(s: string, t: string)
    requires s != "" && t != "" && StemEq(s, t)
    ensures s[0] == t[0]
  {
    var k := if |s| <= |t| then |s| else |t|;
    assert k >= 6 ==> s[..k - 1][0] == s[0] && t[..k - 1][0] == t[0];
    assert s[..k][0] == s[0] && t[..k][0] == t[0];
  }

  lemma WordsAndDigitsDiffer(w: string, d: string)
    requires PlainWord(w) && Digits(d)
    ensures w != d && !StemEq(w, d)
  {
    assert Translit("") == "";
    assert w[0] in w && d[0] in d;
    if StemEq(w, d) { StemEqSharesFirst(w, d); }
  }

  // ----- age ratings -----

  lemma AgeAtOnce(d: string)
    requires Digits(d)
    ensures StripAge(d + "+") == ""
  {
    var s := d + "+";
    assert forall i | 0 <= i < |d| :: s[i] == d[i] && d[i] in d;
    assert s[|d|] == '+';
    assert RunLength(s, IsDigit) == |d|;
    assert s[|d|..] == "+" && RunLength("+", IsSpace) == 0;
    assert s[|d| + 1..] == "";
  }

  /** A rating at the end of a text without other digits goes. */
  lemma {:induction false} AgeIsStripped(s: string, d: string)
    requires (forall c <- s :: !IsDigit(c)) && Digits(d)
    ensures StripAge(s + (d + "+")) == s
  {
    if s == "" {
      assert s + (d + "+") == d + "+";
      AgeAtOnce(d);
    } else {
      assert s[0] in s;
      assert (s + (d + "+"))[1..] == s[1..] + (d + "+");
      AgeIsStripped(s[1..], d);
      KeepsFirst(s + (d + "+"), s[0], s[1..]);
    }
  }

  lemma KeepsFirst(t: string, c: char, rest: string)
    requires t != "" && t[0] == c && !IsDigit(c) && StripAge(t[1..]) == rest
    ensures StripAge(t) == [c] + rest
  {}

  lemma RatingIsOneToken(d: string, ok: char -> bool)
    requires d != "" && (forall c <- d :: ok(c)) && !ok('+')
    ensures Runs(d + "+", ok) == [d]
  {
    RunsToken(d, "+", ok);
    NoRun("+", ok);
  }

  lemma DigitStays(c: char)
    requires IsDigit(c) || c == '+'
    ensures LowerChar(c) == c && c != 'ё' && Latin(c) == [c]
  {}

  lemma {:induction false} FoldsDigits(d: string)
    requires forall c <- d :: IsDigit(c) || c == '+'
    ensures Fold(d) == d && Translit(d) == d
  {
    if d != "" {
      assert d[0] in d;
      FoldsDigits(d[1..]);
      DigitStays(d[0]);
      OneBeforeRest(d);
    }
  }

  lemma ReadRating(d: string)
    requires Digits(d)
    ensures Words(d + "+") == {d} && TranslitKey(d + "+") == d
  {
    FoldsDigits(d + "+");
    RatingIsOneToken(d, IsTokenChar);
    RatingIsOneToken(d, IsLatinTokenChar);
    assert Elements([d]) == {d};
    assert Join([d]) == d + Join([]);
  }

  /** A word with an age rating: the rating is a word of the title, but no number of it once ratings are stripped. */
  lemma ReadRated(w: string, d: string)
    requires PlainWord(w) && Digits(d)
    ensures var t := w + " " + (d + "+"); Words(t) == {w, d} && TranslitKey(t) == Translit(w) + d && Numbers(StripAge(t)) == {}
  {
    ReadOne(w);
    ReadRating(d);
    WordsBlank(w, d + "+");
    KeyBlank(w, d + "+");
    AgeIsStripped(w + " ", d);
    NoRun(w + " ", IsDigit);
    assert w + " " + (d + "+") == (w + " ") + (d + "+");
  }
}
