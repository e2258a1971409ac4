/** Where the promises of the title matcher end: the exact conditions, and titles that show each failure. */
module TitleLimits {
  import opened Collections
  import opened Ids
  import opened Text
  import opened TextLaws
  import opened UnionFind
  import opened TitleMatch
  import opened TitleReading
  import opened Tables
  import opened PairSearch

  // ----- numbers on a shared slot -----

  /** What makes the slot test overlook that two titles name different numbers: no clash of years, and an
      equal key, an anchored stem subset or a high ratio. */
  predicate NumbersOverlooked(m: Matcher, a: string, b: string) {
    && TranslitKey(a) != "" && TranslitKey(b) != ""
    && (FindYears(a) == {} || FindYears(b) == {} || FindYears(a) == FindYears(b))
    && (TranslitKey(a) == TranslitKey(b)
        || (Extra(m, a, b).Some? && Anchored(a, b))
        || m.ratio(Translit(a), Translit(b)) >= RATIO_FUZZY)
  }

  lemma SlotMatchOfDifferentNumbers(m: Matcher, a: string, b: string)
    requires Numbers(StripAge(a)) != Numbers(StripAge(b))
    ensures SlotMatch(m, a, b) <==> NumbersOverlooked(m, a, b)
  {}

  lemma SharedSlotDecides(m: Matcher, occs: map<nat, Occ>, title: map<EventId, string>, p: Pair<EventId>)
    requires p.0 in title && p.1 in title && p.0.n < p.1.n && ShareSlot(occs, p.0, p.1)
    ensures IsSafePair(m, occs, title, p) <==> SlotMatch(m, title[p.0], title[p.1])
  {
    TiersAreNested(m, title[p.0], title[p.1], true);
  }

  /** Two events that share a stage at an instant and whose titles name different numbers are kept apart
      exactly when nothing makes the test overlook it. */
  lemma SlotGuardFailsIff(m: Matcher, occs: map<nat, Occ>, title: map<EventId, string>, p: Pair<EventId>)
    requires p.0 in title && p.1 in title && p.0.n < p.1.n && ShareSlot(occs, p.0, p.1)
    requires Numbers(StripAge(title[p.0])) != Numbers(StripAge(title[p.1]))
    ensures IsSafePair(m, occs, title, p) <==> NumbersOverlooked(m, title[p.0], title[p.1])
  {
    SharedSlotDecides(m, occs, title, p);
    SlotMatchOfDifferentNumbers(m, title[p.0], title[p.1]);
  }

  /** A plain word and the same word with a number pass for one show exactly when the word can anchor a
      match, or the ratio says so; the guard of `same_slot_title` and the strict match refuse them. */
  lemma NumberedTitleMatchesIff(m: Matcher, w: string, d: string)
    requires Walks(m) && PlainWord(w) && Digits(d) && !IsYear(d)
    ensures SlotMatch(m, w, w + " " + d) <==>
      (|w| >= 4 && !IsGeneric(w)) || m.ratio(Translit(w), Translit(w + " " + d)) >= RATIO_FUZZY
    ensures !SameSlotTitle(m, w, w + " " + d) && !SameEvent(m, w, w + " " + d, FuzzyLevel)
  {
    var b := w + " " + d;
    ReadOne(w);
    ReadOne(d);
    ReadTwo(w, d);
    ReadNumbers(w, d);
    WordsAndDigitsDiffer(w, d);
    OneExtraWord(m, w, b, w, d);
    assert d in {d};
    OneWordAnchors(w, d, w, b);
    LongerKey(Translit(w), Translit(d));
    SlotMatchOfDifferentNumbers(m, w, b);
  }

  lemma OneWordAnchors(w: string, d: string, a: string, b: string)
    requires Words(a) == {w} && Words(b) == {w, d} && w != d
    ensures Anchored(a, b) <==> |w| >= 4 && !IsGeneric(w)
  {
    assert |{w}| == 1 && |{w, d}| == 2;
    assert w in {w};
  }

  /** On a shared slot an age rating is no number: "ёлка" and "ёлка 6+" pass the guard that refuses "ёлка" and "ёлка 6". */
  lemma RatedTitleMatches(m: Matcher, w: string, d: string)
    requires Walks(m) && PlainWord(w) && Digits(d)
    ensures SameSlotTitle(m, w, w + " " + (d + "+"))
    ensures !IsYear(d) ==> !SameSlotTitle(m, w, w + " " + d)
  {
    ReadOne(w);
    ReadRated(w, d);
    WordsAndDigitsDiffer(w, d);
    OneExtraWord(m, w, w + " " + (d + "+"), w, d);
    ReadNumbers(w, d);
    if !IsYear(d) { NumberedTitleMatchesIff(m, w, d); }
    NoAgeToStrip(w, "");
    assert w + "" == w;
  }

  lemma LongerKey(k: string, d: string)
    requires d != ""
    ensures k != k + d
  {
    assert |k + d| > |k|;
  }

  lemma DuneIsPlain()
    ensures PlainWord("дюна") && !IsGeneric("дюна")
  {
    assert Translit("дюна") == Latin('д') + Translit("юна");
  }

  /** "Дюна" and "Дюна 2" on one stage at one instant are a safe pair. */
  lemma DuneAndItsSequelAreSafe(m: Matcher, occs: map<nat, Occ>, title: map<EventId, string>, p: Pair<EventId>)
    requires Walks(m) && p.0 in title && p.1 in title && p.0.n < p.1.n && ShareSlot(occs, p.0, p.1)
    requires title[p.0] == "дюна" && title[p.1] == "дюна 2"
    ensures IsSafePair(m, occs, title, p)
    ensures !SameSlotTitle(m, title[p.0], title[p.1]) && !SameEvent(m, title[p.0], title[p.1], FuzzyLevel)
  {
    DuneIsPlain();
    assert "дюна" + " " + "2" == "дюна 2";
    NumberedTitleMatchesIff(m, "дюна", "2");
    SharedSlotDecides(m, occs, title, p);
  }

  // ----- years through chains -----

  /** The year guard survives every chain of matches but one: two titles of a cluster name the same years,
      unless some title of the cluster names none. */
  lemma YearsAgreeUnlessBare<T(!new)>(m: Matcher, title: T -> string, edges: set<Pair<T>>, x: T, y: T)
    requires forall e <- edges :: SameEvent(m, title(e.0), title(e.1), FuzzyLevel, false)
    requires Connected(edges, x, y)
    ensures FindYears(title(x)) == FindYears(title(y)) || exists z :: Connected(edges, x, z) && FindYears(title(z)) == {}
  {
    if forall z :: Connected(edges, x, z) ==> FindYears(title(z)) != {} {
      var f := (z: T) => if Connected(edges, x, z) then FindYears(title(z)) else {};
      forall e | e in edges ensures f(e.0) == f(e.1) {
        EdgeConnects(edges, e);
        if Connected(edges, x, e.0) { ConnectedTransitive(edges, x, e.0, e.1); }
        if Connected(edges, x, e.1) { ConnectedTransitive(edges, x, e.1, e.0); }
      }
      ConnectedInvariant(edges, f, x, y);
    }
  }

  /** A title that matches two titles of different years. */
  ghost predicate Bridges(m: Matcher, t: string) {
    exists a, b :: SameEvent(m, t, a, AutoLevel) && SameEvent(m, t, b, AutoLevel)
      && FindYears(a) != {} && FindYears(b) != {} && FindYears(a) != FindYears(b)
  }

  lemma OnlyBareTitlesBridge(m: Matcher, t: string)
    ensures Bridges(m, t) ==> FindYears(t) == {}
  {}

  lemma EditionMatchesBareTitle(m: Matcher, w: string, y: string)
    requires Walks(m) && PlainWord(w) && |w| >= 4 && !IsGeneric(w) && Digits(y) && IsYear(y)
    ensures SameEvent(m, w, w + " " + y, AutoLevel) && FindYears(w + " " + y) == {y} && FindYears(w) == {}
  {
    ReadNumbers(w, y);
    EditionReadsLike(m, w, y, w + " " + y);
    YearIsFiller(y);
  }

  lemma EditionReadsLike(m: Matcher, w: string, y: string, b: string)
    requires Walks(m) && PlainWord(w) && |w| >= 4 && !IsGeneric(w) && Digits(y) && b == w + " " + y
    ensures TranslitKey(w) != "" && TranslitKey(b) != "" && Anchored(w, b) && Extra(m, w, b) == Some({y})
  {
    ReadOne(w);
    ReadOne(y);
    ReadTwo(w, y);
    WordsAndDigitsDiffer(w, y);
    OneExtraWord(m, w, b, w, y);
    OneWordAnchors(w, y, w, b);
  }

  lemma YearIsFiller(y: string)
    requires IsYear(y)
    ensures ExtraIsFiller({y})
  {}

  // ----- one more word -----

  lemma TwoWordsHaveNoDigits(w: string, x: string)
    requires PlainWord(w) && PlainWord(x)
    ensures forall t | t == w || t == w + " " + x :: Numbers(t) == {} && FindYears(t) == {}
  {
    NoRun(w, IsDigit);
    NoYears(w);
    NoRun(w + " " + x, IsDigit);
    NoYears(w + " " + x);
  }

  lemma OneMoreWordReads(m: Matcher, w: string, x: string, b: string)
    requires Walks(m) && PlainWord(w) && PlainWord(x) && w != x && !StemEq(w, x) && b == w + " " + x
    ensures TranslitKey(w) != "" && TranslitKey(b) != "" && TranslitKey(w) != TranslitKey(b)
    ensures (Anchored(w, b) <==> |w| >= 4 && !IsGeneric(w)) && Extra(m, w, b) == Some({x})
  {
    ReadOne(w);
    ReadOne(x);
    ReadTwo(w, x);
    OneExtraWord(m, w, b, w, x);
    OneWordAnchors(w, x, w, b);
    LongerKey(Translit(w), Translit(x));
  }

  lemma OneIsFiller(x: string)
    requires !IsYear(x)
    ensures ExtraIsFiller({x}) <==> IsFiller(x) || |x| <= 2
  {
    assert x in {x};
  }

  lemma PlainIsNoYear(x: string)
    requires PlainWord(x)
    ensures !IsYear(x)
  {
    if |x| == 4 { assert x[2] in x; }
  }

  lemma ByWordsOrRatio(m: Matcher, a: string, b: string, level: Level)
    requires TranslitKey(a) != "" && TranslitKey(b) != "" && TranslitKey(a) != TranslitKey(b) && !level.SafeLevel?
    requires FindYears(a) == {} && Numbers(a) == {} && Numbers(b) == {}
    ensures SameEvent(m, a, b, level) <==>
      (Extra(m, a, b).Some? && Anchored(a, b) && (level.FuzzyLevel? || ExtraIsFiller(Extra(m, a, b).value)))
      || m.ratio(Translit(a), Translit(b)) >= if level.AutoLevel? then 92.0 else 85.0
  {}

  /** One more word on a title that can anchor a match: to be reviewed in any case, and merged unattended exactly if the
      word only says how the event is presented, or the ratio says so. */
  lemma OneMoreWordDecides(m: Matcher, w: string, x: string, b: string)
    requires Walks(m) && PlainWord(w) && PlainWord(x) && !StemEq(w, x) && |w| >= 4 && !IsGeneric(w) && b == w + " " + x
    ensures SameEvent(m, w, b, FuzzyLevel)
    ensures SameEvent(m, w, b, AutoLevel) <==> IsFiller(x) || |x| <= 2 || m.ratio(Translit(w), Translit(b)) >= 92.0
  {
    TwoWordsHaveNoDigits(w, x);
    OneMoreWordReads(m, w, x, b);
    PlainIsNoYear(x);
    OneIsFiller(x);
    ByWordsOrRatio(m, w, b, FuzzyLevel);
    ByWordsOrRatio(m, w, b, AutoLevel);
  }

  /** A title without a year is the same event as each of its editions; two editions are not one event. */
  lemma YearGuardIsNotTransitive(m: Matcher, w: string, y: string, y': string)
    requires Walks(m) && PlainWord(w) && |w| >= 4 && !IsGeneric(w) && Digits(y) && Digits(y')
    requires IsYear(y) && IsYear(y') && y != y'
    ensures SameEvent(m, w, w + " " + y, AutoLevel) && SameEvent(m, w, w + " " + y', AutoLevel)
    ensures !SameEvent(m, w + " " + y, w + " " + y', FuzzyLevel, false)
    ensures FindYears(w + " " + y) == {y} && FindYears(w + " " + y') == {y'}
  {
    EditionMatchesBareTitle(m, w, y);
    EditionMatchesBareTitle(m, w, y');
    assert y in {y} && y !in {y'};
  }

  lemma TwoYears()
    ensures Digits("2025") && Digits("2026") && IsYear("2025") && IsYear("2026") && "2025" != "2026"
  {
    assert "2025"[..2] == "20" && "2026"[..2] == "20";
    assert "2025"[3] != "2026"[3];
  }

  lemma TwoEditionsMakeABridge(m: Matcher, t: string, a: string, b: string, y: string, y': string)
    requires SameEvent(m, t, a, AutoLevel) && SameEvent(m, t, b, AutoLevel) && FindYears(a) == {y} && FindYears(b) == {y'} && y != y'
    ensures Bridges(m, t)
  {
    assert y in {y} && y !in {y'};
  }

  /** Among a plain title and its editions exactly the one without a year bridges years. */
  lemma TitleBridgesIff(m: Matcher, w: string, t: string)
    requires Walks(m) && PlainWord(w) && |w| >= 4 && !IsGeneric(w)
    requires t == w || exists y :: Digits(y) && IsYear(y) && t == w + " " + y
    ensures Bridges(m, t) <==> FindYears(t) == {}
  {
    OnlyBareTitlesBridge(m, t);
    if t == w {
      TwoYears();
      var y, y' := "2025", "2026";
      YearGuardIsNotTransitive(m, w, y, y');
      TwoEditionsMakeABridge(m, w, w + " " + y, w + " " + y', y, y');
    } else {
      var y :| Digits(y) && IsYear(y) && t == w + " " + y;
      EditionMatchesBareTitle(m, w, y);
    }
  }

  lemma SummerIsPlain()
    ensures PlainWord("лето") && !IsGeneric("лето")
  {
    assert Translit("лето") == Latin('л') + Translit("ето");
  }

  lemma EditionsOf(m: Matcher, w: string, y: string, y': string, b: string, c: string)
    requires Walks(m) && PlainWord(w) && |w| >= 4 && !IsGeneric(w) && Digits(y) && Digits(y')
    requires IsYear(y) && IsYear(y') && y != y' && b == w + " " + y && c == w + " " + y'
    ensures SameEvent(m, w, b, AutoLevel) && SameEvent(m, w, c, AutoLevel) && !SameEvent(m, b, c, FuzzyLevel, false)
  {
    YearGuardIsNotTransitive(m, w, y, y');
  }

  lemma SummerTitles()
    ensures "лето 2025" == "лето" + " " + "2025" && "лето 2026" == "лето" + " " + "2026"
  {}

  /** "Лето" joins "Лето 2025" to "Лето 2026". */
  lemma SummerBridges(m: Matcher)
    requires Walks(m)
    ensures SameEvent(m, "лето", "лето 2025", AutoLevel) && SameEvent(m, "лето", "лето 2026", AutoLevel)
    ensures !SameEvent(m, "лето 2025", "лето 2026", FuzzyLevel, false)
  {
    SummerIsPlain();
    TwoYears();
    SummerTitles();
    EditionsOf(m, "лето", "2025", "2026", "лето 2025", "лето 2026");
  }

  // ----- word order at the safe level -----

  /** The safe level joins the keys of the pieces in order: a title and a rearrangement of it, whatever its
      pieces, are one event exactly when the joined keys agree and are not empty. */
  lemma SafeSeesWordOrder(m: Matcher, p: seq<string>, q: seq<string>)
    requires multiset(p) == multiset(q)
    ensures Words(Spaced(p)) == Words(Spaced(q))
    ensures SameEvent(m, Spaced(p), Spaced(q), SafeLevel) <==> Join(Keys(p)) != "" && Join(Keys(p)) == Join(Keys(q))
  {
    SpacedReads(p);
    SpacedReads(q);
    UnionIgnoresOrder(p, q, Words);
    UnionIgnoresOrder(p, q, Numbers);
    UnionIgnoresOrder(p, q, FindYears);
  }

  lemma RoseAndWorldArePlain()
    ensures PlainWord("роза") && PlainWord("мира")
    ensures Translit("роза")[0] == 'r' && Translit("мира")[0] == 'm'
  {
    assert Translit("роза") == Latin('р') + Translit("оза");
    assert Translit("мира") == Latin('м') + Translit("ира");
  }

  lemma FirstLettersTell(m: Matcher, u: string, v: string, a: string, b: string)
    requires PlainWord(u) && PlainWord(v) && Translit(u)[0] != Translit(v)[0] && a == u + " " + v && b == v + " " + u
    ensures Words(a) == Words(b) && !SameEvent(m, a, b, SafeLevel)
  {
    ReadTwo(u, v);
    ReadTwo(v, u);
    assert (Translit(u) + Translit(v))[0] == Translit(u)[0] && (Translit(v) + Translit(u))[0] == Translit(v)[0];
  }

  lemma RoseTitles()
    ensures "роза мира" == "роза" + " " + "мира" && "мира роза" == "мира" + " " + "роза"
  {}

  /** "Роза мира" and "Мира роза" have the same words and are not one event at the safe level. */
  lemma RoseOfTheWorldIsNotWorldOfTheRose(m: Matcher)
    ensures Words("роза мира") == Words("мира роза") && !SameEvent(m, "роза мира", "мира роза", SafeLevel)
  {
    RoseAndWorldArePlain();
    RoseTitles();
    FirstLettersTell(m, "роза", "мира", "роза мира", "мира роза");
  }
}
