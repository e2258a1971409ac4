/** The walk of the word sets, which differs from process to process: exactly which titles it can decide, at
  each level, and titles for which it does. */
module WalkLimits {
  import opened Collections
  import opened Text
  import opened TextLaws
  import opened TitleMatch
  import opened TitleReading
  import opened GreedyMatching
  import opened PairSearch

  // ----- what a walk can make of two titles -----

  function Rewalked(m: Matcher, s: string, p: seq<string>, t: string, q: seq<string>): Matcher {
    m.(walk := x => if x == s then p else if x == t then q else m.walk(x))
  }

  lemma RewalkedWalks(m: Matcher, s: string, p: seq<string>, t: string, q: seq<string>)
    requires Walks(m) && Lists(p, Words(s)) && Lists(q, Words(t)) && s != t
    ensures var m' := Rewalked(m, s, p, t, q); Rewalks(m, m') && m'.walk(s) == p && m'.walk(t) == q
  {}

  ghost predicate CanGive(m: Matcher, a: string, b: string, extra: Option<set<string>>) {
    exists m' :: Rewalks(m, m') && Extra(m', a, b) == extra
  }

  lemma WalksGive(m: Matcher, a: string, b: string, p: seq<string>, q: seq<string>)
    requires Walks(m) && a != b && Words(Fewer(a, b)) != {} && Lists(p, Words(Fewer(a, b))) && Lists(q, Words(More(a, b)))
    ensures CanGive(m, a, b, SubsetExtra(p, q))
  {
    var m' := Rewalked(m, Fewer(a, b), p, More(a, b), q);
    RewalkedWalks(m, Fewer(a, b), p, More(a, b), q);
    assert Extra(m', a, b) == SubsetExtra(p, q);
  }

  /** `_subset_extra` on two different titles can come out as None exactly when a word can be starved, and with
      exactly the leftovers of some matching. */
  lemma ExtraCanBeIff(m: Matcher, a: string, b: string, extra: set<string>)
    requires Walks(m) && a != b && Words(Fewer(a, b)) != {}
    ensures CanGive(m, a, b, None) <==> Starvable(Words(Fewer(a, b)), Words(More(a, b)))
    ensures CanGive(m, a, b, Some(extra)) <==> Leaves(Words(Fewer(a, b)), Words(More(a, b)), extra)
  {
    var small, big := Words(Fewer(a, b)), Words(More(a, b));
    WalkDecidesIff(small, big);
    WalkLeavesIff(small, big, extra);
    if SomeWalkMisses(small, big) {
      var p, q :| Lists(p, small) && Lists(q, big) && SubsetExtra(p, q).None?;
      WalksGive(m, a, b, p, q);
    }
    if SomeWalkLeaves(small, big, extra) {
      var p, q :| Lists(p, small) && Lists(q, big) && SubsetExtra(p, q) == Some(extra);
      WalksGive(m, a, b, p, q);
    }
    forall m' | Rewalks(m, m') ensures Lists(m'.walk(Fewer(a, b)), small) && Lists(m'.walk(More(a, b)), big) {}
  }

  // ----- the levels -----

  function Bar(level: Level): real { if level.AutoLevel? then RATIO_AUTO else RATIO_FUZZY }

  /** The two titles are compared by their words alone: every other branch of the match is passed by. */
  ghost predicate WordsDecide(m: Matcher, a: string, b: string, level: Level) {
    && !level.SafeLevel?
    && TranslitKey(a) != "" && TranslitKey(b) != "" && TranslitKey(a) != TranslitKey(b)
    && (FindYears(a) == {} || FindYears(b) == {} || FindYears(a) == FindYears(b)) && Numbers(a) == Numbers(b)
    && Anchored(a, b) && m.ratio(Translit(a), Translit(b)) < Bar(level)
  }

  /** The leftovers a level lets pass. */
  predicate Passes(extra: set<string>, level: Level) { level.FuzzyLevel? || ExtraIsFiller(extra) }

  lemma WordsDecideMatch(m: Matcher, a: string, b: string, level: Level)
    requires WordsDecide(m, a, b, level)
    ensures a != b && Words(Fewer(a, b)) != {}
    ensures SameEvent(m, a, b, level) <==> Extra(m, a, b).Some? && Passes(Extra(m, a, b).value, level)
  {}

  ghost predicate CanAnswer(m: Matcher, a: string, b: string, level: Level, yes: bool) {
    exists m' :: Rewalks(m, m') && SameEvent(m', a, b, level) == yes
  }

  /** Some matching leaves words the level lets pass, or words it does not. */
  ghost predicate LeavesPassing(small: set<string>, big: set<string>, level: Level, yes: bool) {
    exists f: map<string, string> :: Covers(f, small, big) && Passes(big - f.Values, level) == yes
  }

  lemma LeavesPassingIsLeaves(small: set<string>, big: set<string>, level: Level, yes: bool)
    ensures LeavesPassing(small, big, level, yes) <==> exists extra :: Leaves(small, big, extra) && Passes(extra, level) == yes
  {
    if LeavesPassing(small, big, level, yes) {
      var f: map<string, string> :| Covers(f, small, big) && Passes(big - f.Values, level) == yes;
      assert Leaves(small, big, big - f.Values);
    }
  }

  /** What every other process makes of two titles, by what it leaves over. */
  lemma RewalkedMatch(m: Matcher, m': Matcher, a: string, b: string, level: Level)
    requires WordsDecide(m, a, b, level) && Rewalks(m, m')
    ensures SameEvent(m', a, b, level) <==> Extra(m', a, b).Some? && Passes(Extra(m', a, b).value, level)
  {
    WordsDecideMatch(m', a, b, level);
  }

  lemma AnswerYes(m: Matcher, a: string, b: string, level: Level)
    requires Walks(m) && WordsDecide(m, a, b, level)
    ensures CanAnswer(m, a, b, level, true) <==> LeavesPassing(Words(Fewer(a, b)), Words(More(a, b)), level, true)
  {
    var small, big := Words(Fewer(a, b)), Words(More(a, b));
    WordsDecideMatch(m, a, b, level);
    LeavesPassingIsLeaves(small, big, level, true);
    if CanAnswer(m, a, b, level, true) {
      var m' :| Rewalks(m, m') && SameEvent(m', a, b, level);
      RewalkedMatch(m, m', a, b, level);
      ExtraCanBeIff(m, a, b, Extra(m', a, b).value);
    }
    if LeavesPassing(small, big, level, true) {
      var extra :| Leaves(small, big, extra) && Passes(extra, level);
      ExtraCanBeIff(m, a, b, extra);
      GivenCanAnswer(m, a, b, level, Some(extra));
    }
  }

  lemma NoMeans(m: Matcher, m': Matcher, a: string, b: string, level: Level)
    requires Walks(m) && WordsDecide(m, a, b, level) && Rewalks(m, m') && !SameEvent(m', a, b, level)
    ensures Starvable(Words(Fewer(a, b)), Words(More(a, b))) || LeavesPassing(Words(Fewer(a, b)), Words(More(a, b)), level, false)
  {
    WordsDecideMatch(m, a, b, level);
    RewalkedMatch(m, m', a, b, level);
    ExtraCanBeIff(m, a, b, if Extra(m', a, b).Some? then Extra(m', a, b).value else {});
    LeavesPassingIsLeaves(Words(Fewer(a, b)), Words(More(a, b)), level, false);
  }

  lemma GivenCanAnswer(m: Matcher, a: string, b: string, level: Level, extra: Option<set<string>>)
    requires WordsDecide(m, a, b, level) && CanGive(m, a, b, extra)
    ensures CanAnswer(m, a, b, level, extra.Some? && Passes(extra.value, level))
  {
    var m' :| Rewalks(m, m') && Extra(m', a, b) == extra;
    RewalkedMatch(m, m', a, b, level);
  }

  lemma AnswerNo(m: Matcher, a: string, b: string, level: Level)
    requires Walks(m) && WordsDecide(m, a, b, level)
    ensures CanAnswer(m, a, b, level, false) <==>
      Starvable(Words(Fewer(a, b)), Words(More(a, b))) || LeavesPassing(Words(Fewer(a, b)), Words(More(a, b)), level, false)
  {
    var small, big := Words(Fewer(a, b)), Words(More(a, b));
    WordsDecideMatch(m, a, b, level);
    if CanAnswer(m, a, b, level, false) {
      var m' :| Rewalks(m, m') && !SameEvent(m', a, b, level);
      NoMeans(m, m', a, b, level);
    }
    if Starvable(small, big) {
      ExtraCanBeIff(m, a, b, {});
      GivenCanAnswer(m, a, b, level, None);
    }
    if LeavesPassing(small, big, level, false) {
      LeavesPassingIsLeaves(small, big, level, false);
      var extra :| Leaves(small, big, extra) && !Passes(extra, level);
      ExtraCanBeIff(m, a, b, extra);
      GivenCanAnswer(m, a, b, level, Some(extra));
    }
  }

  /** Where the words decide, some walk says yes exactly when some matching leaves words that pass, and some walk
      says no exactly when a word can be starved or some matching leaves words that do not pass. */
  lemma AnswerDependsOnWalkIff(m: Matcher, a: string, b: string, level: Level)
    requires Walks(m) && WordsDecide(m, a, b, level)
    ensures CanAnswer(m, a, b, level, true) <==> LeavesPassing(Words(Fewer(a, b)), Words(More(a, b)), level, true)
    ensures CanAnswer(m, a, b, level, false) <==>
      Starvable(Words(Fewer(a, b)), Words(More(a, b))) || LeavesPassing(Words(Fewer(a, b)), Words(More(a, b)), level, false)
  {
    AnswerYes(m, a, b, level);
    AnswerNo(m, a, b, level);
  }

  /** At the fuzzy level whatever is left over passes; at the auto level only filler does. */
  lemma WhatPasses(small: set<string>, big: set<string>)
    ensures LeavesPassing(small, big, FuzzyLevel, true) <==> Matchable(small, big)
    ensures !LeavesPassing(small, big, FuzzyLevel, false)
    ensures LeavesPassing(small, big, AutoLevel, true) <==> exists f :: Covers(f, small, big) && ExtraIsFiller(big - f.Values)
    ensures LeavesPassing(small, big, AutoLevel, false) <==> exists f :: Covers(f, small, big) && !ExtraIsFiller(big - f.Values)
  {
    forall f | Covers(f, small, big) ensures Passes(big - f.Values, FuzzyLevel) {}
    forall f: map<string, string> ensures Passes(big - f.Values, AutoLevel) == ExtraIsFiller(big - f.Values) {}
  }

  // ----- the slot test -----

  /** The two titles share a slot and only their words can tell. */
  ghost predicate SlotWordsDecide(m: Matcher, a: string, b: string) {
    && TranslitKey(a) != "" && TranslitKey(b) != "" && TranslitKey(a) != TranslitKey(b)
    && Numbers(StripAge(a)) == Numbers(StripAge(b)) && Words(a) != {} && Words(b) != {}
    && m.ratio(Translit(a), Translit(b)) < RATIO_FUZZY
  }

  lemma SlotMatchIsExtra(m: Matcher, a: string, b: string)
    requires SlotWordsDecide(m, a, b)
    ensures a != b && Words(Fewer(a, b)) != {} && (SlotMatch(m, a, b) <==> Extra(m, a, b).Some?)
  {}

  ghost predicate CanSlotMatch(m: Matcher, a: string, b: string, yes: bool) {
    exists m' :: Rewalks(m, m') && SlotMatch(m', a, b) == yes
  }

  lemma RewalkedSlot(m: Matcher, m': Matcher, a: string, b: string)
    requires SlotWordsDecide(m, a, b) && Rewalks(m, m')
    ensures SlotMatch(m', a, b) <==> Extra(m', a, b).Some?
  {
    SlotMatchIsExtra(m', a, b);
  }

  lemma SlotYes(m: Matcher, a: string, b: string)
    requires Walks(m) && SlotWordsDecide(m, a, b)
    ensures CanSlotMatch(m, a, b, true) <==> Matchable(Words(Fewer(a, b)), Words(More(a, b)))
  {
    SlotMatchIsExtra(m, a, b);
    if CanSlotMatch(m, a, b, true) {
      var m' :| Rewalks(m, m') && SlotMatch(m', a, b);
      RewalkedSlot(m, m', a, b);
      ExtraCanBeIff(m, a, b, Extra(m', a, b).value);
    }
    if Matchable(Words(Fewer(a, b)), Words(More(a, b))) {
      var f: map<string, string> :| Covers(f, Words(Fewer(a, b)), Words(More(a, b)));
      var extra := Words(More(a, b)) - f.Values;
      assert Leaves(Words(Fewer(a, b)), Words(More(a, b)), extra);
      ExtraCanBeIff(m, a, b, extra);
      var m' :| Rewalks(m, m') && Extra(m', a, b) == Some(extra);
      RewalkedSlot(m, m', a, b);
    }
  }

  lemma SlotNo(m: Matcher, a: string, b: string)
    requires Walks(m) && SlotWordsDecide(m, a, b)
    ensures CanSlotMatch(m, a, b, false) <==> Starvable(Words(Fewer(a, b)), Words(More(a, b)))
  {
    SlotMatchIsExtra(m, a, b);
    ExtraCanBeIff(m, a, b, {});
    if CanSlotMatch(m, a, b, false) {
      var m' :| Rewalks(m, m') && !SlotMatch(m', a, b);
      RewalkedSlot(m, m', a, b);
    }
    if Starvable(Words(Fewer(a, b)), Words(More(a, b))) {
      var m' :| Rewalks(m, m') && Extra(m', a, b) == None;
      RewalkedSlot(m, m', a, b);
    }
  }

  /** On a shared slot the words can match exactly when there is a matching, whatever it leaves over and with or
      without an anchor, and can fail to exactly when a word can be starved. */
  lemma SlotDependsOnWalkIff(m: Matcher, a: string, b: string)
    requires Walks(m) && SlotWordsDecide(m, a, b)
    ensures CanSlotMatch(m, a, b, true) <==> Matchable(Words(Fewer(a, b)), Words(More(a, b)))
    ensures CanSlotMatch(m, a, b, false) <==> Starvable(Words(Fewer(a, b)), Words(More(a, b)))
  {
    SlotYes(m, a, b);
    SlotNo(m, a, b);
  }

  // The words of "март мартам" and of "марта марте".

  lemma MarchStems()
    ensures StemEq("март", "марта") && StemEq("март", "марте") && StemEq("мартам", "марта") && !StemEq("мартам", "марте")
    ensures "марта" != "марте" && "март" != "мартам"
  {
    assert "марта"[..4] == "март" && "марте"[..4] == "март" && "мартам"[..5] == "марта";
    assert "мартам"[4] != "марте"[4];
    assert "марта"[4] != "марте"[4];
  }

  lemma TwoPairsOfWords(a: string, b: string, s: string, t: string, u: string, v: string)
    requires Words(a) == {s, t} && Words(b) == {u, v} && s != t && u != v
    ensures Fewer(a, b) == a && More(a, b) == b
  {
    assert |{s, t}| == 2 && |{u, v}| == 2;
  }

  lemma TwoWordsRead(s: string, t: string, a: string)
    requires PlainWord(s) && PlainWord(t) && a == s + " " + t
    ensures Words(a) == {s, t} && TranslitKey(a) == Translit(s) + Translit(t) && TranslitKey(a) != ""
    ensures Numbers(a) == {} && FindYears(a) == {} && Numbers(StripAge(a)) == {}
  {
    ReadOne(s);
    ReadTwo(s, t);
    LettersOnly(a);
  }

  lemma TwoWordTitles(m: Matcher, s: string, t: string, u: string, v: string, a: string, b: string, level: Level)
    requires PlainWord(s) && PlainWord(t) && PlainWord(u) && PlainWord(v) && a == s + " " + t && b == u + " " + v
    requires s != t && u != v && Translit(s) + Translit(t) != Translit(u) + Translit(v) && |s| >= 4 && !IsGeneric(s)
    requires !level.SafeLevel? && m.ratio(Translit(a), Translit(b)) < Bar(level)
    ensures WordsDecide(m, a, b, level) && Words(a) == {s, t} && Words(b) == {u, v} && Fewer(a, b) == a && More(a, b) == b
    ensures level.FuzzyLevel? ==> SlotWordsDecide(m, a, b)
  {
    TwoWordsRead(s, t, a);
    TwoWordsRead(u, v, b);
    TwoPairsOfWords(a, b, s, t, u, v);
    assert s in Words(a);
  }

  lemma LettersOnly(a: string)
    requires forall c <- a :: !IsDigit(c)
    ensures Numbers(a) == {} && FindYears(a) == {} && Numbers(StripAge(a)) == {}
  {
    NoRun(a, IsDigit);
    NoYears(a);
    NoAgeToStrip(a, "");
    assert a + "" == a;
  }

  lemma MarchInLatin()
    ensures Translit("март") == "mart"
  {
    assert Translit("март") == Latin('м') + Translit("арт");
    assert Translit("арт") == Latin('а') + Translit("рт");
    assert Translit("рт") == Latin('р') + Translit("т");
    assert Translit("т") == Latin('т') + Translit("");
  }

  lemma Longer(w: string, ending: string, whole: string)
    requires PlainWord(w) && Translit(w) == "mart" && (forall c <- ending :: 'а' <= c <= 'я') && whole == w + ending
    requires ending != "" && Latin(LowerChar(ending[0])) == "a"
    ensures PlainWord(whole) && |Translit(whole)| >= 5 && Translit(whole)[0] == 'm' && Translit(whole)[4] == 'a'
  {
    TranslitConcat(w, ending);
    var rest := ending[1..];
    assert Translit(ending) == "a" + Translit(rest);
    assert ("mart" + ("a" + Translit(rest)))[4] == 'a';
  }

  lemma MarchRoot()
    ensures PlainWord("март") && !IsGeneric("март")
  {
    MarchInLatin();
  }

  lemma StillPlain(w: string, ending: string, whole: string)
    requires PlainWord(w) && (forall c <- ending :: 'а' <= c <= 'я') && whole == w + ending
    ensures PlainWord(whole)
  {
    TranslitConcat(w, ending);
  }

  lemma MarchPlural()
    ensures PlainWord("мартам") && |Translit("мартам")| >= 5 && Translit("мартам")[0] == 'm'
  {
    MarchRoot();
    MarchInLatin();
    assert "мартам" == "март" + "ам";
    Longer("март", "ам", "мартам");
  }

  lemma MarchGenitive()
    ensures PlainWord("марта") && |Translit("марта")| >= 5 && Translit("марта")[4] == 'a'
  {
    MarchRoot();
    MarchInLatin();
    assert "марта" == "март" + "а";
    Longer("март", "а", "марта");
  }

  lemma MarchLocative()
    ensures PlainWord("марте")
  {
    MarchRoot();
    assert "марте" == "март" + "е";
    StillPlain("март", "е", "марте");
  }

  lemma MarchKeysDiffer()
    ensures Translit("март") + Translit("мартам") != Translit("марта") + Translit("марте")
  {
    MarchInLatin();
    MarchPlural();
    MarchGenitive();
    assert (Translit("март") + Translit("мартам"))[4] == 'm' && (Translit("марта") + Translit("марте"))[4] == 'a';
  }

  lemma MarchTitles()
    ensures "март мартам" == "март" + " " + "мартам" && "марта марте" == "марта" + " " + "марте"
  {}

  lemma MarchIsStarvable(m: Matcher, level: Level)
    requires !level.SafeLevel? && m.ratio(Translit("март мартам"), Translit("марта марте")) < Bar(level)
    ensures WordsDecide(m, "март мартам", "марта марте", level)
    ensures level.FuzzyLevel? ==> SlotWordsDecide(m, "март мартам", "марта марте")
    ensures Matchable(Words(Fewer("март мартам", "марта марте")), Words(More("март мартам", "марта марте")))
    ensures Starvable(Words(Fewer("март мартам", "марта марте")), Words(More("март мартам", "марта марте")))
  {
    MarchRoot();
    MarchPlural();
    MarchGenitive();
    MarchLocative();
    MarchKeysDiffer();
    MarchTitles();
    MarchStems();
    TwoWordTitles(m, "март", "мартам", "марта", "марте", "март мартам", "марта марте", level);
    CrossMatches({"март", "мартам"}, {"марта", "марте"}, "март", "мартам", "марта", "марте");
    SecondStarves({"март", "мартам"}, {"марта", "марте"}, "март", "мартам", "марта", "марте");
  }

  /** The same two titles are one event under one walk and two under another. */
  lemma MarchDependsOnTheWalk(m: Matcher)
    requires Walks(m) && m.ratio(Translit("март мартам"), Translit("марта марте")) < RATIO_FUZZY
    ensures CanAnswer(m, "март мартам", "марта марте", FuzzyLevel, true) && CanAnswer(m, "март мартам", "марта марте", FuzzyLevel, false)
  {
    MarchIsStarvable(m, FuzzyLevel);
    WhatPasses(Words(Fewer("март мартам", "марта марте")), Words(More("март мартам", "марта марте")));
    AnswerDependsOnWalkIff(m, "март мартам", "марта марте", FuzzyLevel);
  }

  lemma MarchOnASlot(m: Matcher) returns (a: string, b: string)
    requires Walks(m) && m.ratio(Translit("март мартам"), Translit("марта марте")) < RATIO_FUZZY
    ensures a == "март мартам" && b == "марта марте" && SlotWordsDecide(m, a, b)
    ensures Matchable(Words(Fewer(a, b)), Words(More(a, b))) && Starvable(Words(Fewer(a, b)), Words(More(a, b)))
  {
    a, b := "март мартам", "марта марте";
    MarchIsStarvable(m, FuzzyLevel);
  }

  // The words of "света концерт" and of "света концерт концерта": a match either way, with other leftovers.

  lemma EchoReads(s: string, t: string, u: string, a: string, b: string)
    requires PlainWord(s) && PlainWord(t) && PlainWord(u) && a == s + " " + t && b == a + " " + u
    ensures Words(a) == {s, t} && Words(b) == {s, t, u}
    ensures TranslitKey(a) != "" && TranslitKey(b) != "" && TranslitKey(a) != TranslitKey(b)
  {
    ReadOne(s);
    ReadTwo(s, t);
    ReadOne(u);
    WordsBlank(a, u);
    KeyBlank(a, u);
    assert {s, t} + {u} == {s, t, u};
    assert |TranslitKey(b)| > |TranslitKey(a)| > 0;
  }

  lemma TwoOfThree(a: string, b: string, s: string, t: string, u: string)
    requires Words(a) == {s, t} && Words(b) == {s, t, u} && s != t && s != u && t != u
    ensures Fewer(a, b) == a && More(a, b) == b
  {
    assert |{s, t}| == 2 && |{s, t, u}| == 3;
  }

  lemma EchoTitles(m: Matcher, s: string, t: string, u: string, a: string, b: string)
    requires PlainWord(s) && PlainWord(t) && PlainWord(u) && a == s + " " + t && b == a + " " + u
    requires s != t && s != u && t != u && |s| >= 4 && !IsGeneric(s) && m.ratio(Translit(a), Translit(b)) < RATIO_AUTO
    ensures WordsDecide(m, a, b, AutoLevel) && Words(a) == {s, t} && Words(b) == {s, t, u} && Fewer(a, b) == a && More(a, b) == b
  {
    EchoReads(s, t, u, a, b);
    TwoOfThree(a, b, s, t, u);
    LettersOnly(a);
    LettersOnly(b);
    assert s in Words(a);
  }

  lemma LightIsPlain()
    ensures PlainWord("света") && !IsGeneric("света")
  {
    assert Translit("света") == Latin('с') + Translit("вета");
  }

  lemma ConcertIsPlain()
    ensures PlainWord("концерт") && IsFiller("концерт")
  {
    assert Translit("концерт") == Latin('к') + Translit("онцерт");
  }

  lemma OfTheConcertIsPlain()
    ensures PlainWord("концерта")
  {
    assert Translit("концерта") == Latin('к') + Translit("онцерта");
  }

  lemma OfTheConcertIsNoFiller()
    ensures !IsFiller("концерта") && !IsYear("концерта")
  {
    assert |"концерта"| == 8;
  }

  lemma EchoStems()
    ensures StemEq("концерт", "концерта") && !StemEq("света", "концерт") && !StemEq("света", "концерта")
  {
    assert "концерта"[..7] == "концерт";
    assert "концерт"[..5][0] != "света"[0] && "концерта"[..5][0] != "света"[0];
  }

  lemma OneFiller(t: string, u: string)
    requires IsFiller(t) && !IsFiller(u) && |u| > 2 && !IsYear(u)
    ensures Passes({t}, AutoLevel) && !Passes({u}, AutoLevel)
  {
    assert u in {u};
  }

  lemma EchoSpelling()
    ensures "света концерт" == "света" + " " + "концерт" && "света концерт концерта" == "света концерт" + " " + "концерта"
  {}

  /** At the level that merges unattended the walk decides too, though every walk finds a match. */
  lemma EchoDependsOnTheWalk(m: Matcher)
    requires Walks(m) && m.ratio(Translit("света концерт"), Translit("света концерт концерта")) < RATIO_AUTO
    ensures CanAnswer(m, "света концерт", "света концерт концерта", AutoLevel, true)
    ensures CanAnswer(m, "света концерт", "света концерт концерта", AutoLevel, false)
    ensures StemClasses(Words("света концерт"), Words("света концерт концерта"))
  {
    var a, b, s, t, u := "света концерт", "света концерт концерта", "света", "концерт", "концерта";
    LightIsPlain();
    ConcertIsPlain();
    OfTheConcertIsPlain();
    OfTheConcertIsNoFiller();
    EchoStems();
    EchoSpelling();
    OneFiller(t, u);
    EchoAnswers(m, s, t, u, a, b);
  }

  lemma EchoAnswers(m: Matcher, s: string, t: string, u: string, a: string, b: string)
    requires Walks(m) && PlainWord(s) && PlainWord(t) && PlainWord(u) && a == s + " " + t && b == a + " " + u
    requires |s| >= 4 && !IsGeneric(s) && m.ratio(Translit(a), Translit(b)) < RATIO_AUTO
    requires s != t && s != u && t != u && StemEq(t, u) && !StemEq(s, t) && !StemEq(s, u) && Passes({t}, AutoLevel) && !Passes({u}, AutoLevel)
    ensures CanAnswer(m, a, b, AutoLevel, true) && CanAnswer(m, a, b, AutoLevel, false) && StemClasses(Words(a), Words(b))
  {
    EchoTitles(m, s, t, u, a, b);
    EchoIsLeft(Words(a), Words(b), s, t, u);
    WordIsLeft(Words(a), Words(b), s, t, u);
    EchoHasClasses(Words(a), Words(b), s, t, u);
    WordsDecideMatch(m, a, b, AutoLevel);
    ExtraCanBeIff(m, a, b, {t});
    ExtraCanBeIff(m, a, b, {u});
    GivenCanAnswer(m, a, b, AutoLevel, Some({t}));
    GivenCanAnswer(m, a, b, AutoLevel, Some({u}));
  }
}
