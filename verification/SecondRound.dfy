/** What one healing round does too much and too little: it merges sequels that share a slot, it can bring two
  duplicates together that shared no day before it, and it can leave a pair another process would merge. */
module SecondRound {
  import opened Collections
  import opened Ids
  import opened UnionFind
  import opened MergePlan
  import opened EventClusters
  import opened Tables
  import opened Text
  import opened TitleMatch
  import opened TitleReading
  import opened GreedyMatching
  import opened TitleLimits
  import opened WalkLimits
  import opened PairSearch
  import opened EventMerge
  import opened SelfHeal

  // ----- the titles -----

  lemma UnmatchedMeansNone(small: seq<string>, big: seq<string>, d: string)
    requires Distinct(small) && Distinct(big) && d in Elements(small) && forall t <- big :: !StemEq(d, t)
    ensures SubsetExtra(small, big).None?
  {
    if SubsetExtra(small, big).Some? {
      var f := SubsetExtraIsSound(small, big);
      assert false;
    }
  }

  lemma EditionsHaveNoMatching(m: Matcher, b: string, c: string, w: string, y: string, y': string)
    requires Walks(m) && PlainWord(w) && Digits(y) && Digits(y') && |y| == |y'| == 4 && y != y'
    requires Words(b) == {w, y} && Words(c) == {w, y'}
    ensures Extra(m, b, c).None?
  {
    WordsAndDigitsDiffer(w, y);
    WordsAndDigitsDiffer(w, y');
    StemEqSymmetric(w, y);
    StemEqSymmetric(w, y');
    StemEqSymmetric(y, y');
    var d := if Fewer(b, c) == b then y else y';
    assert d in Elements(m.walk(Fewer(b, c)));
    forall t | t in m.walk(More(b, c)) ensures !StemEq(d, t) { assert t in Elements(m.walk(More(b, c))); }
    UnmatchedMeansNone(m.walk(Fewer(b, c)), m.walk(More(b, c)), d);
  }

  lemma KeysDiffer(k: string, y: string, y': string)
    requires y != y'
    ensures k + y != k + y'
  {
    assert (k + y)[|k|..] == y && (k + y')[|k|..] == y';
  }

  lemma EditionReads(w: string, y: string, b: string)
    requires PlainWord(w) && Digits(y) && b == w + " " + y
    ensures Words(b) == {w, y} && TranslitKey(b) == Translit(w) + y
  {
    ReadTwo(w, y);
    TranslitPlain(y);
  }

  lemma NoSlotMatch(m: Matcher, b: string, c: string)
    requires TranslitKey(b) != TranslitKey(c) && Extra(m, b, c).None? && !SameEvent(m, b, c, FuzzyLevel, false)
    ensures !SlotMatch(m, b, c)
  {}

  /** Two editions of one year-less title never match, not even at one instant on one stage. */
  lemma EditionsNeverShareASlot(m: Matcher, w: string, y: string, y': string, b: string, c: string)
    requires Walks(m) && PlainWord(w) && Digits(y) && Digits(y') && |y| == |y'| == 4 && y != y'
    requires b == w + " " + y && c == w + " " + y' && !SameEvent(m, b, c, FuzzyLevel, false)
    ensures !SlotMatch(m, b, c)
  {
    EditionReads(w, y, b);
    EditionReads(w, y', c);
    KeysDiffer(Translit(w), y, y');
    EditionsHaveNoMatching(m, b, c, w, y, y');
    NoSlotMatch(m, b, c);
  }

  // ----- the tables -----

  const BARE := EventId(1)
  const FIRST := EventId(2)
  const SECOND := EventId(3)

  /** The bare title and its first edition share a stage; the two editions share another. */
  function Before(a: string, b: string, c: string): Snapshot {
    Snapshot(
      map[0 := Occ(BARE, Some(VenueId(1)), 0, None, ""), 1 := Occ(FIRST, Some(VenueId(1)), 0, None, ""),
          2 := Occ(FIRST, Some(VenueId(2)), 0, None, ""), 3 := Occ(SECOND, Some(VenueId(2)), 0, None, "")],
      map[0 := Source(BARE, "")],
      map[BARE := Event(a, true), FIRST := Event(b, true), SECOND := Event(c, true)])
  }

  predicate Chain(m: Matcher, a: string, b: string, c: string) {
    && a != "" && b != "" && c != ""
    && SameEvent(m, a, b, AutoLevel) && SameEvent(m, a, c, AutoLevel)
    && !SlotMatch(m, b, c) && !SameEvent(m, b, c, AutoLevel)
  }

  lemma BareAndSecondApart(a: string, b: string, c: string, t: map<EventId, string>)
    requires t.Keys == {BARE, FIRST, SECOND}
    ensures var s := Before(a, b, c);
      !ShareSlot(s.occs, BARE, SECOND) && !ShareVenueDay(s.occs, BARE, SECOND) && !SharePlacelessDay(s.occs, t, BARE, SECOND)
  {}

  lemma BareAndFirstMeet(a: string, b: string, c: string)
    ensures ShareVenueDay(Before(a, b, c).occs, BARE, FIRST)
  {
    var occs := Before(a, b, c).occs;
    assert 0 in occs && 1 in occs;
  }

  lemma SafePairNeeds(m: Matcher, occs: map<nat, Occ>, t: map<EventId, string>, p: Pair<EventId>)
    requires IsSafePair(m, occs, t, p) && t.Keys == {BARE, FIRST, SECOND}
    ensures p == (BARE, FIRST) || p == (BARE, SECOND) || p == (FIRST, SECOND)
    ensures SlotMatch(m, t[p.0], t[p.1]) || SameEvent(m, t[p.0], t[p.1], AutoLevel)
    ensures ShareSlot(occs, p.0, p.1) || ShareVenueDay(occs, p.0, p.1) || SharePlacelessDay(occs, t, p.0, p.1)
  {}

  lemma TitlesBefore(a: string, b: string, c: string)
    requires a != "" && b != "" && c != ""
    ensures Titles(Before(a, b, c).events) == map[BARE := a, FIRST := b, SECOND := c]
  {}

  lemma OnlyFirstIsSafe(m: Matcher, a: string, b: string, c: string, t: map<EventId, string>, p: Pair<EventId>)
    requires Chain(m, a, b, c) && t == map[BARE := a, FIRST := b, SECOND := c]
    requires IsSafePair(m, Before(a, b, c).occs, t, p)
    ensures p == (BARE, FIRST)
  {
    BareAndSecondApart(a, b, c, t);
    SafePairNeeds(m, Before(a, b, c).occs, t, p);
  }

  lemma FirstIsSafe(m: Matcher, a: string, b: string, c: string)
    requires Chain(m, a, b, c)
    ensures var s := Before(a, b, c); IsSafePair(m, s.occs, Titles(s.events), (BARE, FIRST))
  {
    TitlesBefore(a, b, c);
    BareAndFirstMeet(a, b, c);
  }

  lemma OnlyOneSafePair(m: Matcher, a: string, b: string, c: string, edges: set<Pair<EventId>>)
    requires Chain(m, a, b, c)
    requires var s := Before(a, b, c); forall p :: p in edges <==> IsUnionPair(m, s.occs, s.events, false, None, p)
    ensures edges == {(BARE, FIRST)}
  {
    FirstIsSafe(m, a, b, c);
    TitlesBefore(a, b, c);
    forall p | p in edges ensures p == (BARE, FIRST) { OnlyFirstIsSafe(m, a, b, c, Titles(Before(a, b, c).events), p); }
  }

  lemma BareOutranks(a: string, b: string, c: string)
    ensures var s := Before(a, b, c); var wins := ByRank(Ranks(s.occs, s.sources, s.events));
      wins(BARE, BARE) && wins(BARE, FIRST) && !wins(FIRST, BARE)
    requires a != "" && b != "" && c != ""
  {
    var s := Before(a, b, c);
    assert (set i | i in s.sources && s.sources[i].event == BARE) == {0};
    assert (set i | i in s.sources && s.sources[i].event == FIRST) == {};
    assert BARE in Titles(s.events) && FIRST in Titles(s.events);
  }

  lemma OnlyMerge(edges: set<Pair<EventId>>, wins: (EventId, EventId) -> bool, merges: seq<Pair<EventId>>)
    requires edges == {(BARE, FIRST)} && TotalOrder(wins) && wins(BARE, FIRST) && !wins(FIRST, BARE)
    requires MergesAre(merges, edges, wins, Nodes(edges))
    ensures merges == [(FIRST, BARE)]
  {
    assert Nodes(edges) == {BARE, FIRST};
    EdgeConnects(edges, (BARE, FIRST));
    assert Leads(edges, wins, BARE, FIRST) && IsMerge(edges, wins, FIRST, BARE);
    assert (FIRST, BARE) in merges;
    forall i | 0 <= i < |merges| ensures merges[i] == (FIRST, BARE) {
      assert merges[i] in merges;
      LeaderIsUnique(edges, wins, merges[i].1, BARE, FIRST);
    }
    assert |merges| > 1 ==> merges[0].0 != merges[1].0;
  }

  /** After the folds both the bare title and the second edition show at the second stage. */
  lemma FoldBringsTogether(a: string, b: string, c: string)
    ensures var folded := OccsFolded(Before(a, b, c).occs, [(FIRST, BARE)]);
      HasShowing(folded, BARE, Showing(Some(VenueId(2)), 0)) && HasShowing(folded, SECOND, Showing(Some(VenueId(2)), 0))
  {
    var occs := Before(a, b, c).occs;
    var merges := [(FIRST, BARE)];
    var x := Showing(Some(VenueId(2)), 0);
    assert HasShowing(occs, FIRST, x) by { assert 2 in occs; }
    assert HasShowing(occs, SECOND, x) by { assert 3 in occs; }
    CoverageConserved(occs, merges, BARE, x);
    CoverageConserved(occs, merges, SECOND, x);
    assert merges[0].1 == BARE && HasShowing(occs, merges[0].0, x);
  }

  lemma ShownIsCovered(occs: map<nat, Occ>, canons: set<EventId>, e: EventId, x: Showing)
    requires HasShowing(occs, e, x)
    ensures Covered(WithoutPlaceholders(occs, canons), e, x.venue, MoscowDay(x.start))
  {
    PlaceholdersAreRedundant(occs, canons, e, x.venue, MoscowDay(x.start));
  }

  lemma CoveredIsShared(occs: map<nat, Occ>, d: EventId, e: EventId, v: VenueId, day: int)
    requires Covered(occs, d, Some(v), day) && Covered(occs, e, Some(v), day)
    ensures ShareVenueDay(occs, d, e)
  {}

  lemma TitlesAfter(a: string, b: string, c: string)
    requires a != "" && c != ""
    ensures var t := Titles(Before(a, b, c).events - Duplicates([(FIRST, BARE)]));
      BARE in t && t[BARE] == a && SECOND in t && t[SECOND] == c
  {}

  lemma MergeBringsTogether(m: Matcher, a: string, b: string, c: string)
    requires a != "" && c != "" && SameEvent(m, a, c, AutoLevel)
    ensures var s' := Applied(Before(a, b, c), [(FIRST, BARE)]); IsSafePair(m, s'.occs, Titles(s'.events), (BARE, SECOND))
  {
    var merges := [(FIRST, BARE)];
    var folded := OccsFolded(Before(a, b, c).occs, merges);
    var after := WithoutPlaceholders(folded, Canons(merges));
    var x := Showing(Some(VenueId(2)), 0);
    FoldBringsTogether(a, b, c);
    ShownIsCovered(folded, Canons(merges), BARE, x);
    ShownIsCovered(folded, Canons(merges), SECOND, x);
    CoveredIsShared(after, BARE, SECOND, VenueId(2), MoscowDay(0));
    TitlesAfter(a, b, c);
  }

  lemma ChainNeedsTwoRounds(m: Matcher, a: string, b: string, c: string, s': Snapshot)
    requires Chain(m, a, b, c) && Round(m, Before(a, b, c), s')
    ensures !Healthy(m, s')
  {
    var s := Before(a, b, c);
    var edges, merges :| IsRoundPlan(m, s, false, None, edges, merges) && s' == Applied(s, merges);
    OnlyOneSafePair(m, a, b, c, edges);
    BareOutranks(a, b, c);
    OnlyMerge(edges, ByRank(Ranks(s.occs, s.sources, s.events)), merges);
    MergeBringsTogether(m, a, b, c);
  }

  lemma EditionsChain(m: Matcher, w: string, y: string, y': string, b: string, c: string)
    requires Walks(m) && PlainWord(w) && |w| >= 4 && !IsGeneric(w) && Digits(y) && Digits(y')
    requires IsYear(y) && IsYear(y') && y != y' && b == w + " " + y && c == w + " " + y'
    ensures Chain(m, w, b, c)
  {
    YearGuardIsNotTransitive(m, w, y, y');
    EditionsNeverShareASlot(m, w, y, y', b, c);
    NoFuzzyNoAuto(m, b, c);
  }

  lemma BeforeKeepsKey(a: string, b: string, c: string)
    ensures UniqueKey(Before(a, b, c).occs)
  {}

  lemma NoFuzzyNoAuto(m: Matcher, b: string, c: string)
    requires !SameEvent(m, b, c, FuzzyLevel, false)
    ensures !SameEvent(m, b, c, AutoLevel)
  {
    TiersAreNested(m, b, c, true);
  }

  /** One round need not suffice: whatever it merges, the state it leaves has a safe pair again. */
  lemma OneRoundMayNotSuffice(m: Matcher, w: string, y: string, y': string) returns (s: Snapshot)
    requires Walks(m) && PlainWord(w) && |w| >= 4 && !IsGeneric(w) && Digits(y) && Digits(y')
    requires IsYear(y) && IsYear(y') && y != y'
    ensures UniqueKey(s.occs) && forall s' | Round(m, s, s') :: !Healthy(m, s')
  {
    s := Before(w, w + " " + y, w + " " + y');
    EditionsChain(m, w, y, y', w + " " + y, w + " " + y');
    BeforeKeepsKey(w, w + " " + y, w + " " + y');
    forall s' | Round(m, s, s') ensures !Healthy(m, s') { ChainNeedsTwoRounds(m, w, w + " " + y, w + " " + y', s'); }
  }

  /** "Дюна" and "Дюна 2" on one stage at one instant do not both survive a round. */
  lemma DuneAndItsSequelAreMerged(m: Matcher, s: Snapshot, s': Snapshot, p: Pair<EventId>)
    requires Walks(m) && Round(m, s, s') && p.0 in Titles(s.events) && p.1 in Titles(s.events) && p.0.n < p.1.n
    requires ShareSlot(s.occs, p.0, p.1) && s.events[p.0].title == "дюна" && s.events[p.1].title == "дюна 2"
    ensures p.0 !in s'.events || p.1 !in s'.events
  {
    DuneAndItsSequelAreSafe(m, s.occs, Titles(s.events), p);
    SafePairIsMerged(m, s, s', p);
  }

  // ----- what another process finds -----

  /** Two events on one stage at one instant. */
  function OnOneSlot(a: string, b: string): Snapshot {
    Snapshot(
      map[0 := Occ(FIRST, Some(VenueId(1)), 0, None, ""), 1 := Occ(SECOND, Some(VenueId(1)), 0, None, "")],
      map[], map[FIRST := Event(a, true), SECOND := Event(b, true)])
  }

  lemma OnOneSlotTitles(a: string, b: string)
    requires a != "" && b != ""
    ensures Titles(OnOneSlot(a, b).events) == map[FIRST := a, SECOND := b]
  {}

  lemma OnOneSlotShares(a: string, b: string)
    ensures ShareSlot(OnOneSlot(a, b).occs, FIRST, SECOND)
  {
    var occs := OnOneSlot(a, b).occs;
    assert 0 in occs && 1 in occs;
  }

  lemma OnlyPair(m: Matcher, occs: map<nat, Occ>, a: string, b: string, p: Pair<EventId>)
    requires IsSafePair(m, occs, map[FIRST := a, SECOND := b], p)
    ensures p == (FIRST, SECOND)
  {}

  lemma OnOneSlotIsHealthyIff(m: Matcher, a: string, b: string)
    requires a != "" && b != ""
    ensures Healthy(m, OnOneSlot(a, b)) <==> !SlotMatch(m, a, b)
  {
    var s := OnOneSlot(a, b);
    OnOneSlotTitles(a, b);
    OnOneSlotShares(a, b);
    SharedSlotDecides(m, s.occs, Titles(s.events), (FIRST, SECOND));
    forall p | IsSafePair(m, s.occs, Titles(s.events), p) ensures p == (FIRST, SECOND) { OnlyPair(m, s.occs, a, b, p); }
  }

  /** Of two events on one slot that only their words can tell, some process with this ratio finds a pair to
      merge exactly when the words have a matching, and some process finds none exactly when a word can be
      starved. */
  lemma HealthDependsOnTheWalkIff(m: Matcher, a: string, b: string)
    requires Walks(m) && SlotWordsDecide(m, a, b) && a != "" && b != ""
    ensures (exists m' :: Rewalks(m, m') && !Healthy(m', OnOneSlot(a, b))) <==> Matchable(Words(Fewer(a, b)), Words(More(a, b)))
    ensures (exists m' :: Rewalks(m, m') && Healthy(m', OnOneSlot(a, b))) <==> Starvable(Words(Fewer(a, b)), Words(More(a, b)))
  {
    SlotDependsOnWalkIff(m, a, b);
    forall m' ensures Healthy(m', OnOneSlot(a, b)) <==> !SlotMatch(m', a, b) { OnOneSlotIsHealthyIff(m', a, b); }
  }

  /** A state one process leaves alone and another does not. */
  ghost predicate TwoMinds(m: Matcher, s: Snapshot, m1: Matcher, m2: Matcher, s': Snapshot) {
    && Rewalks(m, m1) && Rewalks(m, m2) && Healthy(m1, s) && !Healthy(m2, s)
    && Round(m1, s, s) && Round(m2, s, s') && s' != s
  }

  lemma HealthyRound(m: Matcher, s: Snapshot)
    requires Healthy(m, s)
    ensures Round(m, s, s)
  {
    var same := RoundExists(m, s);
    HealthyIsFixed(m, s, same);
  }

  lemma UnhealthyRound(m: Matcher, s: Snapshot) returns (s': Snapshot)
    requires !Healthy(m, s)
    ensures Round(m, s, s') && s' != s
  {
    s' := RoundExists(m, s);
    ProductiveRoundShrinks(m, s, s');
  }

  lemma TwoMindsOf(m: Matcher, s: Snapshot, m1: Matcher, m2: Matcher) returns (s': Snapshot)
    requires Rewalks(m, m1) && Rewalks(m, m2) && Healthy(m1, s) && !Healthy(m2, s)
    ensures TwoMinds(m, s, m1, m2, s')
  {
    HealthyRound(m1, s);
    s' := UnhealthyRound(m2, s);
  }

  lemma OneSlotTwoMinds(m: Matcher, a: string, b: string) returns (m1: Matcher, m2: Matcher, s': Snapshot)
    requires Walks(m) && SlotWordsDecide(m, a, b) && a != "" && b != ""
    requires Matchable(Words(Fewer(a, b)), Words(More(a, b))) && Starvable(Words(Fewer(a, b)), Words(More(a, b)))
    ensures TwoMinds(m, OnOneSlot(a, b), m1, m2, s')
  {
    HealthDependsOnTheWalkIff(m, a, b);
    m1 :| Rewalks(m, m1) && Healthy(m1, OnOneSlot(a, b));
    m2 :| Rewalks(m, m2) && !Healthy(m2, OnOneSlot(a, b));
    s' := TwoMindsOf(m, OnOneSlot(a, b), m1, m2);
  }

  lemma OnOneSlotKeepsKey(a: string, b: string)
    ensures UniqueKey(OnOneSlot(a, b).occs)
  {}

  /** A later round can merge what an earlier one found healthy. */
  lemma HealthDependsOnTheWalk(m: Matcher) returns (s: Snapshot, m1: Matcher, m2: Matcher, s': Snapshot)
    requires Walks(m) && m.ratio(Translit("март мартам"), Translit("марта марте")) < RATIO_FUZZY
    ensures s == OnOneSlot("март мартам", "марта марте") && UniqueKey(s.occs) && TwoMinds(m, s, m1, m2, s')
  {
    var a, b := MarchOnASlot(m);
    s := OnOneSlot(a, b);
    OnOneSlotKeepsKey(a, b);
    m1, m2, s' := OneSlotTwoMinds(m, a, b);
  }
}
