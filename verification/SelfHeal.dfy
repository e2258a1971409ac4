/** `merge_duplicate_events`, one round of the periodic self-heal, and what iterating it reaches. */
module SelfHeal {
  import opened Collections
  import opened Ids
  import opened UnionFind
  import opened MergePlan
  import opened EventClusters
  import opened Repoint
  import opened ClusterFolds
  import opened Tables
  import opened TitleMatch
  import opened PairSearch
  import opened EventMerge
  import Runs

  function Ranks(occs: map<nat, Occ>, sources: map<nat, Source>, events: map<EventId, Event>): map<EventId, Rank> {
    map e | e in Titles(events) ::
      Rank(|set i | i in sources && sources[i].event == e|, |set i | i in occs && occs[i].event == e|)
  }

  /** The reviewed fuzzy pairs; without a list every fuzzy pair is allowed. */
  predicate Allowed(allow: Option<set<set<EventId>>>, p: Pair<EventId>) {
    allow.None? || {p.0, p.1} in allow.value
  }

  /** The pairs a run unions: all safe ones, and on request the allowed fuzzy ones. */
  ghost predicate IsUnionPair(m: Matcher, occs: map<nat, Occ>, events: map<EventId, Event>, fuzzy: bool, allow: Option<set<set<EventId>>>, p: Pair<EventId>) {
    IsSafePair(m, occs, Titles(events), p) || (fuzzy && IsFuzzyPair(m, occs, Titles(events), p) && Allowed(allow, p))
  }

  /** Beyond the safe pairs nothing is merged unasked: only when fuzzy pairs are asked for, and with a list of reviewed
      pairs only those of it. */
  lemma OnlyReviewedPairs(m: Matcher, occs: map<nat, Occ>, events: map<EventId, Event>, fuzzy: bool, allow: Option<set<set<EventId>>>, p: Pair<EventId>)
    requires !IsSafePair(m, occs, Titles(events), p)
    ensures IsUnionPair(m, occs, events, fuzzy, allow, p) <==>
      fuzzy && IsFuzzyPair(m, occs, Titles(events), p) && (allow.Some? ==> exists q <- allow.value :: q == {p.0, p.1})
  {}

  method SelectFuzzy(fuzzyPairs: seq<Pair<EventId>>, allow: Option<set<set<EventId>>>, safe: seq<Pair<EventId>>) returns (pairs: seq<Pair<EventId>>)
    ensures forall p :: p in pairs <==> p in safe || (p in fuzzyPairs && Allowed(allow, p))
  {
    pairs := safe;
    for i := 0 to |fuzzyPairs|
      invariant forall p :: p in pairs <==> p in safe || (p in fuzzyPairs[..i] && Allowed(allow, p))
    {
      assert fuzzyPairs[..i + 1] == fuzzyPairs[..i] + [fuzzyPairs[i]];
      if Allowed(allow, fuzzyPairs[i]) { pairs := pairs + [fuzzyPairs[i]]; }
    }
    assert fuzzyPairs[..|fuzzyPairs|] == fuzzyPairs;
  }

  /** What a round leaves, as a function of the tables before it and of its merge list. */
  ghost function Applied(s: Snapshot, merges: seq<Pair<EventId>>): Snapshot {
    Snapshot(WithoutPlaceholders(OccsFolded(s.occs, merges), Canons(merges)), SourcesFolded(s.sources, merges), s.events - Duplicates(merges))
  }

  ghost predicate IsRoundPlan(m: Matcher, s: Snapshot, fuzzy: bool, allow: Option<set<set<EventId>>>, edges: set<Pair<EventId>>, merges: seq<Pair<EventId>>) {
    && (forall p :: p in edges <==> IsUnionPair(m, s.occs, s.events, fuzzy, allow, p))
    && MergesAre(merges, edges, ByRank(Ranks(s.occs, s.sources, s.events)), Nodes(edges))
    && IsPlan(merges)
  }

  method MergeDuplicateEvents(db: Db, m: Matcher, apply: bool, fuzzy: bool, allow: Option<set<set<EventId>>>)
      returns (ghost edges: set<Pair<EventId>>, ghost merges: seq<Pair<EventId>>)
    requires UniqueKey(db.occs)
    modifies db`occs, db`sources, db`events
    ensures UniqueKey(db.occs)
    ensures IsRoundPlan(m, old(Now(db)), fuzzy, allow, edges, merges)
    ensures Now(db) ==
      (if apply then Applied(old(Now(db)), merges) else old(Now(db)))
  {
    var safe, fuzzyPairs := FindPairs(m, db.occs, db.events);
    var pairs := safe;
    if fuzzy {
      pairs := SelectFuzzy(fuzzyPairs, allow, safe);
    }
    var rank := Ranks(db.occs, db.sources, db.events);
    var plan := ClusterToCanon(pairs, rank);
    edges, merges := Edges(pairs), plan;
    MergesArePlan(plan, edges, ByRank(rank));
    CommitEventMerges(db, plan, apply);
  }

  // ----- which event of a cluster stays -----

  ghost function SourcesOf(s: Snapshot, e: EventId): set<nat> { set i | i in s.sources && s.sources[i].event == e }
  ghost function RowsOf(s: Snapshot, e: EventId): set<nat> { set i | i in s.occs && s.occs[i].event == e }

  /** More sources, or as many and more rows, or as many of both and the higher id. */
  ghost predicate Beats(s: Snapshot, c: EventId, d: EventId) {
    || |SourcesOf(s, c)| > |SourcesOf(s, d)|
    || (|SourcesOf(s, c)| == |SourcesOf(s, d)| && |RowsOf(s, c)| > |RowsOf(s, d)|)
    || (|SourcesOf(s, c)| == |SourcesOf(s, d)| && |RowsOf(s, c)| == |RowsOf(s, d)| && c.n > d.n)
  }

  lemma RankCounts(s: Snapshot, e: EventId)
    requires e in s.events && s.events[e].active && s.events[e].title != ""
    ensures RankOf(Ranks(s.occs, s.sources, s.events), e) == Rank(|SourcesOf(s, e)|, |RowsOf(s, e)|)
  {
    TitledIsActive(s.events, e);
    assert (set i | i in s.sources && s.sources[i].event == e) == SourcesOf(s, e);
    assert (set i | i in s.occs && s.occs[i].event == e) == RowsOf(s, e);
  }

  lemma WinnerBeats(s: Snapshot, c: EventId, d: EventId)
    requires c in s.events && s.events[c].active && s.events[c].title != "" && d in s.events && s.events[d].active && s.events[d].title != ""
    requires c != d && ByRank(Ranks(s.occs, s.sources, s.events))(c, d)
    ensures Beats(s, c, d)
  {
    RankCounts(s, c);
    RankCounts(s, d);
  }

  /** The event merged into beats every other event of its cluster. */
  lemma BestEventStays(m: Matcher, s: Snapshot, fuzzy: bool, allow: Option<set<set<EventId>>>, edges: set<Pair<EventId>>,
                       merges: seq<Pair<EventId>>, p: Pair<EventId>, d: EventId)
    requires IsRoundPlan(m, s, fuzzy, allow, edges, merges) && p in merges && d in Nodes(edges) && Connected(edges, p.0, d) && d != p.1
    ensures Beats(s, p.1, d)
  {
    var wins := ByRank(Ranks(s.occs, s.sources, s.events));
    assert Leads(edges, wins, p.1, p.0) && wins(p.1, d);
    NodeIsLive(m, s, fuzzy, allow, edges, p.1);
    NodeIsLive(m, s, fuzzy, allow, edges, d);
    WinnerBeats(s, p.1, d);
  }

  lemma NodeIsLive(m: Matcher, s: Snapshot, fuzzy: bool, allow: Option<set<set<EventId>>>, edges: set<Pair<EventId>>, e: EventId)
    requires (forall p :: p in edges <==> IsUnionPair(m, s.occs, s.events, fuzzy, allow, p)) && e in Nodes(edges)
    ensures e in s.events && s.events[e].active && s.events[e].title != ""
  {
    var p :| p in edges && (p.0 == e || p.1 == e);
    UnionPairIsLive(m, s, fuzzy, allow, p);
  }

  // ----- what a round conserves -----

  /** After the folds of a round, before placeholders go, an event shows exactly what its whole cluster
      showed, and only canonical events show anything: stated over the duplicate pairs alone. */
  lemma RoundConservesCoverage(m: Matcher, s: Snapshot, fuzzy: bool, allow: Option<set<set<EventId>>>, edges: set<Pair<EventId>>,
                               merges: seq<Pair<EventId>>, e: EventId, x: Showing)
    requires IsRoundPlan(m, s, fuzzy, allow, edges, merges)
    ensures var wins := ByRank(Ranks(s.occs, s.sources, s.events));
      HasShowing(OccsFolded(s.occs, merges), e, x) <==>
        (e !in Nodes(edges) && HasShowing(s.occs, e, x))
        || (Leads(edges, wins, e, e) && exists d :: d in Nodes(edges) && Connected(edges, e, d) && HasShowing(s.occs, d, x))
  {
    CoverageConserved(s.occs, merges, e, x);
    FoldIsByCluster(edges, ByRank(Ranks(s.occs, s.sources, s.events)), merges, e, d => HasShowing(s.occs, d, x));
  }

  lemma CoveredIsShown(occs: map<nat, Occ>, e: EventId, venue: Option<VenueId>, day: int)
    ensures Covered(occs, e, venue, day) <==> exists t :: MoscowDay(t) == day && HasShowing(occs, e, Showing(venue, t))
  {
    if Covered(occs, e, venue, day) {
      var i :| i in occs && occs[i].event == e && occs[i].venue == venue && MoscowDay(occs[i].start) == day;
      assert HasShowing(occs, e, Showing(venue, occs[i].start));
    }
  }

  /** What a canonical event's cluster covers. */
  ghost predicate ClusterCovers(occs: map<nat, Occ>, edges: set<Pair<EventId>>, e: EventId, venue: Option<VenueId>, day: int) {
    exists d :: d in Nodes(edges) && Connected(edges, e, d) && Covered(occs, d, venue, day)
  }

  /** At the end of a round, placeholders gone, an event covers exactly the days its whole cluster covered
      at each venue, and only canonical events cover any. */
  lemma RoundConservesDays(m: Matcher, s: Snapshot, fuzzy: bool, allow: Option<set<set<EventId>>>, edges: set<Pair<EventId>>,
                           merges: seq<Pair<EventId>>, e: EventId, venue: Option<VenueId>, day: int)
    requires IsRoundPlan(m, s, fuzzy, allow, edges, merges)
    ensures var wins := ByRank(Ranks(s.occs, s.sources, s.events));
      Covered(Applied(s, merges).occs, e, venue, day) <==>
        (e !in Nodes(edges) && Covered(s.occs, e, venue, day)) || (Leads(edges, wins, e, e) && ClusterCovers(s.occs, edges, e, venue, day))
  {
    var folded := OccsFolded(s.occs, merges);
    PlaceholdersAreRedundant(folded, Canons(merges), e, venue, day);
    CoveredIsShown(folded, e, venue, day);
    CoveredIsShown(s.occs, e, venue, day);
    forall t ensures HasShowing(folded, e, Showing(venue, t)) <==>
      (e !in Nodes(edges) && HasShowing(s.occs, e, Showing(venue, t)))
      || (Leads(edges, ByRank(Ranks(s.occs, s.sources, s.events)), e, e)
          && exists d :: d in Nodes(edges) && Connected(edges, e, d) && HasShowing(s.occs, d, Showing(venue, t)))
    {
      RoundConservesCoverage(m, s, fuzzy, allow, edges, merges, e, Showing(venue, t));
    }
    forall d ensures Covered(s.occs, d, venue, day) <==> exists t :: MoscowDay(t) == day && HasShowing(s.occs, d, Showing(venue, t)) {
      CoveredIsShown(s.occs, d, venue, day);
    }
  }

  /** Afterwards no midnight stand-in of a canonical event stands beside its timed row. */
  lemma RoundLeavesNoStandIn(m: Matcher, s: Snapshot, fuzzy: bool, allow: Option<set<set<EventId>>>, edges: set<Pair<EventId>>, merges: seq<Pair<EventId>>)
    requires IsRoundPlan(m, s, fuzzy, allow, edges, merges)
    ensures NoStandIns(Applied(s, merges).occs, set p | p in merges :: p.1)
  {
    NoPlaceholderIsLeft(OccsFolded(s.occs, merges), Canons(merges));
  }

  // ----- whom a round leaves alone -----

  /** The event, its rows and its sources are the same in both states. */
  ghost predicate Alone(s: Snapshot, s': Snapshot, e: EventId) {
    && e in s.events && e in s'.events && s'.events[e] == s.events[e]
    && (forall i: nat :: i in s'.occs && s'.occs[i].event == e <==> i in s.occs && s.occs[i].event == e)
    && (forall i | i in s'.occs && s'.occs[i].event == e :: s'.occs[i] == s.occs[i])
    && (forall i: nat :: i in s'.sources && s'.sources[i].event == e <==> i in s.sources && s.sources[i].event == e)
    && (forall i | i in s'.sources && s'.sources[i].event == e :: s'.sources[i] == s.sources[i])
  }

  lemma OutsiderIsLeftAlone(s: Snapshot, merges: seq<Pair<EventId>>, e: EventId)
    requires e in s.events && forall p <- merges :: p.0 != e && p.1 != e
    ensures Alone(s, Applied(s, merges), e)
  {
    forall i: nat
      ensures var t := OccsFolded(s.occs, merges);
        (i in t && t[i].event == e <==> i in s.occs && s.occs[i].event == e) && (i in t && t[i].event == e ==> t[i] == s.occs[i])
      ensures var t := SourcesFolded(s.sources, merges);
        (i in t && t[i].event == e <==> i in s.sources && s.sources[i].event == e) && (i in t && t[i].event == e ==> t[i] == s.sources[i])
    {
      OutsiderKeepsRows(s.occs, merges, e, i);
      OutsiderKeepsSources(s.sources, merges, e, i);
    }
    assert e !in Canons(merges) && e !in Duplicates(merges);
  }

  /** An event that is not active or has no title is in no merge, and keeps its rows and its sources. */
  lemma InactiveIsLeftAlone(m: Matcher, s: Snapshot, fuzzy: bool, allow: Option<set<set<EventId>>>, edges: set<Pair<EventId>>,
                            merges: seq<Pair<EventId>>, e: EventId)
    requires IsRoundPlan(m, s, fuzzy, allow, edges, merges) && e in s.events && (!s.events[e].active || s.events[e].title == "")
    ensures forall p <- merges :: p.0 != e && p.1 != e
    ensures Alone(s, Applied(s, merges), e)
  {
    forall p | p in edges ensures p.0 != e && p.1 != e { UnionPairIsLive(m, s, fuzzy, allow, p); }
    assert e !in Nodes(edges);
    OutsiderIsLeftAlone(s, merges, e);
  }

  lemma UnionPairIsLive(m: Matcher, s: Snapshot, fuzzy: bool, allow: Option<set<set<EventId>>>, p: Pair<EventId>)
    requires IsUnionPair(m, s.occs, s.events, fuzzy, allow, p)
    ensures p.0 in s.events && s.events[p.0].active && s.events[p.0].title != ""
    ensures p.1 in s.events && s.events[p.1].active && s.events[p.1].title != ""
  {
    SafePairIff(m, s.occs, s.events, p);
    FuzzyPairIff(m, s.occs, s.events, p);
  }

  // ----- iterating the safe round -----

  ghost predicate Healthy(m: Matcher, s: Snapshot) {
    forall p :: !IsSafePair(m, s.occs, Titles(s.events), p)
  }

  /** One round of the unattended tier. */
  ghost predicate Round(m: Matcher, s: Snapshot, s': Snapshot) {
    exists edges, merges :: IsRoundPlan(m, s, false, None, edges, merges) && s' == Applied(s, merges)
  }

  /** A plan with a pair in it removes one of its ends' component and keeps another. */
  lemma PlanRemovesAndKeeps(edges: set<Pair<EventId>>, wins: (EventId, EventId) -> bool, merges: seq<Pair<EventId>>, p: Pair<EventId>)
      returns (c: EventId, d: EventId)
    requires TotalOrder(wins) && MergesAre(merges, edges, wins, Nodes(edges)) && p in edges && p.0 != p.1
    ensures c in Nodes(edges) && c !in Duplicates(merges)
    ensures d in Nodes(edges) && d in Duplicates(merges)
  {
    c := LeaderExists(edges, wins, p.0);
    d := if p.0 == c then p.1 else p.0;
    EdgeConnects(edges, p);
    if d == p.1 {
      forall x | x in Nodes(edges) && Connected(edges, p.1, x) ensures wins(c, x) { ConnectedTransitive(edges, p.0, p.1, x); }
    }
    assert IsMerge(edges, wins, d, c) && (d, c) in merges;
    if q: Pair<EventId> :| q in merges && q.0 == c {
      NoDuplicateIsCanonical(edges, wins, d, c, q.1);
    }
  }

  /** A round keeps at most one event of each safe pair. */
  lemma SafePairIsMerged(m: Matcher, s: Snapshot, s': Snapshot, p: Pair<EventId>)
    requires Round(m, s, s') && IsSafePair(m, s.occs, Titles(s.events), p)
    ensures p.0 !in s'.events || p.1 !in s'.events
  {
    var edges, merges :| IsRoundPlan(m, s, false, None, edges, merges) && s' == Applied(s, merges);
    assert p in edges && p.0 != p.1;
    var d, c := LinkedPairLosesOne(edges, ByRank(Ranks(s.occs, s.sources, s.events)), merges, p);
    assert (d, c) in merges && d in Duplicates(merges);
  }

  lemma UnionPairsAreEvents(m: Matcher, s: Snapshot, fuzzy: bool, allow: Option<set<set<EventId>>>, edges: set<Pair<EventId>>)
    requires forall p :: p in edges <==> IsUnionPair(m, s.occs, s.events, fuzzy, allow, p)
    ensures Nodes(edges) <= s.events.Keys
  {}

  /** A round that finds a safe pair deletes an event and leaves one standing. */
  lemma ProductiveRoundShrinks(m: Matcher, s: Snapshot, s': Snapshot)
    requires Round(m, s, s') && !Healthy(m, s)
    ensures 1 <= |s'.events.Keys| < |s.events.Keys|
  {
    var edges, merges :| IsRoundPlan(m, s, false, None, edges, merges) && s' == Applied(s, merges);
    var p :| IsSafePair(m, s.occs, Titles(s.events), p);
    assert p in edges && p.0 != p.1;
    var c, d := PlanRemovesAndKeeps(edges, ByRank(Ranks(s.occs, s.sources, s.events)), merges, p);
    UnionPairsAreEvents(m, s, false, None, edges);
    KeysShrink(s.events, Duplicates(merges), c, d);
  }

  lemma KeysShrink(events: map<EventId, Event>, dups: set<EventId>, c: EventId, d: EventId)
    requires c in events && c !in dups && d in events && d in dups
    ensures 1 <= |(events - dups).Keys| < |events.Keys|
  {
    var left := (events - dups).Keys;
    assert left <= events.Keys - {d} && {c} <= left;
    SubsetSize(left, events.Keys - {d});
    SubsetSize({c}, left);
  }

  lemma MergesNeedPairs(edges: set<Pair<EventId>>, wins: (EventId, EventId) -> bool, merges: seq<Pair<EventId>>)
    requires MergesAre(merges, edges, wins, Nodes(edges)) && merges != []
    ensures edges != {}
  {
    assert merges[0] in merges;
  }

  /** A round on a healthy state is the identity. */
  lemma HealthyIsFixed(m: Matcher, s: Snapshot, s': Snapshot)
    requires Round(m, s, s') && Healthy(m, s)
    ensures s' == s
  {
    var edges, merges :| IsRoundPlan(m, s, false, None, edges, merges) && s' == Applied(s, merges);
    assert forall p :: p !in edges;
    if merges != [] { MergesNeedPairs(edges, ByRank(Ranks(s.occs, s.sources, s.events)), merges); }
    assert WithoutPlaceholders(s.occs, Canons([])) == s.occs;
    assert s.events - Duplicates([]) == s.events;
  }

  /** A round changes the tables exactly when it finds a safe pair, and then it uses up an event. */
  lemma RoundIsIdleIff(m: Matcher, s: Snapshot, s': Snapshot)
    requires Round(m, s, s')
    ensures s' == s <==> Healthy(m, s)
    ensures Runs.FallsOrStays(s, s', Size) && (s' != s ==> Size(s') >= 1)
  {
    if Healthy(m, s) { HealthyIsFixed(m, s, s'); } else { ProductiveRoundShrinks(m, s, s'); }
  }

  function Size(s: Snapshot): nat { |s.events.Keys| }

  ghost predicate RoundAt(ms: seq<Matcher>, run: seq<Snapshot>, i: nat)
    requires i < |ms| && i + 1 < |run|
  {
    Round(ms[i], run[i], run[i + 1])
  }

  /** Every round is a process of its own, with its own walks of the word sets. */
  ghost predicate IsRun(ms: seq<Matcher>, run: seq<Snapshot>) {
    |run| == |ms| + 1 && forall i | 0 <= i < |ms| :: RoundAt(ms, run, i)
  }

  /** Each change of a run costs an event and one always remains: however every process walks its sets, n
      events see at most n - 1 rounds that change anything. */
  lemma RoundsThatChange(ms: seq<Matcher>, run: seq<Snapshot>, k: nat)
    requires IsRun(ms, run) && k < |run|
    ensures Size(run[k]) + Runs.Changes(run, k) <= Size(run[0])
    ensures Runs.Changes(run, k) > 0 ==> Size(run[k]) >= 1
  {
    forall i | 0 <= i < |run| - 1 ensures Runs.FallsOrStaysAt(run, Size, i) && Runs.LeavesAt(run, Inhabited, i) { RoundOfRun(ms, run, i); }
    Runs.ChangesAreFew(run, Size, k);
    Runs.ChangesLeave(run, Inhabited, k);
  }

  predicate Inhabited(s: Snapshot) { Size(s) >= 1 }

  lemma RoundOfRun(ms: seq<Matcher>, run: seq<Snapshot>, i: nat)
    requires IsRun(ms, run) && i < |ms|
    ensures Runs.IdleIffDoneAt(run, s => Healthy(ms[i], s), i)
    ensures Runs.FallsOrStaysAt(run, Size, i) && Runs.LeavesAt(run, Inhabited, i)
  {
    assert RoundAt(ms, run, i);
    RoundIsIdleIff(ms[i], run[i], run[i + 1]);
  }

  /** A run without end comes to a state that every later process finds healthy and leaves alone. */
  lemma EveryRunSettles(ms: nat -> Matcher, run: nat -> Snapshot) returns (n: nat)
    requires forall i: nat :: Round(ms(i), run(i), run(i + 1))
    ensures forall j: nat | j >= n :: run(j) == run(n) && Healthy(ms(j), run(n))
  {
    forall j: nat ensures Runs.FallsOrStays(run(j), run(j + 1), Size) { RoundIsIdleIff(ms(j), run(j), run(j + 1)); }
    n := Runs.Settles(run, Size, 0);
    forall j: nat | j >= n ensures Healthy(ms(j), run(n)) {
      assert run(j) == run(n) && run(j + 1) == run(n);
      RoundIsIdleIff(ms(j), run(j), run(j + 1));
    }
  }

  // ----- healthy for good -----

  /** No process with this ratio finds a safe pair, however it walks its sets. */
  ghost predicate HealthyForEvery(m: Matcher, s: Snapshot) {
    forall m' | Rewalks(m, m') :: Healthy(m', s)
  }

  /** Every process has a round to make. */
  lemma RoundExists(m: Matcher, s: Snapshot) returns (s': Snapshot)
    ensures Round(m, s, s')
  {
    var edges := set a, b | a in s.events && b in s.events && IsSafePair(m, s.occs, Titles(s.events), (a, b)) :: (a, b);
    var wins := ByRank(Ranks(s.occs, s.sources, s.events));
    forall p ensures p in edges <==> IsUnionPair(m, s.occs, s.events, false, None, p) { assert p == (p.0, p.1); }
    var merges := MergesFor(edges, wins, Nodes(edges));
    MergesArePlan(merges, edges, wins);
    s' := Applied(s, merges);
    assert IsRoundPlan(m, s, false, None, edges, merges);
  }

  ghost predicate IsRunFrom(m: Matcher, s: Snapshot, ms: seq<Matcher>, run: seq<Snapshot>) {
    IsRun(ms, run) && run[0] == s && forall m' <- ms :: Rewalks(m, m')
  }

  /** No run of processes with this ratio ever leaves the state. */
  ghost predicate FixedForGood(m: Matcher, s: Snapshot) {
    forall ms, run, i: nat | IsRunFrom(m, s, ms, run) && i < |run| :: run[i] == s
  }

  lemma HealthyRunStays(m: Matcher, ms: seq<Matcher>, run: seq<Snapshot>, s: Snapshot, i: nat)
    requires IsRunFrom(m, s, ms, run) && i < |run| && HealthyForEvery(m, s)
    ensures run[i] == s
  {
    var same := x => x == s;
    forall j | 0 <= j < |run| - 1 ensures Runs.KeptAt(run, same, j) {
      RoundOfRun(ms, run, j);
      assert ms[j] in ms;
    }
    Runs.Always(run, same, i);
  }

  lemma OneRoundIsARun(m: Matcher, m': Matcher, s: Snapshot, s': Snapshot) returns (ms: seq<Matcher>, run: seq<Snapshot>)
    requires Round(m', s, s') && Rewalks(m, m')
    ensures IsRunFrom(m, s, ms, run) && |run| == 2 && run[1] == s'
  {
    ms, run := [m'], [s, s'];
    assert RoundAt(ms, run, 0);
  }

  lemma FixedMeansIdle(m: Matcher, m': Matcher, s: Snapshot, s': Snapshot)
    requires FixedForGood(m, s) && Rewalks(m, m') && Round(m', s, s')
    ensures s' == s
  {
    var ms, run := OneRoundIsARun(m, m', s, s');
    assert run[1] == s;
  }

  lemma FixedMeansHealthy(m: Matcher, m': Matcher, s: Snapshot)
    requires FixedForGood(m, s) && Rewalks(m, m')
    ensures Healthy(m', s)
  {
    var s' := RoundExists(m', s);
    FixedMeansIdle(m, m', s, s');
    RoundIsIdleIff(m', s, s');
  }

  /** A state is fixed for good exactly when it is healthy for every walk. */
  lemma FixedForGoodIff(m: Matcher, s: Snapshot)
    ensures FixedForGood(m, s) <==> HealthyForEvery(m, s)
  {
    if HealthyForEvery(m, s) {
      forall ms, run, i: nat | IsRunFrom(m, s, ms, run) && i < |run| ensures run[i] == s { HealthyRunStays(m, ms, run, s, i); }
    }
    if FixedForGood(m, s) {
      forall m' | Rewalks(m, m') ensures Healthy(m', s) { FixedMeansHealthy(m, m', s); }
    }
  }

  // ----- processes that walk alike -----

  ghost predicate SettledFrom(m: Matcher, run: seq<Snapshot>, k: int)
    requires 0 <= k < |run|
  {
    Healthy(m, run[k]) && forall j | k <= j < |run| :: run[j] == run[k]
  }

  /** If all rounds walk alike the changes come first: a run of n rounds from n events has reached the health
      invariant of its walk, in fewer than n rounds, and stopped changing. */
  lemma SelfHealConverges(m: Matcher, ms: seq<Matcher>, run: seq<Snapshot>)
    requires IsRun(ms, run) && (forall m' <- ms :: m' == m) && |run| > |run[0].events.Keys|
    ensures Healthy(m, run[|run| - 1])
    ensures exists k :: 0 <= k < |run| && (k == 0 || k < |run[0].events.Keys|) && SettledFrom(m, run, k)
  {
    var healthy := s => Healthy(m, s);
    forall i | 0 <= i < |run| - 1 ensures Runs.IdleIffDoneAt(run, healthy, i) {
      assert ms[i] in ms;
      RoundOfRun(ms, run, i);
    }
    var k := Runs.Changes(run, |ms|);
    RoundsThatChange(ms, run, |ms|);
    Runs.ChangesComeFirst(run, healthy, |ms|);
    NoEventsIsHealthy(m, run[k]);
    assert SettledFrom(m, run, k);
  }

  lemma NoEventsIsHealthy(m: Matcher, s: Snapshot)
    ensures |s.events.Keys| == 0 ==> Healthy(m, s)
  {
    if |s.events.Keys| == 0 { assert s.events.Keys == {}; }
  }
}
