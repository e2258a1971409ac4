/** The event merge and the resplit in turn: together they reach the state the health check asks of both.

  A merge can leave an event over two places and a resplit can bring two duplicates to one venue, so neither
  fixpoint survives the other pass.  What falls is the number of (event, venue) combinations shown: a resplit
  never raises it and a merge that finds a safe pair lowers it. */
module Healing {
  import opened Collections
  import opened Ids
  import opened UnionFind
  import opened MergePlan
  import opened EventClusters
  import opened Repoint
  import opened ClusterFolds
  import opened Tables
  import opened TitleMatch
  import opened PairSearch
  import opened EventMerge
  import opened SelfHeal
  import opened PlaceClusters
  import opened ResplitPlan
  import opened ResplitPass
  import Resplit
  import Runs

  // ----- combinations shown -----

  type Combination = (EventId, Option<VenueId>)

  ghost function Combinations(occs: map<nat, Occ>): set<Combination> {
    set i | i in occs :: (occs[i].event, occs[i].venue)
  }

  lemma {:induction false} ImageSize<A, B>(s: set<A>, t: set<B>, f: A -> B)
    requires forall y <- t :: exists x <- s :: f(x) == y
    ensures |t| <= |s|
    decreases s
  {
    if s == {} {
      assert t == {};
    } else {
      var x :| x in s;
      ImageSize(s - {x}, t - {f(x)}, f);
      if f(x) in t {
        assert t == t - {f(x)} + {f(x)};
      } else {
        assert t == t - {f(x)};
      }
    }
  }

  // ----- a merge -----

  /** Where the rows of a member go. */
  ghost function Home<T>(merges: seq<Pair<T>>, e: T): T {
    if merges == [] then e else if merges[|merges| - 1].0 == e then merges[|merges| - 1].1 else Home(merges[..|merges| - 1], e)
  }

  lemma {:induction false} HomeIs<T>(merges: seq<Pair<T>>, e: T)
    ensures if exists c :: (e, c) in merges then (e, Home(merges, e)) in merges else Home(merges, e) == e
  {
    if merges != [] {
      var n := |merges| - 1;
      HomeIs(merges[..n], e);
      assert merges == merges[..n] + [merges[n]];
      assert forall c :: (e, c) in merges <==> (e, c) in merges[..n] || (e, c) == merges[n];
    }
  }

  lemma HomeOfDuplicate<T>(merges: seq<Pair<T>>, d: T, c: T)
    requires IsPlan(merges) && (d, c) in merges
    ensures Home(merges, d) == c
  {
    HomeIs(merges, d);
    var i :| 0 <= i < |merges| && merges[i] == (d, c);
    var j :| 0 <= j < |merges| && merges[j] == (d, Home(merges, d));
    assert i == j;
  }

  lemma HomeOfOthers<T>(merges: seq<Pair<T>>, e: T)
    requires !IsDuplicate(merges, e)
    ensures Home(merges, e) == e
  {
    HomeIs(merges, e);
    assert forall i | 0 <= i < |merges| :: merges[i].0 != e;
  }

  /** Every combination after the merge is one from before it, moved home. */
  lemma CombinationComesHome(occs: map<nat, Occ>, merges: seq<Pair<EventId>>, y: Combination)
    requires IsPlan(merges) && y in Combinations(WithoutPlaceholders(OccsFolded(occs, merges), Canons(merges)))
    ensures exists x <- Combinations(occs) :: (Home(merges, x.0), x.1) == y
  {
    var folded := OccsFolded(occs, merges);
    var i :| i in folded && (folded[i].event, folded[i].venue) == y;
    var s := Showing(folded[i].venue, folded[i].start);
    assert HasShowing(folded, y.0, s);
    CoverageConserved(occs, merges, y.0, s);
    if HasShowing(occs, y.0, s) {
      HomeOfOthers(merges, y.0);
      var j :| j in occs && occs[j].event == y.0 && occs[j].venue == s.venue && occs[j].start == s.start;
      assert (y.0, y.1) in Combinations(occs);
    } else {
      var k :| 0 <= k < |merges| && merges[k].1 == y.0 && HasShowing(occs, merges[k].0, s);
      assert (merges[k].0, y.0) in merges;
      HomeOfDuplicate(merges, merges[k].0, y.0);
      var j :| j in occs && occs[j].event == merges[k].0 && occs[j].venue == s.venue && occs[j].start == s.start;
      assert (merges[k].0, y.1) in Combinations(occs);
    }
  }

  /** A safe pair shares a combination's venue. */
  lemma SafePairSharesVenue(m: Matcher, occs: map<nat, Occ>, title: map<EventId, string>, p: Pair<EventId>) returns (v: Option<VenueId>)
    requires IsSafePair(m, occs, title, p)
    ensures (p.0, v) in Combinations(occs) && (p.1, v) in Combinations(occs)
  {
    if ShareSlot(occs, p.0, p.1) {
      var i, j :| i in occs && j in occs && occs[i].event == p.0 && occs[j].event == p.1
        && occs[i].venue.Some? && occs[i].venue == occs[j].venue && occs[i].start == occs[j].start;
      v := occs[i].venue;
    } else if ShareVenueDay(occs, p.0, p.1) {
      var i, j :| i in occs && j in occs && occs[i].event == p.0 && occs[j].event == p.1
        && occs[i].venue.Some? && occs[i].venue == occs[j].venue && MoscowDay(occs[i].start) == MoscowDay(occs[j].start);
      v := occs[i].venue;
    } else {
      var i, j :| i in occs && j in occs && occs[i].event == p.0 && occs[j].event == p.1
        && occs[i].venue.None? && occs[j].venue.None?;
      v := None;
    }
  }

  /** Linked events go to one home. */
  lemma LinkedShareHome(edges: set<Pair<EventId>>, wins: (EventId, EventId) -> bool, merges: seq<Pair<EventId>>, p: Pair<EventId>)
    requires TotalOrder(wins) && MergesAre(merges, edges, wins, Nodes(edges)) && IsPlan(merges) && p in edges
    ensures Home(merges, p.0) == Home(merges, p.1)
  {
    var c := LeaderExists(edges, wins, p.0);
    EdgeConnects(edges, p);
    LeaderIsHome(edges, wins, merges, p.0, c);
    forall x | x in Nodes(edges) && Connected(edges, p.1, x) ensures wins(c, x) { ConnectedTransitive(edges, p.0, p.1, x); }
    ConnectedTransitive(edges, p.1, p.0, c);
    LeaderIsHome(edges, wins, merges, p.1, c);
  }

  lemma LeaderIsHome(edges: set<Pair<EventId>>, wins: (EventId, EventId) -> bool, merges: seq<Pair<EventId>>, e: EventId, c: EventId)
    requires TotalOrder(wins) && MergesAre(merges, edges, wins, Nodes(edges)) && IsPlan(merges)
    requires e in Nodes(edges) && Leads(edges, wins, c, e)
    ensures Home(merges, e) == c
  {
    EveryOtherMemberIsMerged(edges, wins, merges, e, c);
    if e == c {
      HomeOfOthers(merges, e);
    } else {
      HomeOfDuplicate(merges, e, c);
    }
  }

  lemma RoundShrinksCombinations(m: Matcher, s: Snapshot, s': Snapshot)
    requires Round(m, s, s')
    ensures |Combinations(s'.occs)| <= |Combinations(s.occs)|
    ensures !Healthy(m, s) ==> |Combinations(s'.occs)| < |Combinations(s.occs)|
  {
    var edges, merges :| IsRoundPlan(m, s, false, None, edges, merges) && s' == Applied(s, merges);
    var before, after := Combinations(s.occs), Combinations(s'.occs);
    var home := (x: Combination) => (Home(merges, x.0), x.1);
    forall y | y in after ensures exists x <- before :: home(x) == y { CombinationComesHome(s.occs, merges, y); }
    ImageSize(before, after, home);
    if !Healthy(m, s) {
      var p :| IsSafePair(m, s.occs, Titles(s.events), p);
      var v := SafePairSharesVenue(m, s.occs, Titles(s.events), p);
      LinkedShareHome(edges, ByRank(Ranks(s.occs, s.sources, s.events)), merges, p);
      OneIsSpare(before, after, home, (p.0, v), (p.1, v));
    }
  }

  lemma OneIsSpare<A, B>(s: set<A>, t: set<B>, f: A -> B, x: A, y: A)
    requires (forall z <- t :: exists w <- s :: f(w) == z) && x in s && y in s && x != y && f(x) == f(y)
    ensures |t| < |s|
  {
    forall z | z in t ensures exists w <- s - {y} :: f(w) == z {
      var w :| w in s && f(w) == z;
      if w == y { assert x in s - {y} && f(x) == z; }
    }
    ImageSize(s - {y}, t, f);
  }

  // ----- a resplit -----

  ghost predicate ResplitTo(s: Snapshot, s': Snapshot, same: (VenueId, VenueId) -> bool, clash: (VenueId, VenueId) -> bool) {
    exists plans :: PassState(s, same, clash)(s', plans, {})
  }

  /** Where the pass takes a combination: the place of the venue, on the event that keeps the place. */
  ghost function Moved(plans: map<EventId, Plan>, x: Combination): Combination {
    if x.0 in plans && x.1.Some? && x.1.value in plans[x.0].place
      && plans[x.0].place[x.1.value] in plans[x.0].target && plans[x.0].place[x.1.value] in plans[x.0].canon
    then (plans[x.0].target[plans[x.0].place[x.1.value]], Some(plans[x.0].canon[plans[x.0].place[x.1.value]]))
    else x
  }

  lemma PlannedRowIsMoved(occs: map<nat, Occ>, now: map<nat, Occ>, plans: map<EventId, Plan>, i: nat)
    requires i in now && i in occs && occs[i].event in plans && occs[i].venue.Some?
    requires VenuesPlaced(occs, occs[i].event, plans[occs[i].event]) && RowFollows(occs, now, occs[i].event, plans[occs[i].event], i)
    ensures (now[i].event, now[i].venue) == Moved(plans, (occs[i].event, occs[i].venue))
  {
    var e := occs[i].event;
    assert SlotOf(plans[e], occs[i]) in AllSlots(occs, e, plans[e]);
  }

  lemma RowIsMoved(s: Snapshot, s': Snapshot, plans: map<EventId, Plan>, same: (VenueId, VenueId) -> bool, clash: (VenueId, VenueId) -> bool, i: nat)
    requires PassState(s, same, clash)(s', plans, {}) && i in s'.occs
    ensures i in s.occs && (s'.occs[i].event, s'.occs[i].venue) == Moved(plans, (s.occs[i].event, s.occs[i].venue))
  {
    var e := s.occs[i].event;
    MultiEventsAre(s.occs, e);
    if e in plans && s.occs[i].venue.Some? {
      assert EventPassed(s.occs, s'.occs, e, plans[e], same, clash);
      PlannedRowIsMoved(s.occs, s'.occs, plans, i);
    }
  }

  lemma ResplitKeepsCombinations(s: Snapshot, s': Snapshot, same: (VenueId, VenueId) -> bool, clash: (VenueId, VenueId) -> bool)
    requires ResplitTo(s, s', same, clash)
    ensures |Combinations(s'.occs)| <= |Combinations(s.occs)| && MultiEvents(s'.occs) == {}
  {
    var plans :| PassState(s, same, clash)(s', plans, {});
    PassEnds(s, s', plans, same, clash);
    var moved := (x: Combination) => Moved(plans, x);
    forall y | y in Combinations(s'.occs) ensures exists x <- Combinations(s.occs) :: moved(x) == y {
      var i :| i in s'.occs && (s'.occs[i].event, s'.occs[i].venue) == y;
      RowIsMoved(s, s', plans, same, clash, i);
      assert (s.occs[i].event, s.occs[i].venue) in Combinations(s.occs);
    }
    ImageSize(Combinations(s.occs), Combinations(s'.occs), moved);
  }

  // ----- the two in turn -----

  /** One cycle: the unattended merge, then the resplit. */
  ghost predicate Cycle(m: Matcher, s: Snapshot, s': Snapshot, same: (VenueId, VenueId) -> bool, clash: (VenueId, VenueId) -> bool) {
    exists mid :: Round(m, s, mid) && ResplitTo(mid, s', same, clash)
  }

  /** What the health check asks of the events: no safe pair, and none over several venues. */
  ghost predicate Clean(m: Matcher, s: Snapshot) { Healthy(m, s) && MultiEvents(s.occs) == {} }

  lemma CycleShrinks(m: Matcher, s: Snapshot, s': Snapshot, same: (VenueId, VenueId) -> bool, clash: (VenueId, VenueId) -> bool)
    requires Cycle(m, s, s', same, clash)
    ensures MultiEvents(s'.occs) == {}
    ensures |Combinations(s'.occs)| <= |Combinations(s.occs)|
    ensures !Healthy(m, s) ==> |Combinations(s'.occs)| < |Combinations(s.occs)|
  {
    var mid :| Round(m, s, mid) && ResplitTo(mid, s', same, clash);
    RoundShrinksCombinations(m, s, mid);
    ResplitKeepsCombinations(mid, s', same, clash);
  }

  lemma CleanIsFixed(m: Matcher, s: Snapshot, s': Snapshot, same: (VenueId, VenueId) -> bool, clash: (VenueId, VenueId) -> bool)
    requires Cycle(m, s, s', same, clash) && Clean(m, s)
    ensures s' == s
  {
    var mid :| Round(m, s, mid) && ResplitTo(mid, s', same, clash);
    HealthyIsFixed(m, s, mid);
    var plans :| PassState(mid, same, clash)(s', plans, {});
    SecondResplitIsIdle(mid, s', plans, same, clash);
  }

  ghost function Shown(s: Snapshot): nat { |Combinations(s.occs)| }

  /** A cycle changes the tables exactly when they are not clean, and once no event is over several venues each
      change costs a combination. */
  lemma CycleIsIdleIff(m: Matcher, s: Snapshot, s': Snapshot, same: (VenueId, VenueId) -> bool, clash: (VenueId, VenueId) -> bool)
    requires Cycle(m, s, s', same, clash)
    ensures s' == s <==> Clean(m, s)
    ensures MultiEvents(s'.occs) == {} && Shown(s') <= Shown(s) && (MultiEvents(s.occs) == {} ==> Runs.FallsOrStays(s, s', Shown))
  {
    CycleShrinks(m, s, s', same, clash);
    if Clean(m, s) { CleanIsFixed(m, s, s', same, clash); }
  }

  ghost predicate CycleAt(ms: seq<Matcher>, run: seq<Snapshot>, i: nat, same: (VenueId, VenueId) -> bool, clash: (VenueId, VenueId) -> bool)
    requires i < |ms| && i + 1 < |run|
  {
    Cycle(ms[i], run[i], run[i + 1], same, clash)
  }

  /** Every cycle is a process of its own. */
  ghost predicate AreCycles(ms: seq<Matcher>, run: seq<Snapshot>, same: (VenueId, VenueId) -> bool, clash: (VenueId, VenueId) -> bool) {
    |run| == |ms| + 1 && forall i | 0 <= i < |ms| :: CycleAt(ms, run, i, same, clash)
  }

  lemma CycleOfRun(ms: seq<Matcher>, run: seq<Snapshot>, same: (VenueId, VenueId) -> bool, clash: (VenueId, VenueId) -> bool, i: nat)
    requires AreCycles(ms, run, same, clash) && i < |ms|
    ensures Runs.IdleIffDoneAt(run, s => Clean(ms[i], s), i)
    ensures MultiEvents(run[i + 1].occs) == {} && Shown(run[i + 1]) <= Shown(run[i]) && (i > 0 ==> Runs.FallsOrStaysAt(run, Shown, i))
  {
    assert CycleAt(ms, run, i, same, clash);
    CycleIsIdleIff(ms[i], run[i], run[i + 1], same, clash);
    if i > 0 {
      assert CycleAt(ms, run, i - 1, same, clash);
      CycleIsIdleIff(ms[i - 1], run[i - 1], run[i], same, clash);
    }
  }

  /** However every process walks its sets, at most one cycle more than there are combinations of event and
      venue shown changes anything. */
  lemma CyclesThatChange(ms: seq<Matcher>, run: seq<Snapshot>, same: (VenueId, VenueId) -> bool, clash: (VenueId, VenueId) -> bool, k: nat)
    requires AreCycles(ms, run, same, clash) && k < |run|
    ensures Shown(run[k]) + Runs.Changes(run, k) <= Shown(run[0]) + 1
  {
    forall i | 0 <= i < |run| - 1
      ensures Shown(run[i + 1]) <= Shown(run[i]) && (i > 0 ==> Runs.FallsOrStaysAt(run, Shown, i))
    {
      CycleOfRun(ms, run, same, clash, i);
    }
    Runs.LaterChangesAreFew(run, Shown, k);
  }

  /** The i-th of cycles without end. */
  ghost predicate CyclesOn(ms: nat -> Matcher, run: nat -> Snapshot, same: (VenueId, VenueId) -> bool, clash: (VenueId, VenueId) -> bool, i: nat) {
    Cycle(ms(i), run(i), run(i + 1), same, clash)
  }

  lemma CycleOfMany(ms: nat -> Matcher, run: nat -> Snapshot, same: (VenueId, VenueId) -> bool, clash: (VenueId, VenueId) -> bool, i: nat)
    requires forall j: nat :: CyclesOn(ms, run, same, clash, j)
    ensures run(i + 1) == run(i) <==> Clean(ms(i), run(i))
    ensures i > 0 ==> Runs.FallsOrStays(run(i), run(i + 1), Shown)
  {
    assert CyclesOn(ms, run, same, clash, i);
    CycleIsIdleIff(ms(i), run(i), run(i + 1), same, clash);
    if i > 0 {
      assert CyclesOn(ms, run, same, clash, i - 1);
      CycleIsIdleIff(ms(i - 1), run(i - 1), run(i), same, clash);
    }
  }

  /** Cycles without end come to a state that every later process finds clean and leaves alone. */
  lemma EveryHealingSettles(ms: nat -> Matcher, run: nat -> Snapshot, same: (VenueId, VenueId) -> bool, clash: (VenueId, VenueId) -> bool)
      returns (n: nat)
    requires forall j: nat :: CyclesOn(ms, run, same, clash, j)
    ensures forall j: nat | j >= n :: run(j) == run(n) && Clean(ms(j), run(n))
  {
    forall j: nat | j >= 1 ensures Runs.FallsOrStays(run(j), run(j + 1), Shown) { CycleOfMany(ms, run, same, clash, j); }
    n := Runs.Settles(run, Shown, 1);
    forall j: nat | j >= n ensures Clean(ms(j), run(n)) {
      assert run(j) == run(n) && run(j + 1) == run(n);
      CycleOfMany(ms, run, same, clash, j);
    }
  }

  /** Clean for every process with this ratio. */
  ghost predicate CleanForEvery(m: Matcher, s: Snapshot) { HealthyForEvery(m, s) && MultiEvents(s.occs) == {} }

  /** And such a state no such process leaves. */
  lemma CleanForEveryStays(m: Matcher, ms: seq<Matcher>, run: seq<Snapshot>, same: (VenueId, VenueId) -> bool, clash: (VenueId, VenueId) -> bool, i: nat)
    requires AreCycles(ms, run, same, clash) && (forall m' <- ms :: Rewalks(m, m')) && CleanForEvery(m, run[0]) && i < |run|
    ensures run[i] == run[0]
  {
    var s := run[0];
    var still := x => x == s;
    forall j | 0 <= j < |run| - 1 ensures Runs.KeptAt(run, still, j) {
      CycleOfRun(ms, run, same, clash, j);
      assert ms[j] in ms;
    }
    Runs.Always(run, still, i);
  }

  lemma NothingShownIsHealthy(m: Matcher, s: Snapshot)
    requires |Combinations(s.occs)| == 0
    ensures Healthy(m, s)
  {
    forall p ensures !IsSafePair(m, s.occs, Titles(s.events), p) {
      if IsSafePair(m, s.occs, Titles(s.events), p) {
        var v := SafePairSharesVenue(m, s.occs, Titles(s.events), p);
        assert false;
      }
    }
  }

  ghost function CleanTest(m: Matcher): Snapshot -> bool { s => Clean(m, s) }

  lemma CyclesAlike(m: Matcher, ms: seq<Matcher>, run: seq<Snapshot>, same: (VenueId, VenueId) -> bool, clash: (VenueId, VenueId) -> bool)
    requires AreCycles(ms, run, same, clash) && forall m' <- ms :: m' == m
    ensures forall j | 0 <= j < |run| - 1 :: Runs.IdleIffDoneAt(run, CleanTest(m), j)
  {
    forall j | 0 <= j < |run| - 1 ensures Runs.IdleIffDoneAt(run, CleanTest(m), j) {
      assert ms[j] in ms;
      CycleOfRun(ms, run, same, clash, j);
    }
  }

  lemma CleanByThen(m: Matcher, run: seq<Snapshot>, i: nat)
    requires i < |run| && forall j | 0 <= j < |run| - 1 :: Runs.IdleIffDoneAt(run, CleanTest(m), j)
    requires Shown(run[i]) + Runs.Changes(run, i) <= Shown(run[0]) + 1 && Shown(run[0]) < i && MultiEvents(run[i].occs) == {}
    ensures Clean(m, run[i]) && (i + 1 < |run| ==> run[i + 1] == run[i])
  {
    Runs.ChangesComeFirst(run, CleanTest(m), i);
    if Runs.Changes(run, i) == i { NothingShownIsHealthy(m, run[i]); }
    if i + 1 < |run| { assert Runs.IdleIffDoneAt(run, CleanTest(m), i); }
  }

  /** If all cycles walk alike, they have reached a state clean for that walk within one cycle more than there
      are combinations of event and venue shown, and then change nothing. */
  lemma HealingConverges(m: Matcher, ms: seq<Matcher>, run: seq<Snapshot>, same: (VenueId, VenueId) -> bool, clash: (VenueId, VenueId) -> bool, i: nat)
    requires AreCycles(ms, run, same, clash) && (forall m' <- ms :: m' == m) && Shown(run[0]) < i < |run|
    ensures Clean(m, run[i]) && (i + 1 < |run| ==> run[i + 1] == run[i])
  {
    CyclesAlike(m, ms, run, same, clash);
    CyclesThatChange(ms, run, same, clash, i);
    CycleIsOneVenue(ms, run, same, clash, i);
    CleanByThen(m, run, i);
  }

  lemma CycleIsOneVenue(ms: seq<Matcher>, run: seq<Snapshot>, same: (VenueId, VenueId) -> bool, clash: (VenueId, VenueId) -> bool, i: nat)
    requires AreCycles(ms, run, same, clash) && 0 < i < |run|
    ensures MultiEvents(run[i].occs) == {}
  {
    assert CycleAt(ms, run, i - 1, same, clash);
    CycleShrinks(ms[i - 1], run[i - 1], run[i], same, clash);
  }

  // ----- the cycle on the tables -----

  lemma RowsKeepEvents(occs: map<nat, Occ>, merges: seq<Pair<EventId>>, events: map<EventId, Event>)
    requires IsPlan(merges) && (forall i | i in occs :: occs[i].event in events) && forall p <- merges :: p.1 in events
    ensures forall i | i in OccsFolded(occs, merges) :: OccsFolded(occs, merges)[i].event in events - Duplicates(merges)
  {
    var folded := OccsFolded(occs, merges);
    forall i | i in folded ensures folded[i].event in events - Duplicates(merges) {
      var e, x := folded[i].event, Showing(folded[i].venue, folded[i].start);
      assert HasShowing(folded, e, x);
      CoverageConserved(occs, merges, e, x);
      DuplicatesAre(merges, e);
      if !HasShowing(occs, e, x) {
        var k :| 0 <= k < |merges| && merges[k].1 == e && HasShowing(occs, merges[k].0, x);
        assert merges[k] in merges;
      }
    }
  }

  lemma SourcesKeepEvents(sources: map<nat, Source>, merges: seq<Pair<EventId>>, events: map<EventId, Event>)
    requires IsPlan(merges) && (forall i | i in sources :: sources[i].event in events) && forall p <- merges :: p.1 in events
    ensures forall i | i in SourcesFolded(sources, merges) :: SourcesFolded(sources, merges)[i].event in events - Duplicates(merges)
  {
    var folded := SourcesFolded(sources, merges);
    SourcesFoldedKeys(sources, merges);
    forall i | i in folded ensures folded[i].event in events - Duplicates(merges) {
      SourcesConserved(sources, merges, i);
      DuplicatesAre(merges, folded[i].event);
      if IsDuplicate(merges, sources[i].event) {
        var k :| 0 <= k < |merges| && merges[k] == (sources[i].event, folded[i].event);
        assert merges[k] in merges;
      }
    }
  }

  lemma RoundKeepsForeignKeys(m: Matcher, s: Snapshot, edges: set<Pair<EventId>>, merges: seq<Pair<EventId>>)
    requires KeysHold(s) && IsRoundPlan(m, s, false, None, edges, merges) && UniqueKey(Applied(s, merges).occs)
    ensures KeysHold(Applied(s, merges))
  {
    UnionPairsAreEvents(m, s, false, None, edges);
    forall p | p in merges ensures p.1 in s.events { assert p.1 in Nodes(edges); }
    RowsKeepEvents(s.occs, merges, s.events);
    SourcesKeepEvents(s.sources, merges, s.events);
  }

  /** The scheduled flow: the unattended merge, then the resplit, both applied. */
  method HealOnce(db: Db, m: Matcher, near: (VenueId, VenueId) -> bool, ratio: (string, string) -> real, names: map<VenueId, string>)
    requires KeysHold(Now(db))
    modifies db`occs, db`sources, db`events
    ensures Cycle(m, old(Now(db)), Now(db), OnePlace(near, ratio, names), NamesClash(names))
  {
    ghost var s := Now(db);
    ghost var edges, merges := MergeDuplicateEvents(db, m, true, false, None);
    ghost var mid := Now(db);
    RoundKeepsForeignKeys(m, s, edges, merges);
    assert Round(m, s, mid);
    ghost var plans := Resplit.Resplit(db, near, ratio, names, true);
    assert ResplitTo(mid, Now(db), OnePlace(near, ratio, names), NamesClash(names));
  }
}
