/** The scheduled self-heal flow: merge the venues, merge the events, resplit.  Repeated, it settles. */
module HealingFlow {
  import opened Collections
  import opened Ids
  import opened UnionFind
  import opened Repoint
  import opened ClusterFolds
  import opened Tables
  import opened TitleMatch
  import opened VenueClusters
  import opened VenueQuery
  import VenueMerge
  import VenuePass
  import opened PlaceClusters
  import opened ResplitPass
  import opened Healing
  import Runs

  /** The venue pass with this merge list. */
  ghost predicate VenuesMerged(w: Catalogue, pairs: seq<Pair<VenueId>>, mid: Snapshot, venues: set<VenueId>) {
    && IsPlan(pairs) && (forall p <- pairs :: p.0 in w.venues)
    && mid == Snapshot(VenueMerge.OccsFolded(w.tables.occs, pairs), w.tables.sources, w.tables.events)
    && venues == w.venues - VenueMerge.Duplicates(pairs)
  }

  /** What no run changes: the columns of the venues, the ratio of their names, and the tests of the resplit. */
  datatype Setting = Setting(g: Gazetteer, ratio: (string, string) -> real, same: (VenueId, VenueId) -> bool, clash: (VenueId, VenueId) -> bool)

  /** The venue pass planned these merges from these answers to its queries. */
  ghost predicate PlannedBy(g: Gazetteer, ratio: (string, string) -> real, m: Matcher, w: Catalogue, rows: seq<Candidate>, pairs: seq<Pair<VenueId>>) {
    AreRows(g, m, w, rows) && exists accepted :: IsVenuePlan(Located(g, w), ratio, rows, accepted, pairs)
  }

  ghost predicate FlowBy(k: Setting, m: Matcher, pairs: seq<Pair<VenueId>>, w: Catalogue, w': Catalogue) {
    exists mid :: VenuesMerged(w, pairs, mid, w'.venues) && Cycle(m, mid, w'.tables, k.same, k.clash)
  }

  /** One run of the flow. */
  ghost predicate Flow(k: Setting, m: Matcher, rows: seq<Candidate>, w: Catalogue, w': Catalogue) {
    exists pairs :: PlannedBy(k.g, k.ratio, m, w, rows, pairs) && FlowBy(k, m, pairs, w, w')
  }

  /** Some candidate pair carries evidence that it is one place. */
  ghost predicate AnyEvidence(k: Setting, w: Catalogue, rows: seq<Candidate>) {
    exists c <- rows :: c.a in Located(k.g, w) && c.b in Located(k.g, w) && Evidence(Located(k.g, w), k.ratio, c)
  }

  /** Nothing left for any of the three passes. */
  ghost predicate Settled(k: Setting, m: Matcher, rows: seq<Candidate>, w: Catalogue) { !AnyEvidence(k, w, rows) && Clean(m, w.tables) }

  lemma PlanHasPairsIff(k: Setting, m: Matcher, w: Catalogue, rows: seq<Candidate>, pairs: seq<Pair<VenueId>>)
    requires PlannedBy(k.g, k.ratio, m, w, rows, pairs)
    ensures pairs != [] <==> AnyEvidence(k, w, rows)
  {
    var accepted :| IsVenuePlan(Located(k.g, w), k.ratio, rows, accepted, pairs);
    VenuePass.MergesIffEvidence(Located(k.g, w), k.ratio, rows, accepted, pairs);
  }

  // ----- what a venue merge does to the combinations -----

  function HomeVenue(v: Option<VenueId>, home: VenueId -> VenueId): Option<VenueId> {
    if v.Some? then Some(home(v.value)) else None
  }

  lemma BookingComesHome(occs: map<nat, Occ>, pairs: seq<Pair<VenueId>>, y: Combination)
    requires IsPlan(pairs) && y in Combinations(VenueMerge.OccsFolded(occs, pairs))
    ensures exists x <- Combinations(occs) :: (x.0, HomeVenue(x.1, v => Home(pairs, v))) == y
  {
    var folded := VenueMerge.OccsFolded(occs, pairs);
    var i :| i in folded && (folded[i].event, folded[i].venue) == y;
    var b := Booking(folded[i].event, folded[i].start);
    assert VenueMerge.HasBooking(folded, y.1, b);
    var from := BookingCameFrom(occs, pairs, y.1, b);
    var j :| j in occs && occs[j].venue == from && occs[j].event == b.event && occs[j].start == b.start;
    assert (y.0, from) in Combinations(occs);
  }

  lemma BookingCameFrom(occs: map<nat, Occ>, pairs: seq<Pair<VenueId>>, v: Option<VenueId>, b: Booking) returns (from: Option<VenueId>)
    requires IsPlan(pairs) && VenueMerge.HasBooking(VenueMerge.OccsFolded(occs, pairs), v, b)
    ensures VenueMerge.HasBooking(occs, from, b) && HomeVenue(from, u => Home(pairs, u)) == v
  {
    if v.None? {
      VenueMerge.CoverageConserved(occs, pairs, VenueId(0), b);
      from := None;
    } else {
      VenueMerge.CoverageConserved(occs, pairs, v.value, b);
      if VenueMerge.HasBooking(occs, v, b) {
        forall i | 0 <= i < |pairs| ensures pairs[i].0 != v.value { assert pairs[i] in pairs; }
        HomeOfOthers(pairs, v.value);
        from := v;
      } else {
        var i :| 0 <= i < |pairs| && pairs[i].1 == v.value && VenueMerge.HasBooking(occs, Some(pairs[i].0), b);
        assert (pairs[i].0, v.value) in pairs;
        HomeOfDuplicate(pairs, pairs[i].0, v.value);
        from := Some(pairs[i].0);
      }
    }
  }

  lemma VenueMergeKeepsCombinations(occs: map<nat, Occ>, pairs: seq<Pair<VenueId>>)
    requires IsPlan(pairs)
    ensures |Combinations(VenueMerge.OccsFolded(occs, pairs))| <= |Combinations(occs)|
  {
    var home := (x: Combination) => (x.0, HomeVenue(x.1, v => Home(pairs, v)));
    var before, after := Combinations(occs), Combinations(VenueMerge.OccsFolded(occs, pairs));
    forall y | y in after ensures exists x <- before :: home(x) == y { BookingComesHome(occs, pairs, y); }
    ImageSize(before, after, home);
  }

  // ----- the flow repeated -----

  ghost function Weight(w: Catalogue): nat { |Combinations(w.tables.occs)| + |w.venues| }

  lemma VenueStepShrinks(w: Catalogue, pairs: seq<Pair<VenueId>>, mid: Snapshot, venues: set<VenueId>)
    requires VenuesMerged(w, pairs, mid, venues)
    ensures |Combinations(mid.occs)| <= |Combinations(w.tables.occs)| && |venues| <= |w.venues|
    ensures pairs != [] ==> |venues| < |w.venues|
    ensures pairs == [] ==> mid == w.tables
  {
    VenueMergeKeepsCombinations(w.tables.occs, pairs);
    SubsetSize(venues, w.venues);
    if pairs != [] {
      var p := pairs[0];
      assert p in pairs && p.0 in w.venues && p.0 !in venues;
      SubsetSize(venues, w.venues - {p.0});
    }
  }

  lemma PartsShrink(k: Setting, m: Matcher, pairs: seq<Pair<VenueId>>, w: Catalogue, w': Catalogue)
    requires FlowBy(k, m, pairs, w, w')
    ensures MultiEvents(w'.tables.occs) == {} && Weight(w') <= Weight(w)
    ensures MultiEvents(w.tables.occs) == {} && (pairs != [] || !Clean(m, w.tables)) ==> Weight(w') < Weight(w)
    ensures pairs == [] && Clean(m, w.tables) ==> w' == w
  {
    var mid :| VenuesMerged(w, pairs, mid, w'.venues) && Cycle(m, mid, w'.tables, k.same, k.clash);
    VenueStepShrinks(w, pairs, mid, w'.venues);
    CycleShrinks(m, mid, w'.tables, k.same, k.clash);
    if pairs == [] && Clean(m, w.tables) {
      assert VenueMerge.Duplicates([]) == {};
      CleanIsFixed(m, mid, w'.tables, k.same, k.clash);
    }
  }

  lemma MergeDropsVenues(k: Setting, m: Matcher, pairs: seq<Pair<VenueId>>, w: Catalogue, w': Catalogue)
    requires FlowBy(k, m, pairs, w, w') && pairs != []
    ensures w'.venues != w.venues
  {
    assert pairs[0] in pairs && pairs[0].0 in VenueMerge.Duplicates(pairs);
  }

  /** A run changes the catalogue exactly when a candidate pair carries evidence or the events are not clean, and
      once no event is over several venues each change costs a venue or a combination. */
  lemma FlowIsIdleIff(k: Setting, m: Matcher, rows: seq<Candidate>, w: Catalogue, w': Catalogue)
    requires Flow(k, m, rows, w, w')
    ensures w' == w <==> Settled(k, m, rows, w)
    ensures MultiEvents(w'.tables.occs) == {} && Weight(w') <= Weight(w)
    ensures MultiEvents(w.tables.occs) == {} ==> Runs.FallsOrStays(w, w', Weight)
  {
    var pairs :| PlannedBy(k.g, k.ratio, m, w, rows, pairs) && FlowBy(k, m, pairs, w, w');
    PlanHasPairsIff(k, m, w, rows, pairs);
    PartsShrink(k, m, pairs, w, w');
    if pairs != [] { MergeDropsVenues(k, m, pairs, w, w'); }
  }

  ghost predicate FlowAt(k: Setting, ms: seq<Matcher>, rowses: seq<seq<Candidate>>, run: seq<Catalogue>, i: nat)
    requires i < |ms| && i < |rowses| && i + 1 < |run|
  {
    Flow(k, ms[i], rowses[i], run[i], run[i + 1])
  }

  /** Every run of the flow is a process of its own and queries anew. */
  ghost predicate AreFlows(k: Setting, ms: seq<Matcher>, rowses: seq<seq<Candidate>>, run: seq<Catalogue>) {
    |run| == |ms| + 1 == |rowses| + 1 && forall i | 0 <= i < |ms| :: FlowAt(k, ms, rowses, run, i)
  }

  lemma FlowOfRun(k: Setting, ms: seq<Matcher>, rowses: seq<seq<Candidate>>, run: seq<Catalogue>, i: nat)
    requires AreFlows(k, ms, rowses, run) && i < |ms|
    ensures Runs.IdleIffDoneAt(run, w => Settled(k, ms[i], rowses[i], w), i)
    ensures Weight(run[i + 1]) <= Weight(run[i]) && (i > 0 ==> Runs.FallsOrStaysAt(run, Weight, i))
  {
    assert FlowAt(k, ms, rowses, run, i);
    FlowIsIdleIff(k, ms[i], rowses[i], run[i], run[i + 1]);
    if i > 0 {
      assert FlowAt(k, ms, rowses, run, i - 1);
      FlowIsIdleIff(k, ms[i - 1], rowses[i - 1], run[i - 1], run[i]);
    }
  }

  /** However every process walks its sets and whichever rows its queries sample, at most one run more than
      there are venues and combinations of event and venue shown changes anything. */
  lemma FlowsThatChange(k: Setting, ms: seq<Matcher>, rowses: seq<seq<Candidate>>, run: seq<Catalogue>, i: nat)
    requires AreFlows(k, ms, rowses, run) && i < |run|
    ensures Weight(run[i]) + Runs.Changes(run, i) <= Weight(run[0]) + 1
  {
    forall j | 0 <= j < |run| - 1
      ensures Weight(run[j + 1]) <= Weight(run[j]) && (j > 0 ==> Runs.FallsOrStaysAt(run, Weight, j))
    {
      FlowOfRun(k, ms, rowses, run, j);
    }
    Runs.LaterChangesAreFew(run, Weight, i);
  }

  /** The i-th of flows without end. */
  ghost predicate FlowsOn(k: Setting, ms: nat -> Matcher, rowses: nat -> seq<Candidate>, run: nat -> Catalogue, i: nat) {
    Flow(k, ms(i), rowses(i), run(i), run(i + 1))
  }

  lemma FlowOfMany(k: Setting, ms: nat -> Matcher, rowses: nat -> seq<Candidate>, run: nat -> Catalogue, i: nat)
    requires forall j: nat :: FlowsOn(k, ms, rowses, run, j)
    ensures run(i + 1) == run(i) <==> Settled(k, ms(i), rowses(i), run(i))
    ensures i > 0 ==> Runs.FallsOrStays(run(i), run(i + 1), Weight)
  {
    assert FlowsOn(k, ms, rowses, run, i);
    FlowIsIdleIff(k, ms(i), rowses(i), run(i), run(i + 1));
    if i > 0 {
      assert FlowsOn(k, ms, rowses, run, i - 1);
      FlowIsIdleIff(k, ms(i - 1), rowses(i - 1), run(i - 1), run(i));
    }
  }

  /** Repeated without end the flow comes to a catalogue that no later run changes: none finds a candidate pair
      with evidence, a safe pair of events, or an event over several venues. */
  lemma EveryFlowSettles(k: Setting, ms: nat -> Matcher, rowses: nat -> seq<Candidate>, run: nat -> Catalogue) returns (n: nat)
    requires forall j: nat :: FlowsOn(k, ms, rowses, run, j)
    ensures forall j: nat | j >= n :: run(j) == run(n) && Settled(k, ms(j), rowses(j), run(n))
  {
    forall j: nat | j >= 1 ensures Runs.FallsOrStays(run(j), run(j + 1), Weight) { FlowOfMany(k, ms, rowses, run, j); }
    n := Runs.Settles(run, Weight, 1);
    forall j: nat | j >= n ensures Settled(k, ms(j), rowses(j), run(n)) {
      assert run(j) == run(n) && run(j + 1) == run(n);
      FlowOfMany(k, ms, rowses, run, j);
    }
  }

  /** Nothing left for any process with this ratio, whichever rows its queries sample. */
  ghost predicate SettledForEvery(k: Setting, m: Matcher, w: Catalogue) {
    forall m', rows | Rewalks(m, m') && AreRows(k.g, m', w, rows) :: Settled(k, m', rows, w)
  }

  lemma FlowListsRows(k: Setting, m: Matcher, rows: seq<Candidate>, w: Catalogue, w': Catalogue)
    requires Flow(k, m, rows, w, w')
    ensures AreRows(k.g, m, w, rows)
  {}

  /** And such a catalogue no such process changes. */
  lemma SettledForEveryStays(k: Setting, m: Matcher, ms: seq<Matcher>, rowses: seq<seq<Candidate>>, run: seq<Catalogue>, i: nat)
    requires AreFlows(k, ms, rowses, run) && (forall m' <- ms :: Rewalks(m, m')) && SettledForEvery(k, m, run[0]) && i < |run|
    ensures run[i] == run[0]
  {
    var w := run[0];
    var still := x => x == w;
    forall j | 0 <= j < |run| - 1 ensures Runs.KeptAt(run, still, j) {
      assert FlowAt(k, ms, rowses, run, j) && ms[j] in ms;
      FlowOfRun(k, ms, rowses, run, j);
      FlowListsRows(k, ms[j], rowses[j], run[j], run[j + 1]);
    }
    Runs.Always(run, still, i);
  }

  /** All runs walk alike, and their queries answer alike on equal catalogues. */
  ghost predicate RunAlike(m: Matcher, answer: Catalogue -> seq<Candidate>, ms: seq<Matcher>, rowses: seq<seq<Candidate>>, run: seq<Catalogue>) {
    |ms| == |rowses| <= |run| && forall j | 0 <= j < |ms| :: ms[j] == m && rowses[j] == answer(run[j])
  }

  ghost function SettledTest(k: Setting, m: Matcher, answer: Catalogue -> seq<Candidate>): Catalogue -> bool {
    w => Settled(k, m, answer(w), w)
  }

  lemma OneTestDecides(k: Setting, m: Matcher, answer: Catalogue -> seq<Candidate>, ms: seq<Matcher>, rowses: seq<seq<Candidate>>,
                       run: seq<Catalogue>, j: nat)
    requires AreFlows(k, ms, rowses, run) && RunAlike(m, answer, ms, rowses, run) && j + 1 < |run|
    ensures Runs.IdleIffDoneAt(run, SettledTest(k, m, answer), j)
  {
    FlowOfRun(k, ms, rowses, run, j);
  }

  /** Then more runs than there were venues and combinations of event and venue shown leave nothing to any pass. */
  lemma FlowSettles(k: Setting, m: Matcher, answer: Catalogue -> seq<Candidate>, ms: seq<Matcher>, rowses: seq<seq<Candidate>>,
                    run: seq<Catalogue>, i: nat)
    requires AreFlows(k, ms, rowses, run) && RunAlike(m, answer, ms, rowses, run) && Weight(run[0]) < i && i + 1 < |run|
    ensures Settled(k, m, answer(run[i]), run[i]) && run[i + 1] == run[i]
  {
    var settled := SettledTest(k, m, answer);
    forall j | 0 <= j < |run| - 1 ensures Runs.IdleIffDoneAt(run, settled, j) { OneTestDecides(k, m, answer, ms, rowses, run, j); }
    FlowsThatChange(k, ms, rowses, run, i + 1);
    Runs.DoneByThen(run, settled, i);
  }

  // ----- the flow on the tables -----

  /** `_merge_venues_impl`: the candidate query, and the venue pass on its rows. */
  method MergeVenues(db: Db, m: Matcher, g: Gazetteer, ratio: (string, string) -> real) returns (ghost rows: seq<Candidate>, ghost pairs: seq<Pair<VenueId>>)
    requires KeysHold(Now(db))
    modifies db`occs, db`candidates, db`venues
    ensures var w := old(Catalogue(Now(db), db.venues));
      PlannedBy(g, ratio, m, w, rows, pairs) && VenuesMerged(w, pairs, Now(db), db.venues)
    ensures KeysHold(Now(db)) && db.candidates == VenueMerge.CandidatesFolded(old(db.candidates), pairs)
  {
    var w := Catalogue(Snapshot(db.occs, db.sources, db.events), db.venues);
    var candidates := CandidateRows(g, m, w);
    rows := candidates;
    ghost var accepted;
    accepted, pairs := VenuePass.MergeFuzzyVenues(db, Located(g, w), ratio, candidates, true);
    DuplicatesAreVenues(Located(g, w), ratio, rows, accepted, pairs, w.venues);
    VenueMergeKeepsKeys(w.tables, pairs);
  }

  /** `self_heal_dedup`. */
  method SelfHealDedup(db: Db, m: Matcher, g: Gazetteer, ratio: (string, string) -> real, near: (VenueId, VenueId) -> bool, names: map<VenueId, string>)
      returns (ghost rows: seq<Candidate>)
    requires KeysHold(Now(db))
    modifies db`occs, db`sources, db`candidates, db`events, db`venues
    ensures Flow(Setting(g, ratio, OnePlace(near, ratio, names), NamesClash(names)), m, rows,
                 old(Catalogue(Now(db), db.venues)), Catalogue(Now(db), db.venues))
  {
    ghost var k, w := Setting(g, ratio, OnePlace(near, ratio, names), NamesClash(names)), Catalogue(Now(db), db.venues);
    ghost var pairs;
    rows, pairs := MergeVenues(db, m, g, ratio);
    HealOnce(db, m, near, ratio, names);
    assert FlowBy(k, m, pairs, w, Catalogue(Now(db), db.venues));
  }

  lemma DuplicatesAreVenues(venues: map<VenueId, Venue>, ratio: (string, string) -> real, rows: seq<Candidate>,
                            accepted: set<Pair<VenueId>>, pairs: seq<Pair<VenueId>>, known: set<VenueId>)
    requires (forall c <- rows :: c.a in venues && c.b in venues) && IsVenuePlan(venues, ratio, rows, accepted, pairs) && venues.Keys <= known
    ensures IsPlan(pairs) && forall p <- pairs :: p.0 in known
  {
    MergesArePlan(pairs, accepted, ByOccurrences(venues));
    forall p | p in pairs ensures p.0 in known {
      assert p.0 in Nodes(accepted);
      forall e | e in Edges(Asked(venues, ratio, rows)) ensures e.0 in venues && e.1 in venues { AskedAreVenues(venues, ratio, rows, e); }
    }
  }

  lemma {:induction false} VenueMergeKeepsEvents(occs: map<nat, Occ>, pairs: seq<Pair<VenueId>>, i: nat)
    requires i in VenueMerge.OccsFolded(occs, pairs)
    ensures i in occs && VenueMerge.OccsFolded(occs, pairs)[i].event == occs[i].event
  {
    if pairs != [] { VenueMergeKeepsEvents(occs, pairs[..|pairs| - 1], i); }
  }

  lemma VenueMergeKeepsKeys(s: Snapshot, pairs: seq<Pair<VenueId>>)
    requires KeysHold(s) && UniqueKey(VenueMerge.OccsFolded(s.occs, pairs))
    ensures KeysHold(Snapshot(VenueMerge.OccsFolded(s.occs, pairs), s.sources, s.events))
  {
    forall i | i in VenueMerge.OccsFolded(s.occs, pairs) ensures VenueMerge.OccsFolded(s.occs, pairs)[i].event in s.events {
      VenueMergeKeepsEvents(s.occs, pairs, i);
    }
  }
}
