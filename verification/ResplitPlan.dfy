/** What one resplit does to the rows of an event, stated on table values, and why it keeps the key. */
module ResplitPlan {
  import opened Collections
  import opened Ids
  import opened MergePlan
  import opened Tables
  import opened PlaceClusters

  // ----- the plan for one event -----

  /** Where a row of the event goes: the place of its venue, and its start. */
  datatype Slot = Slot(place: VenueId, start: Instant)

  /** For each place (named by a venue) its canonical venue and the event that keeps it. */
  datatype Plan = Plan(place: map<VenueId, VenueId>, canon: map<VenueId, VenueId>, target: map<VenueId, EventId>, primary: VenueId)

  predicate InScope(o: Occ, eid: EventId) { o.event == eid && o.venue.Some? }

  ghost predicate VenuesPlaced(occs: map<nat, Occ>, eid: EventId, p: Plan) {
    && (forall i | i in occs && InScope(occs[i], eid) :: occs[i].venue.value in p.place)
    && (forall v <- p.place :: p.place[v] in p.canon && p.place[v] in p.target)
    && (forall k <- p.canon :: p.canon[k] in p.place && p.place[p.canon[k]] == k)
    && p.canon.Keys == p.target.Keys && p.primary in p.target
  }

  /** The primary place stays on the event; every other place gets a copy of its own, which no row uses yet. */
  ghost predicate TargetsFresh(occs: map<nat, Occ>, eid: EventId, p: Plan) {
    && p.primary in p.target && p.target[p.primary] == eid
    && (forall k, l | k in p.target && l in p.target && p.target[k] == p.target[l] :: k == l)
    && (forall k, i | k in p.target && k != p.primary && i in occs :: occs[i].event != p.target[k])
  }

  ghost predicate GoodPlan(occs: map<nat, Occ>, eid: EventId, p: Plan) {
    VenuesPlaced(occs, eid, p) && TargetsFresh(occs, eid, p)
  }

  function SlotOf(p: Plan, o: Occ): Slot
    requires o.venue.Some? && o.venue.value in p.place
  {
    Slot(p.place[o.venue.value], o.start)
  }

  ghost predicate InSlot(occs: map<nat, Occ>, eid: EventId, p: Plan, i: nat, s: Slot) {
    i in occs && InScope(occs[i], eid) && occs[i].venue.value in p.place && SlotOf(p, occs[i]) == s
  }

  /** The lowest row number of a slot survives. */
  ghost predicate Survives(occs: map<nat, Occ>, eid: EventId, p: Plan, i: nat) {
    && i in occs && InScope(occs[i], eid) && occs[i].venue.value in p.place
    && forall j | InSlot(occs, eid, p, j, SlotOf(p, occs[i])) :: i <= j
  }

  function Retargeted(p: Plan, o: Occ): Occ
    requires o.venue.Some? && o.venue.value in p.place && p.place[o.venue.value] in p.canon && p.place[o.venue.value] in p.target
  {
    o.(event := p.target[p.place[o.venue.value]], venue := Some(p.canon[p.place[o.venue.value]]))
  }

  /** The table once the slots in `done` have been collapsed. */
  ghost function Collapsed(occs: map<nat, Occ>, eid: EventId, p: Plan, done: set<Slot>): map<nat, Occ>
    requires VenuesPlaced(occs, eid, p)
  {
    map i | i in occs && (InScope(occs[i], eid) && SlotOf(p, occs[i]) in done ==> Survives(occs, eid, p, i)) ::
      if InScope(occs[i], eid) && SlotOf(p, occs[i]) in done then Retargeted(p, occs[i]) else occs[i]
  }

  /** The unique key holds whatever slots have been collapsed: no collapsed row can meet another
      collapsed row, and none can meet a row that still waits. */
  lemma CollapsedKeepsKey(occs: map<nat, Occ>, eid: EventId, p: Plan, done: set<Slot>)
    requires UniqueKey(occs) && GoodPlan(occs, eid, p)
    ensures UniqueKey(Collapsed(occs, eid, p, done))
  {
    var t := Collapsed(occs, eid, p, done);
    forall i, j | i in t && j in t && t[i].event == t[j].event && t[i].start == t[j].start && Coalesce(t[i].venue) == Coalesce(t[j].venue)
      ensures i == j
    {
      var di := InScope(occs[i], eid) && SlotOf(p, occs[i]) in done;
      var dj := InScope(occs[j], eid) && SlotOf(p, occs[j]) in done;
      if di && dj {
        assert SlotOf(p, occs[i]) == SlotOf(p, occs[j]);
        assert InSlot(occs, eid, p, j, SlotOf(p, occs[i])) && InSlot(occs, eid, p, i, SlotOf(p, occs[j]));
      } else if di {
        CollapsedMeetsNoWaiting(occs, eid, p, i, j);
      } else if dj {
        CollapsedMeetsNoWaiting(occs, eid, p, j, i);
      }
    }
  }

  lemma CollapsedMeetsNoWaiting(occs: map<nat, Occ>, eid: EventId, p: Plan, i: nat, j: nat)
    requires GoodPlan(occs, eid, p) && i in occs && j in occs && InScope(occs[i], eid)
    requires var o := Retargeted(p, occs[i]); o.event == occs[j].event && o.start == occs[j].start && Coalesce(o.venue) == Coalesce(occs[j].venue)
    ensures InScope(occs[j], eid) && SlotOf(p, occs[j]) == SlotOf(p, occs[i])
  {
    var k := p.place[occs[i].venue.value];
    assert k == p.primary;
    assert occs[j].venue == Some(p.canon[k]);
  }

  lemma SlotCollapses(occs: map<nat, Occ>, eid: EventId, p: Plan, done: set<Slot>, s: Slot, oids: set<nat>, survivor: nat)
    requires VenuesPlaced(occs, eid, p) && s !in done
    requires forall i :: i in oids <==> InSlot(occs, eid, p, i, s)
    requires survivor in oids && forall i <- oids :: survivor <= i
    ensures s.place in p.target && s.place in p.canon
    ensures var t := Collapsed(occs, eid, p, done) - (oids - {survivor});
      survivor in t && t[survivor := t[survivor].(event := p.target[s.place], venue := Some(p.canon[s.place]))]
        == Collapsed(occs, eid, p, done + {s})
  {
    var t := Collapsed(occs, eid, p, done);
    var t' := Collapsed(occs, eid, p, done + {s});
    forall i | i in occs
      ensures i in oids ==> i in t && t[i] == occs[i]
      ensures i in oids ==> (i in t' <==> i == survivor)
      ensures i !in oids ==> (i in t <==> i in t')
      ensures i !in oids && i in t ==> t[i] == t'[i]
    {
      if i in oids {
        assert InSlot(occs, eid, p, i, s) && InSlot(occs, eid, p, survivor, s);
      } else if InScope(occs[i], eid) {
        assert SlotOf(p, occs[i]) != s;
      }
    }
  }

  // ----- one event -----

  ghost function AllSlots(occs: map<nat, Occ>, eid: EventId, p: Plan): set<Slot>
    requires VenuesPlaced(occs, eid, p)
  {
    set i | i in occs && InScope(occs[i], eid) :: SlotOf(p, occs[i])
  }

  ghost function Resplitted(occs: map<nat, Occ>, eid: EventId, p: Plan): map<nat, Occ>
    requires VenuesPlaced(occs, eid, p)
  {
    Collapsed(occs, eid, p, AllSlots(occs, eid, p))
  }

  /** A source moves to the split whose occurrence carried its URL; the others stay. */
  ghost function SourcesMoved(sources: map<nat, Source>, eid: EventId, p: Plan, byUrl: map<string, VenueId>): map<nat, Source> {
    map i | i in sources :: MovedSource(sources[i], eid, p, byUrl)
  }

  function MovedSource(src: Source, eid: EventId, p: Plan, byUrl: map<string, VenueId>): Source {
    if src.event == eid && src.url in byUrl && byUrl[src.url] != p.primary && byUrl[src.url] in p.target
    then src.(event := p.target[byUrl[src.url]]) else src
  }

  /** The URL index names, for each URL of a row in scope, the place of such a row. */
  ghost predicate UrlIndex(byUrl: map<string, VenueId>, occs: map<nat, Occ>, rows: set<nat>, eid: EventId, place: map<VenueId, VenueId>) {
    && rows <= occs.Keys && "" !in byUrl
    && (forall i <- rows :: InScope(occs[i], eid) && occs[i].venue.value in place)
    && (forall i <- rows :: occs[i].url != "" ==> occs[i].url in byUrl)
    && (forall u <- byUrl :: exists i :: i in rows && occs[i].url == u && place[occs[i].venue.value] == byUrl[u])
  }

  ghost predicate SlotIndex(groups: map<Slot, set<nat>>, occs: map<nat, Occ>, rows: set<nat>, eid: EventId, p: Plan) {
    && rows <= occs.Keys
    && (forall i <- rows :: InScope(occs[i], eid) && occs[i].venue.value in p.place)
    && (forall i <- rows :: SlotOf(p, occs[i]) in groups && i in groups[SlotOf(p, occs[i])])
    && (forall s, i | s in groups && i in groups[s] :: i in rows && SlotOf(p, occs[i]) == s)
    && (forall s <- groups :: groups[s] != {})
  }

  function ScopeRows(occs: map<nat, Occ>, eid: EventId): set<nat> {
    set i | i in occs && InScope(occs[i], eid)
  }

  lemma SlotIndexAdd(groups: map<Slot, set<nat>>, occs: map<nat, Occ>, rows: set<nat>, eid: EventId, p: Plan, i: nat)
    requires SlotIndex(groups, occs, rows, eid, p) && i in occs && InScope(occs[i], eid) && occs[i].venue.value in p.place
    ensures var s := SlotOf(p, occs[i]);
      SlotIndex(groups[s := (if s in groups then groups[s] else {}) + {i}], occs, rows + {i}, eid, p)
  {
    var s := SlotOf(p, occs[i]);
    assert i in groups[s := (if s in groups then groups[s] else {}) + {i}][s];
  }

  lemma UrlIndexAdd(byUrl: map<string, VenueId>, occs: map<nat, Occ>, rows: set<nat>, eid: EventId, place: map<VenueId, VenueId>, i: nat)
    requires UrlIndex(byUrl, occs, rows, eid, place) && i in occs && InScope(occs[i], eid) && occs[i].venue.value in place
    ensures var u := occs[i].url;
      UrlIndex(if u != "" && u !in byUrl then byUrl[u := place[occs[i].venue.value]] else byUrl, occs, rows + {i}, eid, place)
  {
    var u := occs[i].url;
    var byUrl' := if u != "" && u !in byUrl then byUrl[u := place[occs[i].venue.value]] else byUrl;
    forall v | v in byUrl'
      ensures exists j :: j in rows + {i} && occs[j].url == v && place[occs[j].venue.value] == byUrl'[v]
    {
      if v in byUrl {
        var j :| j in rows && occs[j].url == v && place[occs[j].venue.value] == byUrl[v];
        assert j in rows + {i};
      } else {
        assert i in rows + {i};
      }
    }
  }

  lemma NothingCollapsed(occs: map<nat, Occ>, eid: EventId, p: Plan)
    requires VenuesPlaced(occs, eid, p)
    ensures Collapsed(occs, eid, p, {}) == occs
  {}

  lemma SlotIndexCovers(groups: map<Slot, set<nat>>, occs: map<nat, Occ>, rows: set<nat>, eid: EventId, p: Plan)
    requires VenuesPlaced(occs, eid, p) && SlotIndex(groups, occs, rows, eid, p)
    requires rows == ScopeRows(occs, eid)
    ensures groups.Keys == AllSlots(occs, eid, p)
  {
    forall s | s in groups ensures s in AllSlots(occs, eid, p) {
      var i :| i in groups[s];
      assert i in rows;
    }
  }

  lemma SlotIndexMeans(groups: map<Slot, set<nat>>, occs: map<nat, Occ>, rows: set<nat>, eid: EventId, p: Plan)
    requires VenuesPlaced(occs, eid, p) && SlotIndex(groups, occs, rows, eid, p)
    requires rows == ScopeRows(occs, eid)
    ensures forall s <- groups :: groups[s] != {}
    ensures forall s, i | s in groups :: i in groups[s] <==> InSlot(occs, eid, p, i, s)
  {}

  // ----- what one event's pass achieves -----

  /** All rows of e that have a venue have the same one. */
  ghost predicate OneVenue(occs: map<nat, Occ>, e: EventId) {
    forall i, j | i in occs && j in occs && InScope(occs[i], e) && InScope(occs[j], e) :: occs[i].venue == occs[j].venue
  }

  /** Rows without a venue and rows of other events are untouched, and no row appears. */
  lemma ResplitTouchesOnlyScope(occs: map<nat, Occ>, eid: EventId, p: Plan)
    requires GoodPlan(occs, eid, p)
    ensures Resplitted(occs, eid, p).Keys <= occs.Keys
    ensures forall i | i in occs && !InScope(occs[i], eid) :: i in Resplitted(occs, eid, p) && Resplitted(occs, eid, p)[i] == occs[i]
  {}

  /** Every showing of the event survives exactly once: at its place's canonical venue, on its place's
      event, under the lowest row number it had. */
  lemma EachShowingSurvivesOnce(occs: map<nat, Occ>, eid: EventId, p: Plan, i: nat) returns (j: nat)
    requires VenuesPlaced(occs, eid, p) && i in occs && InScope(occs[i], eid)
    ensures j in Resplitted(occs, eid, p) && j <= i && InSlot(occs, eid, p, j, SlotOf(p, occs[i]))
    ensures Resplitted(occs, eid, p)[j] == Retargeted(p, occs[j])
    ensures forall k | k in Resplitted(occs, eid, p) && InSlot(occs, eid, p, k, SlotOf(p, occs[i])) :: k == j
  {
    var s := SlotOf(p, occs[i]);
    assert s in AllSlots(occs, eid, p);
    assert InSlot(occs, eid, p, i, s);
    j := LowestInSlot(occs, eid, p, s, i);
    assert Survives(occs, eid, p, j);
    forall k | k in Resplitted(occs, eid, p) && InSlot(occs, eid, p, k, s)
      ensures k == j
    {
      assert Survives(occs, eid, p, k) && InSlot(occs, eid, p, j, SlotOf(p, occs[k]));
    }
  }

  lemma {:induction false} LowestInSlot(occs: map<nat, Occ>, eid: EventId, p: Plan, s: Slot, i: nat) returns (j: nat)
    requires InSlot(occs, eid, p, i, s)
    ensures j <= i && InSlot(occs, eid, p, j, s) && forall k | InSlot(occs, eid, p, k, s) :: j <= k
    decreases i
  {
    if k: nat :| k < i && InSlot(occs, eid, p, k, s) {
      j := LowestInSlot(occs, eid, p, s, k);
    } else {
      j := i;
    }
  }

  /** Afterwards the event and each of its copies has one venue, and no other event gained one. */
  lemma ResplitLeavesOneVenue(occs: map<nat, Occ>, eid: EventId, p: Plan, e: EventId)
    requires GoodPlan(occs, eid, p)
    requires e == eid || e in p.target.Values || OneVenue(occs, e)
    ensures OneVenue(Resplitted(occs, eid, p), e)
  {
    var t := Resplitted(occs, eid, p);
    forall i, j | i in t && j in t && InScope(t[i], e) && InScope(t[j], e)
      ensures t[i].venue == t[j].venue
    {
      RowAfterResplit(occs, eid, p, i);
      RowAfterResplit(occs, eid, p, j);
    }
  }

  lemma RowAfterResplit(occs: map<nat, Occ>, eid: EventId, p: Plan, i: nat)
    requires GoodPlan(occs, eid, p) && i in Resplitted(occs, eid, p)
    ensures var o := Resplitted(occs, eid, p)[i];
      if InScope(occs[i], eid) then exists k :: k in p.target && k in p.canon && o.event == p.target[k] && o.venue == Some(p.canon[k])
      else o == occs[i] && (o.event == eid ==> o.venue.None?) && (o.event != eid ==> o.event !in p.target.Values)
  {
    if InScope(occs[i], eid) {
      assert SlotOf(p, occs[i]) in AllSlots(occs, eid, p);
      var k := p.place[occs[i].venue.value];
      assert k in p.target && k in p.canon;
    }
  }

  // ----- planning one event -----

  function RowsAt(occs: map<nat, Occ>, eid: EventId, v: VenueId): nat {
    |set i | i in occs && occs[i].event == eid && occs[i].venue == Some(v)|
  }

  function RowsIn(occs: map<nat, Occ>, eid: EventId, cluster: seq<VenueId>): nat {
    |set i | i in occs && InScope(occs[i], eid) && occs[i].venue.value in cluster|
  }

  /** Most rows first, then the lowest id. */
  predicate Heavier(weight: VenueId -> int, low: VenueId -> int, a: VenueId, b: VenueId) {
    || weight(a) > weight(b)
    || (weight(a) == weight(b) && low(a) < low(b))
    || (weight(a) == weight(b) && low(a) == low(b) && a.n <= b.n)
  }

  function ByWeight(weight: VenueId -> int, low: VenueId -> int): (wins: (VenueId, VenueId) -> bool)
    ensures TotalOrder(wins)
  {
    (a, b) => Heavier(weight, low, a, b)
  }

  function CountOf(occs: map<nat, Occ>, eid: EventId): VenueId -> int {
    v => RowsAt(occs, eid, v)
  }

  function SizeOf(occs: map<nat, Occ>, eid: EventId, clusters: map<VenueId, seq<VenueId>>): VenueId -> int {
    k => if k in clusters then RowsIn(occs, eid, clusters[k]) else 0
  }

  function LowOf(low: map<VenueId, VenueId>): VenueId -> int {
    k => if k in low then low[k].n else 0
  }

  function ById(v: VenueId): int { v.n }

  /** The lowest id of both clusters is in the first. */
  ghost predicate HasLowest(a: seq<VenueId>, b: seq<VenueId>) { exists v <- a :: forall u <- b :: v.n <= u.n }

  /** More rows, or as many and the lower lowest id. */
  ghost predicate Outweighs(occs: map<nat, Occ>, eid: EventId, a: seq<VenueId>, b: seq<VenueId>) {
    RowsIn(occs, eid, a) > RowsIn(occs, eid, b) || (RowsIn(occs, eid, a) == RowsIn(occs, eid, b) && HasLowest(a, b))
  }

  /** Each cluster's canonical venue has the most rows in it, the lowest id on a tie; the primary cluster
      has the most rows of all, the lowest venue id on a tie. */
  ghost predicate BestChoices(occs: map<nat, Occ>, eid: EventId, clusters: map<VenueId, seq<VenueId>>, canon: map<VenueId, VenueId>, primary: VenueId) {
    && canon.Keys == clusters.Keys && primary in clusters
    && (forall k <- clusters :: canon[k] in clusters[k] && forall v <- clusters[k] :: Heavier(CountOf(occs, eid), ById, canon[k], v))
    && (forall k <- clusters :: Outweighs(occs, eid, clusters[primary], clusters[k]))
  }

  lemma HeavierMeans(weight: VenueId -> int, low: VenueId -> int, a: VenueId, b: VenueId)
    requires ByWeight(weight, low)(a, b)
    ensures weight(a) > weight(b) || (weight(a) == weight(b) && low(a) <= low(b))
  {}

  /** The targets handed out so far: the event itself for the primary place, unused copies for others. */
  ghost predicate Targets(target: map<VenueId, EventId>, eid: EventId, primary: VenueId, before: map<EventId, Event>, events: map<EventId, Event>) {
    && primary in target && target[primary] == eid && eid in before
    && (forall k <- target :: k != primary ==> target[k] !in before && target[k] in events && events[target[k]] == before[eid])
    && (forall k, l | k in target && l in target && target[k] == target[l] :: k == l)
    && (forall e <- before :: e in events && events[e] == before[e])
    && events.Keys == before.Keys + target.Values
  }

  lemma TargetsGrow(target: map<VenueId, EventId>, eid: EventId, primary: VenueId, before: map<EventId, Event>, events: map<EventId, Event>, k: VenueId, copy: EventId)
    requires Targets(target, eid, primary, before, events) && k !in target && copy !in events
    ensures Targets(target[k := copy], eid, primary, before, events[copy := events[eid]])
  {
    var target' := target[k := copy];
    assert target'.Values == target.Values + {copy} by {
      assert target'[k] == copy;
      forall e | e in target.Values ensures e in target'.Values { var l :| l in target && target[l] == e; assert target'[l] == e; }
    }
  }

  // ----- the pass -----

  ghost function VenuesOf(occs: map<nat, Occ>, eid: EventId): set<VenueId> {
    set i | i in occs && InScope(occs[i], eid) :: occs[i].venue.value
  }

  /** The places of the event's venues, and the best choices among them. */
  ghost predicate ArePlacesOf(occs: map<nat, Occ>, eid: EventId, clusters: map<VenueId, seq<VenueId>>, place: map<VenueId, VenueId>,
                              same: (VenueId, VenueId) -> bool, clash: (VenueId, VenueId) -> bool) {
    && Grouped(clusters, place, VenuesOf(occs, eid))
    && exists ids :: Distinct(ids) && Elements(ids) == VenuesOf(occs, eid) && ArePlaces(place, ids, same, clash)
  }

  /** The plan of this event: its venues by place, the best venue and the best place by row count. */
  ghost predicate IsPlanFor(occs: map<nat, Occ>, eid: EventId, p: Plan, same: (VenueId, VenueId) -> bool, clash: (VenueId, VenueId) -> bool) {
    && VenuesPlaced(occs, eid, p)
    && exists clusters :: ArePlacesOf(occs, eid, clusters, p.place, same, clash) && BestChoices(occs, eid, clusters, p.canon, p.primary)
  }

  lemma PlanPlacesVenues(occs: map<nat, Occ>, eid: EventId, p: Plan, clusters: map<VenueId, seq<VenueId>>)
    requires p.place.Keys == VenuesOf(occs, eid) && Grouped(clusters, p.place, VenuesOf(occs, eid))
    requires p.canon.Keys == clusters.Keys == p.target.Keys && p.primary in clusters
    requires forall k <- clusters :: p.canon[k] in clusters[k]
    ensures VenuesPlaced(occs, eid, p)
  {
    forall i | i in occs && InScope(occs[i], eid) ensures occs[i].venue.value in p.place {
      assert occs[i].venue.value in VenuesOf(occs, eid);
    }
    forall v | v in p.place ensures p.place[v] in p.canon && p.place[v] in p.target {
      assert p.place[v] in clusters;
    }
    forall k | k in p.canon ensures p.canon[k] in p.place && p.place[p.canon[k]] == k {
      assert p.canon[k] in clusters[k];
    }
  }

  lemma PlanTargetsFresh(occs: map<nat, Occ>, eid: EventId, p: Plan, before: map<EventId, Event>, events: map<EventId, Event>)
    requires Targets(p.target, eid, p.primary, before, events)
    requires forall i | i in occs :: occs[i].event in before
    ensures TargetsFresh(occs, eid, p)
  {}

  lemma ForeignKeysKept(occs: map<nat, Occ>, sources: map<nat, Source>, eid: EventId, p: Plan, byUrl: map<string, VenueId>,
                        before: map<EventId, Event>, events: map<EventId, Event>)
    requires GoodPlan(occs, eid, p) && Targets(p.target, eid, p.primary, before, events)
    requires (forall i | i in occs :: occs[i].event in before) && forall i | i in sources :: sources[i].event in before
    ensures forall i | i in Resplitted(occs, eid, p) :: Resplitted(occs, eid, p)[i].event in events
    ensures forall i | i in SourcesMoved(sources, eid, p, byUrl) :: SourcesMoved(sources, eid, p, byUrl)[i].event in events
  {
    forall i | i in Resplitted(occs, eid, p) ensures Resplitted(occs, eid, p)[i].event in events {
      RowAfterResplit(occs, eid, p, i);
    }
  }
}
