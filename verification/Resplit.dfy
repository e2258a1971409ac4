/** `resplit`: events whose occurrences span several venues are split by place and each place is
  consolidated onto one venue. */
module Resplit {
  import opened Collections
  import opened Ids
  import opened MergePlan
  import opened Tables
  import opened PlaceClusters
  import opened ResplitPlan
  import opened ResplitPass
  import opened GuardedClusters

  // ----- collapsing, statement by statement -----

  /** Drop the rows with these numbers. */
  method DeleteOccs(db: Db, ids: set<nat>)
    requires UniqueKey(db.occs)
    modifies db`occs
    ensures UniqueKey(db.occs) && db.occs == old(db.occs) - ids
  {
    db.occs := db.occs - ids;
  }

  /** Give one row its new event and venue. */
  method UpdateOcc(db: Db, oid: nat, te: EventId, cv: VenueId)
    requires UniqueKey(db.occs) && oid in db.occs
    requires UniqueKey(db.occs[oid := db.occs[oid].(event := te, venue := Some(cv))])
    modifies db`occs
    ensures UniqueKey(db.occs) && db.occs == old(db.occs)[oid := old(db.occs)[oid].(event := te, venue := Some(cv))]
  {
    db.occs := db.occs[oid := db.occs[oid].(event := te, venue := Some(cv))];
  }

  method Minimum(s: set<nat>) returns (least: nat)
    requires s != {}
    ensures least in s && forall x <- s :: least <= x
  {
    least := Any(s);
    var rest := s - {least};
    while rest != {}
      invariant rest <= s && least in s && forall x | x in s && x !in rest :: least <= x
      decreases rest
    {
      var x := Any(rest);
      if x < least { least := x; }
      rest := rest - {x};
    }
  }

  /** One group of the pass: keep the survivor, delete the others first, then repoint it. */
  method CollapseSlot(db: Db, ghost occs: map<nat, Occ>, eid: EventId, p: Plan, ghost done: set<Slot>, s: Slot, oids: set<nat>)
    requires UniqueKey(occs) && GoodPlan(occs, eid, p) && s !in done
    requires UniqueKey(db.occs) && db.occs == Collapsed(occs, eid, p, done)
    requires oids != {} && forall i :: i in oids <==> InSlot(occs, eid, p, i, s)
    modifies db`occs
    ensures UniqueKey(db.occs) && db.occs == Collapsed(occs, eid, p, done + {s})
  {
    var survivor := Minimum(oids);
    SlotCollapses(occs, eid, p, done, s, oids, survivor);
    CollapsedKeepsKey(occs, eid, p, done + {s});
    var losers := oids - {survivor};
    if losers != {} {
      DeleteOccs(db, losers);
    }
    assert db.occs == Collapsed(occs, eid, p, done) - losers;
    UpdateOcc(db, survivor, p.target[s.place], p.canon[s.place]);
  }

  method IndexRows(occs: map<nat, Occ>, eid: EventId, p: Plan)
      returns (groups: map<Slot, set<nat>>, byUrl: map<string, VenueId>, rows: set<nat>)
    requires VenuesPlaced(occs, eid, p)
    ensures rows == ScopeRows(occs, eid)
    ensures SlotIndex(groups, occs, rows, eid, p) && UrlIndex(byUrl, occs, rows, eid, p.place)
  {
    rows := ScopeRows(occs, eid);
    groups, byUrl := map[], map[];
    var rest := rows;
    while rest != {}
      invariant rest <= rows
      invariant SlotIndex(groups, occs, rows - rest, eid, p)
      invariant UrlIndex(byUrl, occs, rows - rest, eid, p.place)
      decreases rest
    {
      var i := Any(rest);
      SlotIndexAdd(groups, occs, rows - rest, eid, p, i);
      UrlIndexAdd(byUrl, occs, rows - rest, eid, p.place, i);
      var o := occs[i];
      var k := p.place[o.venue.value];
      if o.url != "" && o.url !in byUrl { byUrl := byUrl[o.url := k]; }
      var s := Slot(k, o.start);
      groups := groups[s := (if s in groups then groups[s] else {}) + {i}];
      assert rows - (rest - {i}) == rows - rest + {i};
      rest := rest - {i};
    }
    assert rows - rest == rows;
  }

  method CollapseAll(db: Db, eid: EventId, p: Plan, groups: map<Slot, set<nat>>, rows: set<nat>)
    requires UniqueKey(db.occs) && GoodPlan(db.occs, eid, p)
    requires rows == ScopeRows(db.occs, eid)
    requires SlotIndex(groups, db.occs, rows, eid, p)
    modifies db`occs
    ensures UniqueKey(db.occs) && db.occs == Resplitted(old(db.occs), eid, p)
  {
    ghost var occs := db.occs;
    var todo := groups.Keys;
    ghost var all := groups.Keys;
    SlotIndexCovers(groups, occs, rows, eid, p);
    NothingCollapsed(occs, eid, p);
    assert all - todo == {};
    SlotIndexMeans(groups, occs, rows, eid, p);
    while todo != {}
      invariant todo <= all && UniqueKey(db.occs) && db.occs == Collapsed(occs, eid, p, all - todo)
      decreases todo
    {
      var s := Any(todo);
      DoneGrows(all, todo, s);
      CollapseSlot(db, occs, eid, p, all - todo, s, groups[s]);
      todo := todo - {s};
    }
    assert all - todo == all;
  }

  method BestOfEach(clusters: map<VenueId, seq<VenueId>>, wins: (VenueId, VenueId) -> bool) returns (best: map<VenueId, VenueId>)
    requires TotalOrder(wins) && forall k <- clusters :: clusters[k] != []
    ensures best.Keys == clusters.Keys
    ensures forall k <- clusters :: best[k] in clusters[k] && forall v <- clusters[k] :: wins(best[k], v)
  {
    best := map[];
    var todo := clusters.Keys;
    while todo != {}
      invariant todo <= clusters.Keys && best.Keys == clusters.Keys - todo
      invariant forall k <- best :: best[k] in clusters[k] && forall v <- clusters[k] :: wins(best[k], v)
      decreases todo
    {
      var k := Any(todo);
      DoneGrows(clusters.Keys, todo, k);
      var b := Best(clusters[k], wins);
      best, todo := best[k := b], todo - {k};
    }
    assert clusters.Keys - todo == clusters.Keys;
  }

  method ChooseCanon(occs: map<nat, Occ>, eid: EventId, clusters: map<VenueId, seq<VenueId>>) returns (canon: map<VenueId, VenueId>)
    requires forall k <- clusters :: clusters[k] != []
    ensures canon.Keys == clusters.Keys
    ensures forall k <- clusters :: canon[k] in clusters[k] && forall v <- clusters[k] :: Heavier(CountOf(occs, eid), ById, canon[k], v)
  {
    canon := BestOfEach(clusters, ByWeight(CountOf(occs, eid), ById));
  }

  method ChoosePrimary(occs: map<nat, Occ>, eid: EventId, clusters: map<VenueId, seq<VenueId>>) returns (primary: VenueId)
    requires clusters.Keys != {} && forall k <- clusters :: clusters[k] != []
    ensures primary in clusters
    ensures forall k <- clusters :: Outweighs(occs, eid, clusters[primary], clusters[k])
  {
    var low := BestOfEach(clusters, ByWeight(_ => 0, ById));
    var labels := SeqOf(clusters.Keys);
    var some := Any(clusters.Keys);
    assert some in Elements(labels);
    var size := SizeOf(occs, eid, clusters);
    primary := Best(labels, ByWeight(size, LowOf(low)));
    assert primary in Elements(labels);
    forall k | k in clusters
      ensures Outweighs(occs, eid, clusters[primary], clusters[k])
    {
      assert k in Elements(labels);
      HeavierMeans(size, LowOf(low), primary, k);
      LowestIsLow(clusters, low, primary, k);
    }
  }

  lemma LowestIsLow(clusters: map<VenueId, seq<VenueId>>, low: map<VenueId, VenueId>, a: VenueId, b: VenueId)
    requires low.Keys == clusters.Keys && a in clusters && b in clusters
    requires forall k <- low :: low[k] in clusters[k] && forall v <- clusters[k] :: ByWeight(_ => 0, ById)(low[k], v)
    ensures LowOf(low)(a) <= LowOf(low)(b) ==> HasLowest(clusters[a], clusters[b])
  {
    if LowOf(low)(a) <= LowOf(low)(b) {
      forall u | u in clusters[b] ensures low[a].n <= u.n { assert ByWeight(_ => 0, ById)(low[b], u); }
    }
  }

  /** `v2cl`: the cluster of each venue. */
  method PlaceOf(clusters: map<VenueId, seq<VenueId>>, members: set<VenueId>, ghost root: map<VenueId, VenueId>) returns (place: map<VenueId, VenueId>)
    requires Grouped(clusters, root, members) && root.Keys == members
    ensures place == root
  {
    place := map[];
    var todo := clusters.Keys;
    while todo != {}
      invariant todo <= clusters.Keys
      invariant forall v :: v in place <==> v in root && root[v] !in todo
      invariant forall v <- place :: place[v] == root[v]
      decreases todo
    {
      var k := Any(todo);
      place := place + map v | v in clusters[k] :: k;
      todo := todo - {k};
    }
  }

  /** Add a copy of the event under an id that is not in use. */
  method InsertCopy(db: Db, eid: EventId) returns (copy: EventId)
    requires eid in db.events
    modifies db`events
    ensures copy !in old(db.events) && db.events == old(db.events)[copy := old(db.events)[eid]]
  {
    var n := 0;
    var todo := db.events.Keys;
    while todo != {}
      invariant todo <= db.events.Keys && forall e <- db.events.Keys - todo :: e.n < n
      invariant db.events == old(db.events)
      decreases todo
    {
      var e := Any(todo);
      if n <= e.n { n := e.n + 1; }
      todo := todo - {e};
    }
    copy := EventId(n);
    db.events := db.events[copy := db.events[eid]];
  }

  method HandOutTargets(db: Db, eid: EventId, labels: set<VenueId>, primary: VenueId) returns (target: map<VenueId, EventId>)
    requires eid in db.events && primary in labels
    modifies db`events
    ensures target.Keys == labels && Targets(target, eid, primary, old(db.events), db.events)
  {
    ghost var before := db.events;
    target := map[primary := eid];
    assert target[primary] == eid && target.Values == {eid};
    assert db.events.Keys == before.Keys + target.Values;
    var todo := labels - {primary};
    while todo != {}
      invariant todo <= labels - {primary} && target.Keys == labels - todo
      invariant Targets(target, eid, primary, before, db.events)
      decreases todo
    {
      var k := Any(todo);
      DoneGrows(labels, todo, k);
      ghost var events := db.events;
      var copy := InsertCopy(db, eid);
      TargetsGrow(target, eid, primary, before, events, k, copy);
      target, todo := target[k := copy], todo - {k};
    }
    assert labels - todo == labels;
  }

  method FindPlaces(occs: map<nat, Occ>, eid: EventId, same: (VenueId, VenueId) -> bool, clash: (VenueId, VenueId) -> bool)
      returns (clusters: map<VenueId, seq<VenueId>>, place: map<VenueId, VenueId>)
    requires VenuesOf(occs, eid) != {} && Symmetric(clash)
    ensures ArePlacesOf(occs, eid, clusters, place, same, clash)
    ensures place.Keys == VenuesOf(occs, eid) && clusters.Keys != {}
  {
    var venues := set i | i in occs && InScope(occs[i], eid) :: occs[i].venue.value;
    var list := SeqOf(venues);
    var groups := ClusterBy(list, same, clash);
    ghost var root :| GroupsPlaces(groups, root, list, same, clash);
    place := PlaceOf(groups, venues, root);
    clusters := groups;
    var v := Any(venues);
    assert place[v] in clusters;
  }

  method MakePlan(db: Db, eid: EventId, same: (VenueId, VenueId) -> bool, clash: (VenueId, VenueId) -> bool) returns (p: Plan)
    requires eid in db.events && VenuesOf(db.occs, eid) != {} && KeysHold(Now(db)) && Symmetric(clash)
    modifies db`events
    ensures PlansFor(old(Now(db)), eid, same, clash)(p, db.events)
  {
    var clusters, place := FindPlaces(db.occs, eid, same, clash);
    var canon := ChooseCanon(db.occs, eid, clusters);
    var primary := ChoosePrimary(db.occs, eid, clusters);
    var target := HandOutTargets(db, eid, clusters.Keys, primary);
    p := Plan(place, canon, target, primary);
    PlanIsReady(old(Now(db)), eid, p, clusters, db.events, same, clash);
  }

  /** Move every source that has a split to the event of its split. */
  method MoveSources(db: Db, eid: EventId, p: Plan, byUrl: map<string, VenueId>)
    modifies db`sources
    ensures db.sources == SourcesMoved(old(db.sources), eid, p, byUrl)
  {
    ghost var before := db.sources;
    var todo := db.sources.Keys;
    while todo != {}
      invariant todo <= before.Keys && db.sources.Keys == before.Keys
      invariant forall i | i in before :: db.sources[i] == if i in todo then before[i] else MovedSource(before[i], eid, p, byUrl)
      decreases todo
    {
      var i := Any(todo);
      var src := db.sources[i];
      if src.event == eid && src.url in byUrl && byUrl[src.url] != p.primary && byUrl[src.url] in p.target {
        db.sources := db.sources[i := src.(event := p.target[byUrl[src.url]])];
      }
      todo := todo - {i};
    }
  }

  /** Collapse the slots, then move the sources. */
  method CarryOut(db: Db, eid: EventId, p: Plan) returns (ghost byUrl: map<string, VenueId>)
    requires UniqueKey(db.occs) && GoodPlan(db.occs, eid, p)
    modifies db`occs, db`sources
    ensures db.events == old(db.events) && Carried(old(Now(db)), eid)(Now(db), p, byUrl)
  {
    var groups, urls, rows := IndexRows(db.occs, eid, p);
    CollapseAll(db, eid, p, groups, rows);
    MoveSources(db, eid, p, urls);
    byUrl := urls;
  }

  /** The whole pass over venues that are `same` or `clash`.  Every event over several venues got the plan
      its rows called for; rows, sources and copies follow the plans and everything else is as it was; and
      no event is left to split or consolidate, so a second pass finds nothing. */
  method ResplitAll(db: Db, same: (VenueId, VenueId) -> bool, clash: (VenueId, VenueId) -> bool) returns (ghost plans: map<EventId, Plan>)
    requires KeysHold(Now(db)) && Symmetric(clash)
    modifies db`occs, db`sources, db`events
    ensures PassState(old(Now(db)), same, clash)(Now(db), plans, {})
    ensures MultiEvents(db.occs) == {}
  {
    ghost var before := Now(db);
    var todo := MultiEvents(db.occs);
    PassStarts(before, same, clash);
    plans := map[];
    while todo != {}
      invariant PassState(before, same, clash)(Now(db), plans, todo)
      decreases todo
    {
      var eid := Any(todo);
      ghost var now := Now(db);
      NextEvent(before, now, plans, todo, eid, same, clash);
      ghost var p, byUrl := ResplitOne(db, eid, same, clash);
      PassStateGrows(before, now, Now(db), plans, todo, eid, p, byUrl, same, clash);
      plans, todo := plans[eid := p], todo - {eid};
    }
    PassEnds(before, Now(db), plans, same, clash);
  }

  method ResplitOne(db: Db, eid: EventId, same: (VenueId, VenueId) -> bool, clash: (VenueId, VenueId) -> bool)
      returns (ghost p: Plan, ghost byUrl: map<string, VenueId>)
    requires eid in db.events && VenuesOf(db.occs, eid) != {} && KeysHold(Now(db)) && Symmetric(clash)
    modifies db`occs, db`sources, db`events
    ensures Outcomes(old(Now(db)), eid, same, clash)(Now(db), p, byUrl)
  {
    ghost var now := Now(db);
    var plan := MakePlan(db, eid, same, clash);
    ghost var mid := Now(db);
    PlansAreGood(now, eid, same, clash, plan, mid.events);
    byUrl := CarryOut(db, eid, plan);
    p := plan;
    OutcomeIsReady(now, mid, Now(db), eid, p, byUrl, same, clash);
  }

  /** The pass over the venues of the database: one place is 200 m or a matching name, never across a
      contrast.  Without `apply` everything is rolled back. */
  method Resplit(db: Db, near: (VenueId, VenueId) -> bool, ratio: (string, string) -> real, names: map<VenueId, string>, apply: bool)
      returns (ghost plans: map<EventId, Plan>)
    requires KeysHold(Now(db))
    modifies db`occs, db`sources, db`events
    ensures apply ==> PassState(old(Now(db)), OnePlace(near, ratio, names), NamesClash(names))(Now(db), plans, {})
    ensures apply ==> MultiEvents(db.occs) == {}
    ensures !apply ==> Now(db) == old(Now(db))
  {
    var occs, sources, events := db.occs, db.sources, db.events;
    plans := ResplitAll(db, OnePlace(near, ratio, names), NamesClash(names));
    if !apply {
      db.occs, db.sources, db.events := occs, sources, events;
    }
  }
}
