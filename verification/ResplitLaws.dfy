/** What a resplit does, told on the rows of an event and on the names of its venues. */
module ResplitLaws {
  import opened Collections
  import opened Ids
  import opened UnionFind
  import opened GuardedClusters
  import opened MergePlan
  import opened VenueMatch
  import opened VenueNames
  import opened Tables
  import opened PlaceClusters
  import opened ResplitPlan
  import opened ResplitPass

  // ----- the plan of one event -----

  ghost function RowsOf(occs: map<nat, Occ>, e: EventId, v: VenueId): set<nat> {
    set i | i in occs && occs[i].event == e && occs[i].venue == Some(v)
  }

  ghost function RowsOfPlace(occs: map<nat, Occ>, e: EventId, place: map<VenueId, VenueId>, k: VenueId): set<nat> {
    set i | i in occs && occs[i].event == e && occs[i].venue.Some? && occs[i].venue.value in place && place[occs[i].venue.value] == k
  }

  /** Every place is one of the event's venues' own, and its rows go to the venue with most of them, the lowest id on
      a tie. */
  ghost predicate CanonIsBusiest(occs: map<nat, Occ>, e: EventId, p: Plan) {
    forall v <- p.place :: p.place[v] in p.canon && var c := p.canon[p.place[v]];
      c in p.place && p.place[c] == p.place[v] && AsBusy(occs, e, c, v)
  }

  ghost predicate AsBusy(occs: map<nat, Occ>, e: EventId, c: VenueId, v: VenueId) {
    |RowsOf(occs, e, v)| < |RowsOf(occs, e, c)| || (|RowsOf(occs, e, v)| == |RowsOf(occs, e, c)| && c.n <= v.n)
  }

  lemma CountIs(occs: map<nat, Occ>, e: EventId, v: VenueId)
    ensures CountOf(occs, e)(v) == |RowsOf(occs, e, v)|
  {
    assert (set i | i in occs && occs[i].event == e && occs[i].venue == Some(v)) == RowsOf(occs, e, v);
  }

  lemma HeavierIsBusier(occs: map<nat, Occ>, e: EventId, c: VenueId, v: VenueId)
    requires Heavier(CountOf(occs, e), ById, c, v)
    ensures AsBusy(occs, e, c, v)
  {
    CountIs(occs, e, v);
    CountIs(occs, e, c);
  }

  /** The event keeps the place with most rows, the one with the lowest venue id on a tie. */
  ghost predicate PrimaryIsBusiest(occs: map<nat, Occ>, e: EventId, p: Plan) {
    forall v <- p.place :: NoBusierPlace(occs, e, p, v)
  }

  ghost predicate NoBusierPlace(occs: map<nat, Occ>, e: EventId, p: Plan, v: VenueId)
    requires v in p.place
  {
    var (n, top) := (|RowsOfPlace(occs, e, p.place, p.place[v])|, |RowsOfPlace(occs, e, p.place, p.primary)|);
    n < top || (n == top && exists u :: u in p.place && p.place[u] == p.primary && u.n <= v.n)
  }

  lemma SizesAgree(occs: map<nat, Occ>, e: EventId, clusters: map<VenueId, seq<VenueId>>, place: map<VenueId, VenueId>, k: VenueId)
    requires Grouped(clusters, place, VenuesOf(occs, e)) && k in clusters && place.Keys == VenuesOf(occs, e)
    ensures RowsIn(occs, e, clusters[k]) == |RowsOfPlace(occs, e, place, k)|
  {
    assert (set i | i in occs && InScope(occs[i], e) && occs[i].venue.value in clusters[k]) == RowsOfPlace(occs, e, place, k) by {
      forall i | i in occs && InScope(occs[i], e) ensures occs[i].venue.value in clusters[k] <==> place[occs[i].venue.value] == k {
        assert occs[i].venue.value in VenuesOf(occs, e);
      }
    }
  }

  lemma PlacedVenues(occs: map<nat, Occ>, e: EventId, place: map<VenueId, VenueId>, ids: seq<VenueId>,
                     same: (VenueId, VenueId) -> bool, clash: (VenueId, VenueId) -> bool)
    requires Elements(ids) == VenuesOf(occs, e) && ArePlaces(place, ids, same, clash) && Symmetric(clash)
    ensures place.Keys == VenuesOf(occs, e)
  {
    PlacesAreSafeAndMaximal(place, ids, same, clash);
  }

  lemma CanonOfPlace(occs: map<nat, Occ>, e: EventId, p: Plan, clusters: map<VenueId, seq<VenueId>>, v: VenueId)
    requires Grouped(clusters, p.place, VenuesOf(occs, e)) && p.place.Keys == VenuesOf(occs, e) && v in p.place
    requires BestChoices(occs, e, clusters, p.canon, p.primary)
    ensures p.place[v] in p.canon
    ensures var c := p.canon[p.place[v]]; c in p.place && p.place[c] == p.place[v] && Heavier(CountOf(occs, e), ById, c, v)
  {
    var k := p.place[v];
    assert k in clusters && v in clusters[k] && p.canon[k] in clusters[k];
  }

  lemma BestIsBusiest(occs: map<nat, Occ>, e: EventId, p: Plan, clusters: map<VenueId, seq<VenueId>>)
    requires Grouped(clusters, p.place, VenuesOf(occs, e)) && p.place.Keys == VenuesOf(occs, e)
    requires BestChoices(occs, e, clusters, p.canon, p.primary)
    ensures CanonIsBusiest(occs, e, p)
  {
    forall v | v in p.place
      ensures p.place[v] in p.canon && var c := p.canon[p.place[v]]; c in p.place && p.place[c] == p.place[v] && AsBusy(occs, e, c, v)
    {
      CanonOfPlace(occs, e, p, clusters, v);
      HeavierIsBusier(occs, e, p.canon[p.place[v]], v);
    }
  }

  lemma LowestIsNoHigher(clusters: map<VenueId, seq<VenueId>>, place: map<VenueId, VenueId>, venues: set<VenueId>, k: VenueId, v: VenueId)
    requires Grouped(clusters, place, venues) && place.Keys == venues && v in place && k in clusters && HasLowest(clusters[k], clusters[place[v]])
    ensures exists u :: u in place && place[u] == k && u.n <= v.n
  {
    var u :| u in clusters[k] && forall w <- clusters[place[v]] :: u.n <= w.n;
    assert v in clusters[place[v]];
    assert u in place && place[u] == k;
  }

  lemma PrimaryOutweighs(occs: map<nat, Occ>, e: EventId, p: Plan, clusters: map<VenueId, seq<VenueId>>, v: VenueId)
    requires Grouped(clusters, p.place, VenuesOf(occs, e)) && p.place.Keys == VenuesOf(occs, e) && v in p.place
    requires BestChoices(occs, e, clusters, p.canon, p.primary)
    ensures NoBusierPlace(occs, e, p, v)
  {
    var k := p.place[v];
    SizesAgree(occs, e, clusters, p.place, k);
    SizesAgree(occs, e, clusters, p.place, p.primary);
    assert Outweighs(occs, e, clusters[p.primary], clusters[k]);
    if HasLowest(clusters[p.primary], clusters[k]) { LowestIsNoHigher(clusters, p.place, VenuesOf(occs, e), p.primary, v); }
  }

  /** The plan of an event: the busiest venue of each place, and the busiest place for the event itself. */
  lemma PlanPicksTheBusiest(occs: map<nat, Occ>, e: EventId, p: Plan, same: (VenueId, VenueId) -> bool, clash: (VenueId, VenueId) -> bool)
    requires IsPlanFor(occs, e, p, same, clash) && Symmetric(clash)
    ensures p.place.Keys == VenuesOf(occs, e) && CanonIsBusiest(occs, e, p) && PrimaryIsBusiest(occs, e, p)
  {
    var clusters :| ArePlacesOf(occs, e, clusters, p.place, same, clash) && BestChoices(occs, e, clusters, p.canon, p.primary);
    var ids :| Distinct(ids) && Elements(ids) == VenuesOf(occs, e) && ArePlaces(p.place, ids, same, clash);
    PlacedVenues(occs, e, p.place, ids, same, clash);
    BestIsBusiest(occs, e, p, clusters);
    forall v | v in p.place ensures NoBusierPlace(occs, e, p, v) { PrimaryOutweighs(occs, e, p, clusters, v); }
  }

  // ----- which venues are one place -----

  /** Opposite halls among the venues of two places. */
  ghost predicate HallsAmong(names: map<VenueId, string>, place: map<VenueId, VenueId>, k: VenueId, l: VenueId) {
    exists x, y :: x in place && y in place && place[x] == k && place[y] == l && x in names && y in names && OppositeHalls(names[x], names[y])
  }

  /** Opposite halls are never one place. */
  lemma PlacesKeepHallsApart(occs: map<nat, Occ>, e: EventId, p: Plan, near: (VenueId, VenueId) -> bool, ratio: (string, string) -> real,
                             names: map<VenueId, string>, v: VenueId, w: VenueId)
    requires IsPlanFor(occs, e, p, OnePlace(near, ratio, names), NamesClash(names)) && v in VenuesOf(occs, e) && w in VenuesOf(occs, e) && v != w
    requires v in names && w in names && OppositeHalls(names[v], names[w])
    ensures v in p.place && w in p.place && p.place[v] != p.place[w]
  {
    var ids := PlacesOf(occs, e, p, OnePlace(near, ratio, names), NamesClash(names));
    PlacesAreSafeAndMaximal(p.place, ids, OnePlace(near, ratio, names), NamesClash(names));
    ContrastsIff(names[v], names[w]);
    assert v in Elements(ids) && w in Elements(ids) && NamesClash(names)(v, w);
    if p.place[v] == p.place[w] { assert SameLabel(p.place, v, w); }
  }

  lemma PlacesOf(occs: map<nat, Occ>, e: EventId, p: Plan, same: (VenueId, VenueId) -> bool, clash: (VenueId, VenueId) -> bool)
      returns (ids: seq<VenueId>)
    requires IsPlanFor(occs, e, p, same, clash)
    ensures Elements(ids) == VenuesOf(occs, e) && ArePlaces(p.place, ids, same, clash)
  {
    var clusters :| ArePlacesOf(occs, e, clusters, p.place, same, clash) && BestChoices(occs, e, clusters, p.canon, p.primary);
    ids :| Distinct(ids) && Elements(ids) == VenuesOf(occs, e) && ArePlaces(p.place, ids, same, clash);
  }

  /** The two are one place by distance or by name, whichever of them comes first. */
  predicate TakenForOne(near: (VenueId, VenueId) -> bool, ratio: (string, string) -> real, names: map<VenueId, string>, v: VenueId, w: VenueId)
    requires v in names && w in names
  {
    (near(v, w) || NameMatchScore(ratio, names[v], names[w]).Some?) && (near(w, v) || NameMatchScore(ratio, names[w], names[v]).Some?)
  }

  lemma SameIsTakenForOne(near: (VenueId, VenueId) -> bool, ratio: (string, string) -> real, names: map<VenueId, string>, v: VenueId, w: VenueId)
    requires v in names && w in names
    ensures TakenForOne(near, ratio, names, v, w) <==> OnePlace(near, ratio, names)(v, w) && OnePlace(near, ratio, names)(w, v)
  {}

  /** Two venues of the event that are near each other or match by name are one place, unless their places hold
      opposite halls. */
  lemma NearVenuesAreOnePlace(occs: map<nat, Occ>, e: EventId, p: Plan, near: (VenueId, VenueId) -> bool, ratio: (string, string) -> real,
                              names: map<VenueId, string>, v: VenueId, w: VenueId)
    requires IsPlanFor(occs, e, p, OnePlace(near, ratio, names), NamesClash(names)) && v in VenuesOf(occs, e) && w in VenuesOf(occs, e)
    requires VenuesOf(occs, e) <= names.Keys && TakenForOne(near, ratio, names, v, w)
    ensures v in p.place && w in p.place && (p.place[v] == p.place[w] || HallsAmong(names, p.place, p.place[v], p.place[w]))
  {
    var ids := PlacesOf(occs, e, p, OnePlace(near, ratio, names), NamesClash(names));
    PlacesAreSafeAndMaximal(p.place, ids, OnePlace(near, ratio, names), NamesClash(names));
    SameIsTakenForOne(near, ratio, names, v, w);
    SameOrClash(ids, p.place, OnePlace(near, ratio, names), NamesClash(names), v, w);
    if ClustersClash(p.place, NamesClash(names), v, w) {
      ClashMeansHalls(names, p.place, v, w);
    } else if ClustersClash(p.place, NamesClash(names), w, v) {
      ClashMeansHalls(names, p.place, w, v);
      HallsSwap(names, p.place, p.place[w], p.place[v]);
    }
  }

  lemma SameOrClash<T(!new)>(ids: seq<T>, root: map<T, T>, same: (T, T) -> bool, clash: (T, T) -> bool, v: T, w: T)
    requires root.Keys == Elements(ids) && v in root && w in root && same(v, w) && same(w, v)
    requires forall i, j | 0 <= i < j < |ids| && same(ids[i], ids[j]) ::
      SameLabel(root, ids[i], ids[j]) || ClustersClash(root, clash, ids[i], ids[j])
    ensures root[v] == root[w] || ClustersClash(root, clash, v, w) || ClustersClash(root, clash, w, v)
  {
    var i, j :| 0 <= i < |ids| && 0 <= j < |ids| && ids[i] == v && ids[j] == w;
    if i < j { assert same(ids[i], ids[j]); } else if j < i { assert same(ids[j], ids[i]); }
  }

  lemma ClashMeansHalls(names: map<VenueId, string>, place: map<VenueId, VenueId>, v: VenueId, w: VenueId)
    requires place.Keys <= names.Keys && v in place && w in place && ClustersClash(place, NamesClash(names), v, w)
    ensures HallsAmong(names, place, place[v], place[w])
  {
    var x, y :| x in place && y in place && SameLabel(place, x, v) && SameLabel(place, y, w) && NamesClash(names)(x, y);
    ContrastsIff(names[x], names[y]);
  }

  lemma HallsSwap(names: map<VenueId, string>, place: map<VenueId, VenueId>, k: VenueId, l: VenueId)
    requires HallsAmong(names, place, k, l)
    ensures HallsAmong(names, place, l, k)
  {
    var x, y :| x in place && y in place && place[x] == k && place[y] == l && x in names && y in names && OppositeHalls(names[x], names[y]);
    ContrastsIff(names[x], names[y]);
    ContrastsIff(names[y], names[x]);
  }

  // ----- where the rows of an event end -----

  /** A row of an event over several venues ends with its start, on the event and at the venue of its place. */
  lemma RowLands(before: Snapshot, now: Snapshot, plans: map<EventId, Plan>, same: (VenueId, VenueId) -> bool, clash: (VenueId, VenueId) -> bool,
                 i: nat) returns (j: nat)
    requires PassState(before, same, clash)(now, plans, {})
    requires i in before.occs && before.occs[i].venue.Some? && Multi(before.occs, before.occs[i].event)
    ensures before.occs[i].event in plans && IsPlanFor(before.occs, before.occs[i].event, plans[before.occs[i].event], same, clash)
    ensures before.occs[i].venue.value in VenuesOf(before.occs, before.occs[i].event)
    ensures Lands(before, now, plans[before.occs[i].event], i, j)
  {
    var e := before.occs[i].event;
    j := ResplitKeepsEveryShowing(before, now, plans, same, clash, i);
    assert InScope(before.occs[i], e);
    assert SlotOf(plans[e], before.occs[j]) == SlotOf(plans[e], before.occs[i]);
  }

  ghost predicate Lands(before: Snapshot, now: Snapshot, p: Plan, i: nat, j: nat)
    requires i in before.occs && before.occs[i].venue.Some?
  {
    && j in now.occs && now.occs[j].start == before.occs[i].start && before.occs[i].venue.value in p.place
    && var k := p.place[before.occs[i].venue.value];
       k in p.target && k in p.canon && now.occs[j].event == p.target[k] && now.occs[j].venue == Some(p.canon[k])
  }

  lemma PlacesHaveOwnEvents(before: Snapshot, now: Snapshot, plans: map<EventId, Plan>, same: (VenueId, VenueId) -> bool, clash: (VenueId, VenueId) -> bool,
                            e: EventId, k: VenueId, l: VenueId)
    requires PassState(before, same, clash)(now, plans, {}) && e in plans && k in plans[e].target && l in plans[e].target && k != l
    ensures plans[e].target[k] != plans[e].target[l]
  {
    assert TargetsApart(plans);
  }

  /** Two rows of one event at opposite halls end on different events. */
  lemma HallsEndApart(before: Snapshot, now: Snapshot, plans: map<EventId, Plan>, near: (VenueId, VenueId) -> bool, ratio: (string, string) -> real,
                      names: map<VenueId, string>, i: nat, k: nat) returns (j: nat, l: nat)
    requires PassState(before, OnePlace(near, ratio, names), NamesClash(names))(now, plans, {})
    requires i in before.occs && k in before.occs && before.occs[i].event == before.occs[k].event
    requires before.occs[i].venue.Some? && before.occs[k].venue.Some? && before.occs[i].venue.value in names && before.occs[k].venue.value in names
    requires before.occs[i].venue != before.occs[k].venue && OppositeHalls(names[before.occs[i].venue.value], names[before.occs[k].venue.value])
    ensures j in now.occs && now.occs[j].start == before.occs[i].start && l in now.occs && now.occs[l].start == before.occs[k].start
    ensures now.occs[j].event != now.occs[l].event
  {
    var same, clash := OnePlace(near, ratio, names), NamesClash(names);
    var e, v, w := before.occs[i].event, before.occs[i].venue.value, before.occs[k].venue.value;
    TwoVenuesAreMulti(before.occs, i, k);
    j := RowLands(before, now, plans, same, clash, i);
    l := RowLands(before, now, plans, same, clash, k);
    PlacesKeepHallsApart(before.occs, e, plans[e], near, ratio, names, v, w);
    PlacesHaveOwnEvents(before, now, plans, same, clash, e, plans[e].place[v], plans[e].place[w]);
  }

  lemma TwoVenuesAreMulti(occs: map<nat, Occ>, i: nat, k: nat)
    requires i in occs && k in occs && occs[i].event == occs[k].event && occs[i].venue.Some? && occs[k].venue.Some? && occs[i].venue != occs[k].venue
    ensures Multi(occs, occs[i].event)
  {
    assert InScope(occs[i], occs[i].event) && InScope(occs[k], occs[i].event);
  }

  /** Two rows of one event at venues taken for one end on one event and at one venue, unless their places hold
      opposite halls; and that venue had no fewer rows of the event than either. */
  lemma NearRowsEndTogether(before: Snapshot, now: Snapshot, plans: map<EventId, Plan>, near: (VenueId, VenueId) -> bool, ratio: (string, string) -> real,
                            names: map<VenueId, string>, i: nat, k: nat) returns (j: nat, l: nat)
    requires PassState(before, OnePlace(near, ratio, names), NamesClash(names))(now, plans, {})
    requires i in before.occs && k in before.occs && before.occs[i].event == before.occs[k].event && VenuesOf(before.occs, before.occs[i].event) <= names.Keys
    requires before.occs[i].venue.Some? && before.occs[k].venue.Some? && before.occs[i].venue != before.occs[k].venue
    requires before.occs[i].venue.value in names && before.occs[k].venue.value in names
    requires TakenForOne(near, ratio, names, before.occs[i].venue.value, before.occs[k].venue.value)
    ensures j in now.occs && now.occs[j].start == before.occs[i].start && l in now.occs && now.occs[l].start == before.occs[k].start
    ensures var e, v, w := before.occs[i].event, before.occs[i].venue.value, before.occs[k].venue.value;
      e in plans && v in plans[e].place && w in plans[e].place
      && ((now.occs[j].event == now.occs[l].event && now.occs[j].venue == now.occs[l].venue && now.occs[j].venue.Some?
           && AsBusy(before.occs, e, now.occs[j].venue.value, v) && AsBusy(before.occs, e, now.occs[j].venue.value, w))
          || HallsAmong(names, plans[e].place, plans[e].place[v], plans[e].place[w]))
  {
    var same, clash := OnePlace(near, ratio, names), NamesClash(names);
    var e, v, w := before.occs[i].event, before.occs[i].venue.value, before.occs[k].venue.value;
    TwoVenuesAreMulti(before.occs, i, k);
    j := RowLands(before, now, plans, same, clash, i);
    l := RowLands(before, now, plans, same, clash, k);
    NearVenuesAreOnePlace(before.occs, e, plans[e], near, ratio, names, v, w);
    PlanPicksTheBusiest(before.occs, e, plans[e], same, clash);
  }

  // ----- where the sources of an event end -----

  /** The row stood at a venue, on the source's event, and bore its URL. */
  ghost predicate Bears(s: Snapshot, i: nat, x: nat) {
    x in s.sources && i in s.occs && s.occs[i].event == s.sources[x].event && s.occs[i].venue.Some? && s.occs[i].url == s.sources[x].url != ""
  }

  lemma SourceIsPassed(before: Snapshot, now: Snapshot, plans: map<EventId, Plan>, same: (VenueId, VenueId) -> bool, clash: (VenueId, VenueId) -> bool, x: nat)
    requires PassState(before, same, clash)(now, plans, {}) && x in before.sources
    ensures x in now.sources && SourcePassed(before.occs, plans, before.sources[x], now.sources[x])
  {}

  lemma BearsIsCarries(s: Snapshot, i: nat, x: nat)
    requires x in s.sources
    ensures Bears(s, i, x) <==> CarriesUrl(s.occs, s.sources[x].event, i, s.sources[x].url)
  {}

  /** The row a source goes with. */
  lemma SourceRow(before: Snapshot, now: Snapshot, plans: map<EventId, Plan>, x: nat) returns (i: nat)
    requires x in before.sources && before.sources[x].event in plans && x in now.sources
    requires SourcePassed(before.occs, plans, before.sources[x], now.sources[x]) && exists k :: Bears(before, k, x)
    ensures Bears(before, i, x) && now.sources[x].url == before.sources[x].url
    ensures VenuesPlaced(before.occs, before.sources[x].event, plans[before.sources[x].event])
    ensures now.sources[x].event == Retargeted(plans[before.sources[x].event], before.occs[i]).event
  {
    var e, p := before.sources[x].event, plans[before.sources[x].event];
    var k :| Bears(before, k, x);
    BearsIsCarries(before, k, x);
    i :| CarriesUrl(before.occs, e, i, before.sources[x].url)
      && now.sources[x] == before.sources[x].(event := Retargeted(p, before.occs[i]).event);
    BearsIsCarries(before, i, x);
  }

  /** A source of an event over several venues ends on the event on which a row ends that bore its URL. */
  lemma SourceGoesWithItsRow(before: Snapshot, now: Snapshot, plans: map<EventId, Plan>, same: (VenueId, VenueId) -> bool, clash: (VenueId, VenueId) -> bool,
                             x: nat) returns (i: nat, j: nat)
    requires PassState(before, same, clash)(now, plans, {}) && x in before.sources
    requires Multi(before.occs, before.sources[x].event) && exists k :: Bears(before, k, x)
    ensures Bears(before, i, x) && j in now.occs && now.occs[j].start == before.occs[i].start
    ensures x in now.sources && now.sources[x].url == before.sources[x].url && now.sources[x].event == now.occs[j].event
  {
    var k :| Bears(before, k, x);
    SourceIsPassed(before, now, plans, same, clash, x);
    var l := RowLands(before, now, plans, same, clash, k);
    i := SourceRow(before, now, plans, x);
    j := RowLands(before, now, plans, same, clash, i);
  }

  /** A source whose URL no placed row of its event bore, or whose event was at one venue, stays. */
  lemma OtherSourcesStay(before: Snapshot, now: Snapshot, plans: map<EventId, Plan>, same: (VenueId, VenueId) -> bool, clash: (VenueId, VenueId) -> bool, x: nat)
    requires PassState(before, same, clash)(now, plans, {}) && x in before.sources
    requires !Multi(before.occs, before.sources[x].event) || forall k :: !Bears(before, k, x)
    ensures x in now.sources && now.sources[x] == before.sources[x]
  {
    SourceIsPassed(before, now, plans, same, clash, x);
    if before.sources[x].event in plans {
      PlannedIsMulti(before, now, plans, same, clash, before.sources[x].event);
      forall k ensures !CarriesUrl(before.occs, before.sources[x].event, k, before.sources[x].url) { BearsIsCarries(before, k, x); }
    }
  }

  lemma PlannedIsMulti(before: Snapshot, now: Snapshot, plans: map<EventId, Plan>, same: (VenueId, VenueId) -> bool, clash: (VenueId, VenueId) -> bool, e: EventId)
    requires PassState(before, same, clash)(now, plans, {}) && e in plans
    ensures Multi(before.occs, e)
  {
    MultiEventsAre(before.occs, e);
  }
}
