/** What the venue pass finds and what it leaves, told on the venues, their distances and the rows. */
module SettledCatalogue {
  import opened Collections
  import opened Ids
  import opened Tables
  import opened TitleMatch
  import opened VenueMatch
  import opened VenueNames
  import opened VenueClusters
  import opened VenueQuery
  import opened UnionFind
  import opened PairSearch
  import opened ResplitPlan
  import opened ResplitPass
  import opened HealingFlow

  /** Two venues that are on the map and named, in the order of their ids. */
  ghost predicate Mapped(g: Gazetteer, w: Catalogue, a: VenueId, b: VenueId) {
    && a in w.venues && a in g.places && g.places[a].located && g.places[a].name != ""
    && b in w.venues && b in g.places && g.places[b].located && g.places[b].name != "" && a.n < b.n
  }

  /** A row of each shows one event at one instant. */
  ghost predicate ShareShowing(occs: map<nat, Occ>, a: VenueId, b: VenueId) {
    exists i, j :: i in occs && j in occs && occs[i].venue == Some(a) && occs[j].venue == Some(b)
      && occs[i].event == occs[j].event && occs[i].start == occs[j].start
  }

  /** Their names and addresses say they are one place. */
  ghost predicate SamePlaceByName(k: Setting, w: Catalogue, a: VenueId, b: VenueId)
    requires a in k.g.places && b in k.g.places
  {
    var (p, q) := (k.g.places[a], k.g.places[b]);
    !OppositeHalls(p.name, q.name)
    && (k.ratio(p.name, q.name) >= 85.0 || NameWithin(p.name, q.name + " " + q.address) || NameWithin(q.name, p.name + " " + p.address)
        || WordsWithin(p.name, q.name) || WordsWithin(q.name, p.name)
        || (ShareShowing(w.tables.occs, a, b) && k.ratio(p.name, q.name) >= 70.0))
  }

  /** A row of each, on one Moscow day, belong to two events with titles that match at the fuzzy level. */
  ghost predicate ShowAlike(m: Matcher, s: Snapshot, a: VenueId, b: VenueId) {
    exists i, j :: ShowsAlike(m, s, a, b, i, j)
  }

  ghost predicate ShowsAlike(m: Matcher, s: Snapshot, a: VenueId, b: VenueId, i: nat, j: nat) {
    ShowThatDay(s, a, b, i, j) && SameEvent(m, s.events[s.occs[i].event].title, s.events[s.occs[j].event].title, FuzzyLevel)
  }

  ghost predicate ShowThatDay(s: Snapshot, a: VenueId, b: VenueId, i: nat, j: nat) {
    && i in s.occs && j in s.occs && s.occs[i].venue == Some(a) && s.occs[j].venue == Some(b)
    && (s.occs[i].start + 10800) / 86400 == (s.occs[j].start + 10800) / 86400
    && s.occs[i].event != s.occs[j].event && s.occs[i].event in s.events && s.occs[j].event in s.events
  }

  // ----- the query on the fields -----

  lemma MappedIsLocated(g: Gazetteer, w: Catalogue, a: VenueId, b: VenueId)
    ensures Mapped(g, w, a, b) <==> a in Located(g, w) && b in Located(g, w) && a.n < b.n
    ensures Near(g, w, a, b) <==> Mapped(g, w, a, b) && g.dist(a, b) <= 150.0
  {}

  lemma CoHostIff(occs: map<nat, Occ>, a: VenueId, b: VenueId)
    ensures CoHost(occs, a, b) <==> ShareShowing(occs, a, b)
  {}

  lemma MeetingIsThere(s: Snapshot, a: VenueId, b: VenueId, i: nat, j: nat)
    ensures Meeting(i, j) in Meetings(s, a, b) <==> ShowThatDay(s, a, b, i, j)
  {}

  lemma SameShowIs(m: Matcher, s: Snapshot, i: nat, j: nat)
    requires i in s.occs && j in s.occs && s.occs[i].event in s.events && s.occs[j].event in s.events
    ensures SameShow(m, s, Meeting(i, j)) == SameEvent(m, s.events[s.occs[i].event].title, s.events[s.occs[j].event].title, FuzzyLevel)
  {}

  lemma MeetingIff(m: Matcher, s: Snapshot, a: VenueId, b: VenueId, i: nat, j: nat)
    ensures Meeting(i, j) in Meetings(s, a, b) && SameShow(m, s, Meeting(i, j)) <==> ShowsAlike(m, s, a, b, i, j)
  {
    MeetingIsThere(s, a, b, i, j);
    if ShowThatDay(s, a, b, i, j) { SameShowIs(m, s, i, j); }
  }

  lemma MayBeSaid(m: Matcher, s: Snapshot, a: VenueId, b: VenueId, answer: bool)
    requires MaySay(m, s, a, b, answer)
    ensures answer ==> ShowAlike(m, s, a, b)
    ensures |Meetings(s, a, b)| <= 200 ==> (answer <==> ShowAlike(m, s, a, b))
  {
    if answer {
      var rows :| Sample(Meetings(s, a, b), rows) && AnySameShow(m, s, rows);
      var p :| p in rows && SameShow(m, s, p);
      MeetingIff(m, s, a, b, p.first, p.second);
    }
    if |Meetings(s, a, b)| <= 200 {
      FewMeetingsDecide(m, s, a, b, answer);
      if ShowAlike(m, s, a, b) {
        var i, j :| ShowsAlike(m, s, a, b, i, j);
        MeetingIff(m, s, a, b, i, j);
      }
    }
  }

  lemma EvidenceIff(k: Setting, m: Matcher, w: Catalogue, c: Candidate)
    requires IsRow(k.g, m, w, c)
    ensures Mapped(k.g, w, c.a, c.b) && c.a in Located(k.g, w) && c.b in Located(k.g, w)
    ensures Evidence(Located(k.g, w), k.ratio, c) <==>
      SamePlaceByName(k, w, c.a, c.b)
      || (c.dist <= 30.0 && !OppositeHalls(k.g.places[c.a].name, k.g.places[c.b].name) && c.sharesShow)
  {
    MappedIsLocated(k.g, w, c.a, c.b);
    CoHostIff(w.tables.occs, c.a, c.b);
    var (p, q) := (k.g.places[c.a], k.g.places[c.b]);
    NamesMatchIff(k.ratio, p.name, q.name, c.coHost, p.address, q.address);
    ContrastsIff(p.name, q.name);
  }

  // ----- what is found and what is left -----

  /** Whenever the pass finds evidence, there are two mapped venues within 150 m that are one place by their names, or
      within 30 m and no opposite halls, with the same show under two events on one day. */
  lemma EvidenceMeans(k: Setting, m: Matcher, rows: seq<Candidate>, w: Catalogue) returns (a: VenueId, b: VenueId)
    requires AreRows(k.g, m, w, rows) && AnyEvidence(k, w, rows)
    ensures Mapped(k.g, w, a, b) && k.g.dist(a, b) <= 150.0
    ensures SamePlaceByName(k, w, a, b)
      || (k.g.dist(a, b) <= 30.0 && !OppositeHalls(k.g.places[a].name, k.g.places[b].name) && ShowAlike(m, w.tables, a, b))
  {
    var c :| c in rows && c.a in Located(k.g, w) && c.b in Located(k.g, w) && Evidence(Located(k.g, w), k.ratio, c);
    a, b := c.a, c.b;
    EvidenceIff(k, m, w, c);
    MappedIsLocated(k.g, w, a, b);
    MayBeSaid(m, w.tables, a, b, c.sharesShow);
  }

  /** Where it finds none, no two mapped venues within 150 m are one place by their names, and within 30 m only opposite
      halls show the same under two events on one day, unless more than 200 pairs of rows meet there. */
  lemma NoEvidenceMeans(k: Setting, m: Matcher, rows: seq<Candidate>, w: Catalogue, a: VenueId, b: VenueId)
    requires AreRows(k.g, m, w, rows) && !AnyEvidence(k, w, rows) && Mapped(k.g, w, a, b)
    ensures k.g.dist(a, b) <= 150.0 ==> !SamePlaceByName(k, w, a, b)
    ensures k.g.dist(a, b) <= 30.0 && |Meetings(w.tables, a, b)| <= 200 && ShowAlike(m, w.tables, a, b) ==>
      OppositeHalls(k.g.places[a].name, k.g.places[b].name)
  {
    MappedIsLocated(k.g, w, a, b);
    if k.g.dist(a, b) <= 150.0 {
      var c :| c in rows && c.a == a && c.b == b;
      EvidenceIff(k, m, w, c);
      MayBeSaid(m, w.tables, a, b, c.sharesShow);
    }
  }

  /** So a catalogue that a run of the flow leaves as it was has no two such venues. */
  lemma IdleFlowLeavesNoTwins(k: Setting, m: Matcher, rows: seq<Candidate>, w: Catalogue, a: VenueId, b: VenueId)
    requires Flow(k, m, rows, w, w) && Mapped(k.g, w, a, b) && k.g.dist(a, b) <= 150.0
    ensures !SamePlaceByName(k, w, a, b)
  {
    FlowIsIdleIff(k, m, rows, w, w);
    FlowListsRows(k, m, rows, w, w);
    NoEvidenceMeans(k, m, rows, w, a, b);
  }

  // ----- the venue that stays -----

  ghost function RowsAt(s: Snapshot, v: VenueId): set<nat> { set i | i in s.occs && s.occs[i].venue == Some(v) }

  lemma OccurrencesCount(g: Gazetteer, w: Catalogue, v: VenueId)
    requires v in Located(g, w)
    ensures Located(g, w)[v].occurrences == |RowsAt(w.tables, v)|
  {
    assert (set i | i in w.tables.occs && w.tables.occs[i].venue == Some(v)) == RowsAt(w.tables, v);
  }

  /** A venue is merged into one with more rows, or as many and the lower id. */
  lemma MergedIntoTheBusier(g: Gazetteer, ratio: (string, string) -> real, m: Matcher, w: Catalogue, rows: seq<Candidate>,
                            pairs: seq<Pair<VenueId>>, p: Pair<VenueId>)
    requires PlannedBy(g, ratio, m, w, rows, pairs) && p in pairs
    ensures |RowsAt(w.tables, p.0)| < |RowsAt(w.tables, p.1)| || (|RowsAt(w.tables, p.0)| == |RowsAt(w.tables, p.1)| && p.1.n < p.0.n)
  {
    var accepted :| IsVenuePlan(Located(g, w), ratio, rows, accepted, pairs);
    NotConnectedApart(accepted, p.0);
    BusiestVenueStays(Located(g, w), ratio, rows, accepted, pairs, p, p.0);
    OccurrencesCount(g, w, p.0);
    OccurrencesCount(g, w, p.1);
  }

  lemma NotConnectedApart<T(!new)>(edges: set<Pair<T>>, x: T)
    ensures Connected(edges, x, x)
  {}

  // ----- what the other two passes leave -----

  /** A catalogue that a run of the flow leaves as it was has no two active titled events on one stage at one instant
      under titles the slot test takes for one, and none that share a day and match at the automatic level. */
  lemma IdleFlowLeavesNoDuplicates(k: Setting, m: Matcher, rows: seq<Candidate>, w: Catalogue, d: EventId, e: EventId)
    requires Flow(k, m, rows, w, w) && d in w.tables.events && e in w.tables.events && d.n < e.n
    requires w.tables.events[d].active && w.tables.events[d].title != "" && w.tables.events[e].active && w.tables.events[e].title != ""
    ensures MeetAtOnce(w.tables.occs, d, e) ==> !SlotMatch(m, w.tables.events[d].title, w.tables.events[e].title)
    ensures MeetOnADay(w.tables.occs, w.tables.events, (d, e)) ==> !SameEvent(m, w.tables.events[d].title, w.tables.events[e].title, AutoLevel)
  {
    FlowIsIdleIff(k, m, rows, w, w);
    SafePairIff(m, w.tables.occs, w.tables.events, (d, e));
    assert !IsSafePair(m, w.tables.occs, Titles(w.tables.events), (d, e));
  }

  /** And no event at two venues. */
  lemma IdleFlowLeavesOneVenue(k: Setting, m: Matcher, rows: seq<Candidate>, w: Catalogue, i: nat, j: nat)
    requires Flow(k, m, rows, w, w) && i in w.tables.occs && j in w.tables.occs && w.tables.occs[i].event == w.tables.occs[j].event
    requires w.tables.occs[i].venue.Some? && w.tables.occs[j].venue.Some?
    ensures w.tables.occs[i].venue == w.tables.occs[j].venue
  {
    FlowIsIdleIff(k, m, rows, w, w);
    var e := w.tables.occs[i].event;
    MultiEventsAre(w.tables.occs, e);
    assert InScope(w.tables.occs[i], e) && InScope(w.tables.occs[j], e);
  }
}
