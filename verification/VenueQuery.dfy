/** The queries of the venue pass: which pairs of venues are candidates, and what the tables say about them. */
module VenueQuery {
  import opened Collections
  import opened Ids
  import opened Tables
  import opened TitleMatch
  import opened VenueClusters

  const RADIUS_M := 150.0
  const SHOW_LIMIT := 200

  /** The columns of the venue table no pass touches.  Coordinates enter through the distances. */
  datatype Place = Place(name: string, address: string, located: bool)
  datatype Gazetteer = Gazetteer(places: map<VenueId, Place>, dist: (VenueId, VenueId) -> real)

  /** The tables the flow rewrites. */
  datatype Catalogue = Catalogue(tables: Snapshot, venues: set<VenueId>)

  /** The located and named venues, with their number of rows. */
  function Located(g: Gazetteer, w: Catalogue): map<VenueId, Venue> {
    map v | v in w.venues && v in g.places && g.places[v].located && g.places[v].name != "" ::
      Venue(g.places[v].name, g.places[v].address, |set i | i in w.tables.occs && w.tables.occs[i].venue == Some(v)|)
  }

  predicate Near(g: Gazetteer, w: Catalogue, a: VenueId, b: VenueId) {
    a in Located(g, w) && b in Located(g, w) && a.n < b.n && g.dist(a, b) <= RADIUS_M
  }

  /** Both show one event at one instant. */
  predicate CoHost(occs: map<nat, Occ>, a: VenueId, b: VenueId) {
    exists i <- occs, j <- occs :: occs[i].venue == Some(a) && occs[j].venue == Some(b)
      && occs[i].event == occs[j].event && occs[i].start == occs[j].start
  }

  // ----- the same show under two event rows -----

  datatype Meeting = Meeting(first: nat, second: nat)

  /** Rows of the two venues on one Moscow day that belong to different events. */
  function Meetings(s: Snapshot, a: VenueId, b: VenueId): set<Meeting> {
    set i, j | i in s.occs && j in s.occs && s.occs[i].venue == Some(a) && s.occs[j].venue == Some(b)
      && MoscowDay(s.occs[i].start) == MoscowDay(s.occs[j].start) && s.occs[i].event != s.occs[j].event
      && s.occs[i].event in s.events && s.occs[j].event in s.events :: Meeting(i, j)
  }

  predicate SameShow(m: Matcher, s: Snapshot, p: Meeting) {
    && p.first in s.occs && p.second in s.occs && s.occs[p.first].event in s.events && s.occs[p.second].event in s.events
    && SameEvent(m, s.events[s.occs[p.first].event].title, s.events[s.occs[p.second].event].title, FuzzyLevel)
  }

  ghost predicate AnySameShow(m: Matcher, s: Snapshot, rows: set<Meeting>) {
    exists p <- rows :: SameShow(m, s, p)
  }

  /** What a query without an order and with a limit may return. */
  ghost predicate Sample<T>(all: set<T>, rows: set<T>) {
    rows <= all && |rows| == if |all| <= SHOW_LIMIT then |all| else SHOW_LIMIT
  }

  /** `_share_same_show` may give this answer. */
  ghost predicate MaySay(m: Matcher, s: Snapshot, a: VenueId, b: VenueId, answer: bool) {
    exists rows :: Sample(Meetings(s, a, b), rows) && answer == AnySameShow(m, s, rows)
  }

  /** Below the limit nothing is left to chance. */
  lemma FewMeetingsDecide(m: Matcher, s: Snapshot, a: VenueId, b: VenueId, answer: bool)
    requires |Meetings(s, a, b)| <= SHOW_LIMIT && MaySay(m, s, a, b, answer)
    ensures answer <==> AnySameShow(m, s, Meetings(s, a, b))
  {
    var rows :| Sample(Meetings(s, a, b), rows) && answer == AnySameShow(m, s, rows);
    FullSample(Meetings(s, a, b), rows);
  }

  lemma FullSample<T>(all: set<T>, rows: set<T>)
    requires rows <= all && |rows| == |all|
    ensures rows == all
  {
    if x :| x in all && x !in rows {
      SubsetSize(rows, all - {x});
    }
  }

  /** The rows of such a query. */
  method Limited<T(==)>(all: set<T>) returns (rows: seq<T>)
    ensures Sample(all, Elements(rows))
  {
    rows := SeqOf(all);
    DistinctSize(rows);
    if |rows| > SHOW_LIMIT {
      rows := rows[..SHOW_LIMIT];
      DistinctSize(rows);
    }
  }

  method ShareSameShow(m: Matcher, s: Snapshot, a: VenueId, b: VenueId) returns (answer: bool)
    ensures MaySay(m, s, a, b, answer)
  {
    var rows := Limited(Meetings(s, a, b));
    answer := false;
    for i := 0 to |rows|
      invariant answer == AnySameShow(m, s, Elements(rows[..i]))
    {
      OneMoreMeeting(m, s, rows, i);
      if SameShow(m, s, rows[i]) { answer := true; }
    }
    assert rows[..|rows|] == rows;
  }

  lemma OneMoreMeeting(m: Matcher, s: Snapshot, rows: seq<Meeting>, i: nat)
    requires i < |rows|
    ensures AnySameShow(m, s, Elements(rows[..i + 1])) <==> AnySameShow(m, s, Elements(rows[..i])) || SameShow(m, s, rows[i])
  {
    assert Elements(rows[..i + 1]) == Elements(rows[..i]) + {rows[i]};
  }

  // ----- the candidate query -----

  /** The row of a pair, whichever rows the show test sampled. */
  ghost predicate IsRow(g: Gazetteer, m: Matcher, w: Catalogue, c: Candidate) {
    && Near(g, w, c.a, c.b) && c.dist == g.dist(c.a, c.b)
    && c.coHost == CoHost(w.tables.occs, c.a, c.b) && MaySay(m, w.tables, c.a, c.b, c.sharesShow)
  }

  /** One row for each near pair, in any order. */
  ghost predicate AreRows(g: Gazetteer, m: Matcher, w: Catalogue, rows: seq<Candidate>) {
    && (forall c <- rows :: IsRow(g, m, w, c))
    && (forall a, b | Near(g, w, a, b) :: exists c <- rows :: c.a == a && c.b == b)
    && (forall i, j :: 0 <= i < j < |rows| ==> (rows[i].a, rows[i].b) != (rows[j].a, rows[j].b))
  }

  method CandidateRows(g: Gazetteer, m: Matcher, w: Catalogue) returns (rows: seq<Candidate>)
    ensures AreRows(g, m, w, rows)
  {
    var located := Located(g, w).Keys;
    var near := SeqOf(set a, b | a in located && b in located && Near(g, w, a, b) :: (a, b));
    rows := [];
    for i := 0 to |near|
      invariant |rows| == i && forall k | 0 <= k < i :: IsRow(g, m, w, rows[k]) && (rows[k].a, rows[k].b) == near[k]
    {
      var (a, b) := near[i];
      assert (a, b) in Elements(near);
      var shares := ShareSameShow(m, w.tables, a, b);
      rows := rows + [Candidate(a, b, g.dist(a, b), CoHost(w.tables.occs, a, b), shares)];
    }
    forall a, b | Near(g, w, a, b) ensures exists c <- rows :: c.a == a && c.b == b {
      assert (a, b) in Elements(near);
      var k :| 0 <= k < |near| && near[k] == (a, b);
      assert rows[k] in rows;
    }
  }
}
