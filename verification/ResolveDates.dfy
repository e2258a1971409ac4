/** `resolve`: replace an event's listing dates by its schedule, and why repeating it settles. */
module ResolveDates {
  import opened Collections
  import opened Ids
  import opened Text

  type Instant = int

  const TWO_DAYS := 172800
  const PLACEHOLDER := "Unknown venue"
  const NAME_LIMIT := 255

  datatype Occ = Occ(venue: Option<VenueId>, start: Instant, end: Option<Instant>)

  /** A schedule session; a blank place is "". */
  datatype Session = Session(place: string, start: Instant)

  // ----- the decision -----

  predicate HasSpan(occs: seq<Occ>) {
    exists i :: 0 <= i < |occs| && occs[i].end.Some? && occs[i].end.value - occs[i].start > TWO_DAYS
  }

  predicate Recoverable(rows: seq<Session>) {
    exists i :: 0 <= i < |rows| && rows[i].place != ""
  }

  predicate IsPlaceholderRow(o: Occ, placeholders: set<VenueId>) {
    o.venue.Some? && o.venue.value in placeholders
  }

  predicate AtPlaceholder(occs: seq<Occ>, rows: seq<Session>, placeholders: set<VenueId>) {
    Recoverable(rows) && exists i :: 0 <= i < |occs| && IsPlaceholderRow(occs[i], placeholders)
  }

  predicate Scheduled(rows: seq<Session>, t: Instant) { exists j :: 0 <= j < |rows| && rows[j].start == t }
  predicate Shown(occs: seq<Occ>, t: Instant) { exists i :: 0 <= i < |occs| && occs[i].start == t }

  predicate SameStarts(occs: seq<Occ>, rows: seq<Session>) {
    (forall o <- occs :: Scheduled(rows, o.start)) && (forall r <- rows :: Shown(occs, r.start))
  }

  /** The event already shows its schedule. */
  predicate Skips(occs: seq<Occ>, rows: seq<Session>, placeholders: set<VenueId>) {
    !HasSpan(occs) && !AtPlaceholder(occs, rows, placeholders) && SameStarts(occs, rows)
  }

  // ----- what the decision rests on, told on the rows -----

  /** No row runs over two days, and the rows start exactly when the sessions do. */
  ghost predicate ShowsSchedule(occs: seq<Occ>, rows: seq<Session>) {
    && (forall o <- occs | o.end.Some? :: o.end.value - o.start <= 172800)
    && (set o | o in occs :: o.start) == (set r | r in rows :: r.start)
  }

  /** No row is at a placeholder, or the schedule names no place to move it to. */
  ghost predicate NothingToRecover(occs: seq<Occ>, rows: seq<Session>, placeholders: set<VenueId>) {
    (forall r <- rows :: r.place == "") || forall o <- occs | o.venue.Some? :: o.venue.value !in placeholders
  }

  lemma SameStartsIff(occs: seq<Occ>, rows: seq<Session>)
    ensures SameStarts(occs, rows) <==> (set o | o in occs :: o.start) == (set r | r in rows :: r.start)
  {
    var starts, sessions := set o | o in occs :: o.start, set r | r in rows :: r.start;
    forall t ensures t in sessions <==> Scheduled(rows, t) ensures t in starts <==> Shown(occs, t) {
      if t in sessions { var r :| r in rows && r.start == t; }
      if t in starts { var o :| o in occs && o.start == t; }
    }
    if SameStarts(occs, rows) {
      forall t ensures t in starts <==> t in sessions {}
    }
  }

  /** The event is skipped exactly when it shows its schedule and there is nothing to recover. */
  lemma SkipsIff(occs: seq<Occ>, rows: seq<Session>, placeholders: set<VenueId>)
    ensures Skips(occs, rows, placeholders) <==> ShowsSchedule(occs, rows) && NothingToRecover(occs, rows, placeholders)
  {
    SameStartsIff(occs, rows);
    assert HasSpan(occs) <==> exists o <- occs :: o.end.Some? && o.end.value - o.start > 172800;
    assert Recoverable(rows) <==> exists r <- rows :: r.place != "";
    assert (exists i :: 0 <= i < |occs| && IsPlaceholderRow(occs[i], placeholders)) <==> exists o <- occs :: IsPlaceholderRow(o, placeholders);
  }

  function CountAt(occs: seq<Occ>, v: Option<VenueId>): nat {
    |set i: nat | i < |occs| && occs[i].venue == v|
  }

  predicate IsReal(v: Option<VenueId>, placeholders: set<VenueId>) {
    v.Some? && v.value !in placeholders
  }

  /** The venue for sessions without a place: a most common real one, or without any real one the venue of
      the first row. */
  ghost predicate IsFallback(occs: seq<Occ>, placeholders: set<VenueId>, f: Option<VenueId>) {
    && (exists i :: 0 <= i < |occs| && occs[i].venue == f)
    && ((exists i :: 0 <= i < |occs| && IsReal(occs[i].venue, placeholders)) || f == occs[0].venue)
    && ((exists i :: 0 <= i < |occs| && IsReal(occs[i].venue, placeholders)) ==>
          IsReal(f, placeholders) && forall i | 0 <= i < |occs| && IsReal(occs[i].venue, placeholders) :: CountAt(occs, occs[i].venue) <= CountAt(occs, f))
  }

  function Rebuilt(rows: seq<Session>, at: map<string, VenueId>, f: Option<VenueId>): (occs: seq<Occ>)
    requires forall r <- rows :: r.place != "" ==> r.place in at
    ensures |occs| == |rows|
    ensures forall i | 0 <= i < |rows| ::
      occs[i] == Occ(if rows[i].place != "" then Some(at[rows[i].place]) else f, rows[i].start, None)
  {
    seq(|rows|, i requires 0 <= i < |rows| => Occ(if rows[i].place != "" then Some(at[rows[i].place]) else f, rows[i].start, None))
  }

  /** The venue of a row without a place: some row's, a real one unless all are placeholders or none, and no real
      venue has more rows. */
  lemma FallbackIsMostCommon(occs: seq<Occ>, placeholders: set<VenueId>, f: Option<VenueId>, o: Occ)
    requires IsFallback(occs, placeholders, f) && o in occs
    ensures exists x <- occs :: x.venue == f
    ensures o.venue.Some? && o.venue.value !in placeholders ==>
      f.Some? && f.value !in placeholders && |set i: nat | i < |occs| && occs[i].venue == o.venue| <= |set i: nat | i < |occs| && occs[i].venue == f|
    ensures (forall x <- occs | x.venue.Some? :: x.venue.value in placeholders) ==> f == occs[0].venue
  {
    var k :| 0 <= k < |occs| && occs[k] == o;
    if o.venue.Some? && o.venue.value !in placeholders { assert IsReal(occs[k].venue, placeholders); }
    if i :| 0 <= i < |occs| && IsReal(occs[i].venue, placeholders) { assert occs[i] in occs; }
  }

  // ----- the venue table -----

  datatype VenueRow = VenueRow(name: string, geocoded: bool)

  function KeyOf(name: string): string { Fold(if |name| > NAME_LIMIT then name[..NAME_LIMIT] else name) }

  ghost predicate Matches(venues: map<VenueId, VenueRow>, key: string, v: VenueId) {
    v in venues && Fold(venues[v].name) == key
  }

  /** Geocoded rows first, then the lowest id. */
  predicate Before(venues: map<VenueId, VenueRow>, u: VenueId, v: VenueId)
    requires u in venues && v in venues
  {
    if venues[u].geocoded != venues[v].geocoded then venues[u].geocoded else u.n <= v.n
  }

  ghost predicate IsBest(venues: map<VenueId, VenueRow>, key: string, v: VenueId) {
    Matches(venues, key, v) && forall u | Matches(venues, key, u) :: Before(venues, v, u)
  }

  /** The row found for a name bears it, has coordinates if any row of the name does, and then the lowest id. */
  lemma BestMeans(venues: map<VenueId, VenueRow>, key: string, v: VenueId)
    requires IsBest(venues, key, v)
    ensures v in venues && Fold(venues[v].name) == key
    ensures forall u | u in venues && Fold(venues[u].name) == key ::
      (venues[u].geocoded ==> venues[v].geocoded) && (venues[u].geocoded == venues[v].geocoded ==> v.n <= u.n)
  {
    forall u | u in venues && Fold(venues[u].name) == key ensures Before(venues, v, u) { assert Matches(venues, key, u); }
  }

  lemma BestIsUnique(venues: map<VenueId, VenueRow>, key: string, u: VenueId, v: VenueId)
    requires IsBest(venues, key, u) && IsBest(venues, key, v)
    ensures u == v
  {}

  /** The table keeps its rows and gains only names it lacked. */
  ghost predicate Grows(before: map<VenueId, VenueRow>, after: map<VenueId, VenueRow>) {
    && (forall u <- before :: u in after && after[u] == before[u])
    && (forall u <- after :: u in before || forall w :: !Matches(before, Fold(after[u].name), w))
  }

  lemma GrowsOn(a: map<VenueId, VenueRow>, b: map<VenueId, VenueRow>, c: map<VenueId, VenueRow>)
    requires Grows(a, b) && Grows(b, c)
    ensures Grows(a, c)
  {
    forall key: string, w: VenueId | Matches(a, key, w) ensures Matches(b, key, w) {}
    forall u | u in c && u !in a ensures forall w :: !Matches(a, Fold(c[u].name), w) {}
  }

  /** The venue found for a name stays the one found. */
  lemma BestSurvives(before: map<VenueId, VenueRow>, after: map<VenueId, VenueRow>, key: string, v: VenueId)
    requires IsBest(before, key, v) && Grows(before, after)
    ensures IsBest(after, key, v)
  {
    forall u | Matches(after, key, u)
      ensures Before(after, v, u)
    {
      assert Fold(after[u].name) == key && Matches(before, key, v);
      assert Matches(before, key, u);
    }
  }

  class VenueTable {
    var venues: map<VenueId, VenueRow>

    constructor (venues: map<VenueId, VenueRow>)
      ensures this.venues == venues
    {
      this.venues := venues;
    }

    /** The first venue of a folded name: geocoded rows before others, then by id. */
    method First(key: string) returns (r: Option<VenueId>)
      ensures r.Some? ==> IsBest(venues, key, r.value)
      ensures r.None? ==> forall v :: !Matches(venues, key, v)
    {
      r := None;
      var rest := venues.Keys;
      while rest != {}
        invariant rest <= venues.Keys
        invariant r.Some? ==> r.value !in rest && Matches(venues, key, r.value)
        invariant forall u | Matches(venues, key, u) && u !in rest :: r.Some? && Before(venues, r.value, u)
        decreases rest
      {
        var v := Any(rest);
        if Fold(venues[v].name) == key && (r.None? || !Before(venues, r.value, v)) { r := Some(v); }
        rest := rest - {v};
      }
    }

    method Unused() returns (v: VenueId)
      ensures v !in venues
    {
      var n: nat := 0;
      var rest := venues.Keys;
      while rest != {}
        invariant rest <= venues.Keys && forall u <- venues.Keys - rest :: u.n < n
        decreases rest
      {
        var u := Any(rest);
        if n <= u.n { n := u.n + 1; }
        rest := rest - {u};
      }
      v := VenueId(n);
    }

    /** `_get_or_create_venue` for a name that is not blank. */
    method GetOrCreate(name: string) returns (v: VenueId)
      modifies this
      ensures IsBest(venues, KeyOf(name), v) && Grows(old(venues), venues)
      ensures v in venues && Fold(venues[v].name) == KeyOf(name)
      ensures forall u | u in venues && Fold(venues[u].name) == KeyOf(name) ::
        (venues[u].geocoded ==> venues[v].geocoded) && (venues[u].geocoded == venues[v].geocoded ==> v.n <= u.n)
      ensures forall u <- venues :: u in old(venues) || (u == v && venues[u] == VenueRow(if |name| > NAME_LIMIT then name[..NAME_LIMIT] else name, false)
                                                         && forall w :: !Matches(old(venues), KeyOf(name), w))
    {
      var found := First(KeyOf(name));
      if found.Some? {
        BestMeans(venues, KeyOf(name), found.value);
        return found.value;
      }
      v := Unused();
      ghost var before := venues;
      venues := venues[v := VenueRow(if |name| > NAME_LIMIT then name[..NAME_LIMIT] else name, false)];
      forall u | Matches(venues, KeyOf(name), u) ensures u == v {
        assert u == v || Matches(before, KeyOf(name), u);
      }
      BestMeans(venues, KeyOf(name), v);
    }
  }

  // ----- one event in one run -----

  method FindFallback(occs: seq<Occ>, placeholders: set<VenueId>) returns (f: Option<VenueId>)
    requires occs != []
    ensures IsFallback(occs, placeholders, f)
  {
    f := occs[0].venue;
    var found := false;
    for i := 0 to |occs|
      invariant exists k :: 0 <= k < |occs| && occs[k].venue == f
      invariant found || f == occs[0].venue
      invariant found <==> exists k :: 0 <= k < i && IsReal(occs[k].venue, placeholders)
      invariant found ==> IsReal(f, placeholders)
      invariant forall k | 0 <= k < i && IsReal(occs[k].venue, placeholders) :: CountAt(occs, occs[k].venue) <= CountAt(occs, f)
    {
      var v := occs[i].venue;
      if IsReal(v, placeholders) && (!found || CountAt(occs, v) > CountAt(occs, f)) {
        f := v;
      }
      if IsReal(v, placeholders) { found := true; }
    }
  }

  /** The cache names the best row for every place met so far. */
  ghost predicate CacheHolds(cache: map<string, VenueId>, venues: map<VenueId, VenueRow>) {
    forall p <- cache :: IsBest(venues, KeyOf(p), cache[p])
  }

  ghost predicate Extends(cache: map<string, VenueId>, cache': map<string, VenueId>) {
    forall p <- cache :: p in cache' && cache'[p] == cache[p]
  }

  lemma CacheSurvives(cache: map<string, VenueId>, before: map<VenueId, VenueRow>, after: map<VenueId, VenueRow>)
    requires CacheHolds(cache, before) && Grows(before, after)
    ensures CacheHolds(cache, after)
  {
    forall p | p in cache ensures IsBest(after, KeyOf(p), cache[p]) { BestSurvives(before, after, KeyOf(p), cache[p]); }
  }

  method LookUp(table: VenueTable, cache: map<string, VenueId>, place: string) returns (cache': map<string, VenueId>)
    requires CacheHolds(cache, table.venues)
    modifies table
    ensures CacheHolds(cache', table.venues) && place in cache' && Extends(cache, cache')
    ensures Grows(old(table.venues), table.venues)
  {
    cache' := cache;
    if place !in cache {
      ghost var before := table.venues;
      var v := table.GetOrCreate(place);
      CacheSurvives(cache, before, table.venues);
      cache' := cache[place := v];
    }
  }

  /** An event of the run: its rows and its schedule, empty when there is none. */
  datatype Show = Show(occs: seq<Occ>, rows: seq<Session>)

  ghost predicate Placed(rows: seq<Session>, at: map<string, VenueId>) {
    forall r <- rows :: r.place != "" ==> r.place in at
  }

  /** The event was left alone, or its rows are its schedule, placed as `at` says. */
  ghost predicate Resolved(e: Show, occs': seq<Occ>, at: map<string, VenueId>, placeholders: set<VenueId>) {
    if e.rows == [] || e.occs == [] || Skips(e.occs, e.rows, placeholders) then occs' == e.occs
    else Placed(e.rows, at) && exists f :: IsFallback(e.occs, placeholders, f) && occs' == Rebuilt(e.rows, at, f)
  }

  /** The insert loop: a row for each session, at its place or at the fallback. */
  method InsertSessions(table: VenueTable, cache: map<string, VenueId>, rows: seq<Session>, f: Option<VenueId>)
      returns (occs: seq<Occ>, cache': map<string, VenueId>)
    requires CacheHolds(cache, table.venues)
    modifies table
    ensures CacheHolds(cache', table.venues) && Extends(cache, cache') && Grows(old(table.venues), table.venues)
    ensures Placed(rows, cache') && occs == Rebuilt(rows, cache', f)
  {
    cache', occs := cache, [];
    for i := 0 to |rows|
      invariant CacheHolds(cache', table.venues) && Extends(cache, cache') && Grows(old(table.venues), table.venues)
      invariant forall k | 0 <= k < i && rows[k].place != "" :: rows[k].place in cache'
      invariant |occs| == i
      invariant forall k | 0 <= k < i ::
        occs[k] == Occ(if rows[k].place != "" then Some(cache'[rows[k].place]) else f, rows[k].start, None)
    {
      var v := f;
      if rows[i].place != "" {
        ghost var before := table.venues;
        cache' := LookUp(table, cache', rows[i].place);
        GrowsOn(old(table.venues), before, table.venues);
        v := Some(cache'[rows[i].place]);
      }
      occs := occs + [Occ(v, rows[i].start, None)];
    }
    assert occs == Rebuilt(rows, cache', f);
  }

  /** One event: skip it, or replace its rows by its schedule.  The cache is what the places met so far
      resolve to. */
  method ResolveEvent(table: VenueTable, cache: map<string, VenueId>, occs: seq<Occ>, rows: seq<Session>, placeholders: set<VenueId>)
      returns (occs': seq<Occ>, cache': map<string, VenueId>)
    requires CacheHolds(cache, table.venues) && occs != [] && rows != []
    modifies table
    ensures CacheHolds(cache', table.venues) && Extends(cache, cache') && Grows(old(table.venues), table.venues)
    ensures Resolved(Show(occs, rows), occs', cache', placeholders)
    ensures ShowsSchedule(occs', rows)
    ensures ShowsSchedule(occs, rows) && NothingToRecover(occs, rows, placeholders) ==> occs' == occs
  {
    SkipsIff(occs, rows, placeholders);
    if !HasSpan(occs) && !AtPlaceholder(occs, rows, placeholders) && SameStarts(occs, rows) {
      return occs, cache;
    }
    var f := FindFallback(occs, placeholders);
    occs', cache' := InsertSessions(table, cache, rows, f);
    RebuiltStarts(rows, occs');
  }

  /** Told on the rows: an event that shows its schedule and has nothing to recover is as it was; any other has its
      sessions for rows, in their order and without an end, each at its place or at one fallback; either way it
      shows its schedule. */
  lemma ResolvedMeans(e: Show, occs': seq<Occ>, at: map<string, VenueId>, placeholders: set<VenueId>) returns (f: Option<VenueId>)
    requires Resolved(e, occs', at, placeholders) && e.rows != [] && e.occs != []
    ensures ShowsSchedule(occs', e.rows)
    ensures ShowsSchedule(e.occs, e.rows) && NothingToRecover(e.occs, e.rows, placeholders) ==> occs' == e.occs
    ensures !(ShowsSchedule(e.occs, e.rows) && NothingToRecover(e.occs, e.rows, placeholders)) ==>
      && IsFallback(e.occs, placeholders, f) && |occs'| == |e.rows|
      && forall i | 0 <= i < |e.rows| :: occs'[i].start == e.rows[i].start && occs'[i].end == None
           && (if e.rows[i].place == "" then occs'[i].venue == f
               else e.rows[i].place in at && occs'[i].venue == Some(at[e.rows[i].place]))
  {
    SkipsIff(e.occs, e.rows, placeholders);
    f := None;
    if !Skips(e.occs, e.rows, placeholders) {
      f :| IsFallback(e.occs, placeholders, f) && occs' == Rebuilt(e.rows, at, f);
      assert forall i | 0 <= i < |e.rows| :: e.rows[i] in e.rows;
      RebuiltStarts(e.rows, occs');
    }
  }

  lemma RebuiltStarts(rows: seq<Session>, occs: seq<Occ>)
    requires |occs| == |rows| && forall i | 0 <= i < |rows| :: occs[i].start == rows[i].start && occs[i].end == None
    ensures ShowsSchedule(occs, rows)
  {
    var starts, sessions := set o | o in occs :: o.start, set r | r in rows :: r.start;
    forall t ensures t in starts <==> t in sessions {
      if t in starts {
        var i :| 0 <= i < |occs| && occs[i].start == t;
        assert rows[i] in rows;
      }
      if t in sessions {
        var i :| 0 <= i < |rows| && rows[i].start == t;
        assert occs[i] in occs;
      }
    }
  }

  lemma ResolvedStays(e: Show, occs': seq<Occ>, at: map<string, VenueId>, at': map<string, VenueId>, placeholders: set<VenueId>)
    requires Resolved(e, occs', at, placeholders) && Extends(at, at')
    ensures Resolved(e, occs', at', placeholders)
  {
    if !(e.rows == [] || e.occs == [] || Skips(e.occs, e.rows, placeholders)) {
      var f :| IsFallback(e.occs, placeholders, f) && occs' == Rebuilt(e.rows, at, f);
      assert forall i | 0 <= i < |e.rows| :: e.rows[i] in e.rows;
      assert occs' == Rebuilt(e.rows, at', f);
    }
  }

  /** The rows that bear the placeholder's name, looked up once at the start of a run. */
  function PlaceholderIds(venues: map<VenueId, VenueRow>): set<VenueId> {
    set v | v in venues && venues[v].name == PLACEHOLDER
  }

  /** The run: all events share one cache, so a place resolves to one venue throughout. */
  method Resolve(table: VenueTable, shows: seq<Show>) returns (after: seq<seq<Occ>>, at: map<string, VenueId>)
    modifies table
    ensures CacheHolds(at, table.venues) && Grows(old(table.venues), table.venues)
    ensures |after| == |shows| && forall i | 0 <= i < |shows| :: Resolved(shows[i], after[i], at, PlaceholderIds(old(table.venues)))
    ensures forall i | 0 <= i < |shows| && shows[i].rows != [] && shows[i].occs != [] :: ShowsSchedule(after[i], shows[i].rows)
  {
    var placeholders := PlaceholderIds(table.venues);
    at, after := map[], [];
    for i := 0 to |shows|
      invariant CacheHolds(at, table.venues) && Grows(old(table.venues), table.venues)
      invariant |after| == i && forall k | 0 <= k < i :: Resolved(shows[k], after[k], at, placeholders)
    {
      var e := shows[i];
      var occs := e.occs;
      if e.rows != [] && e.occs != [] {
        ghost var before, venues := at, table.venues;
        occs, at := ResolveEvent(table, at, e.occs, e.rows, placeholders);
        GrowsOn(old(table.venues), venues, table.venues);
        forall k | 0 <= k < i ensures Resolved(shows[k], after[k], at, placeholders) {
          ResolvedStays(shows[k], after[k], before, at, placeholders);
        }
      }
      after := after + [occs];
    }
    forall i | 0 <= i < |shows| && shows[i].rows != [] && shows[i].occs != [] ensures ShowsSchedule(after[i], shows[i].rows) {
      var f := ResolvedMeans(shows[i], after[i], at, placeholders);
    }
  }
}
