/** Repeated date resolution: why it settles, exactly when it does, and what it does to the occurrence key. */
module ResolveRuns {
  import opened Collections
  import opened Ids
  import opened Text
  import T = Tables
  import opened ResolveDates

  // ----- a rebuild and the next one -----

  /** No place of the schedule resolves to the placeholder venue. */
  ghost predicate PlacesAreReal(rows: seq<Session>, at: map<string, VenueId>, placeholders: set<VenueId>)
    requires Placed(rows, at)
  {
    forall r <- rows :: r.place != "" ==> at[r.place] !in placeholders
  }

  lemma RebuiltShowsSchedule(rows: seq<Session>, at: map<string, VenueId>, f: Option<VenueId>)
    requires Placed(rows, at)
    ensures !HasSpan(Rebuilt(rows, at, f)) && SameStarts(Rebuilt(rows, at, f), rows)
  {
    var occs := Rebuilt(rows, at, f);
    forall o | o in occs ensures Scheduled(rows, o.start) {
      var i :| 0 <= i < |occs| && occs[i] == o;
      assert rows[i].start == o.start;
    }
    forall r | r in rows ensures Shown(occs, r.start) {
      var i :| 0 <= i < |rows| && rows[i] == r;
      assert occs[i].start == r.start;
    }
  }

  /** A rebuild with a real fallback is final. */
  lemma RealFallbackSettles(rows: seq<Session>, at: map<string, VenueId>, placeholders: set<VenueId>, f: Option<VenueId>)
    requires Placed(rows, at) && PlacesAreReal(rows, at, placeholders) && !IsPlaceholderVenue(f, placeholders)
    ensures Skips(Rebuilt(rows, at, f), rows, placeholders)
  {
    RebuiltShowsSchedule(rows, at, f);
    assert forall i | 0 <= i < |rows| :: rows[i] in rows;
  }

  /** If a rebuild still needs another, it placed a row at a real venue for the next one to fall back on. */
  lemma SecondFallbackIsReal(rows: seq<Session>, at: map<string, VenueId>, placeholders: set<VenueId>, f: Option<VenueId>, g: Option<VenueId>)
    requires Placed(rows, at) && PlacesAreReal(rows, at, placeholders)
    requires !Skips(Rebuilt(rows, at, f), rows, placeholders) && IsFallback(Rebuilt(rows, at, f), placeholders, g)
    ensures IsReal(g, placeholders)
  {
    RebuiltShowsSchedule(rows, at, f);
    var i :| 0 <= i < |rows| && rows[i].place != "";
    assert rows[i] in rows;
    assert IsReal(Rebuilt(rows, at, f)[i].venue, placeholders);
  }

  predicate IsPlaceholderVenue(v: Option<VenueId>, placeholders: set<VenueId>) {
    v.Some? && v.value in placeholders
  }

  // ----- run after run, by the names in the schedule -----

  /** No place of the schedule bears the placeholder's name, up to case and ё. */
  predicate NamesAreReal(rows: seq<Session>) {
    forall r <- rows :: r.place != "" ==> KeyOf(r.place) != Fold(PLACEHOLDER)
  }

  /** The rows point into the venue table. */
  ghost predicate Refers(occs: seq<Occ>, venues: map<VenueId, VenueRow>) {
    forall o <- occs :: o.venue.Some? ==> o.venue.value in venues
  }

  /** What a run does to one event: the table before and after it, and the event's rows afterwards. */
  ghost predicate RunsTo(before: map<VenueId, VenueRow>, after: map<VenueId, VenueRow>, e: Show, occs': seq<Occ>) {
    Grows(before, after) && exists at :: CacheHolds(at, after) && Resolved(e, occs', at, PlaceholderIds(before))
  }

  /** Each run fills its own cache, yet a place resolves to the same venue in every run. */
  lemma RunsAgreeOnPlaces(v1: map<VenueId, VenueRow>, v2: map<VenueId, VenueRow>, at1: map<string, VenueId>, at2: map<string, VenueId>, p: string)
    requires Grows(v1, v2) && CacheHolds(at1, v1) && CacheHolds(at2, v2) && p in at1 && p in at2
    ensures at1[p] == at2[p]
  {
    BestSurvives(v1, v2, KeyOf(p), at1[p]);
    BestIsUnique(v2, KeyOf(p), at1[p], at2[p]);
  }

  /** A real name never resolves to the placeholder, in this run or a later one. */
  lemma RealNamesResolveToReal(v: map<VenueId, VenueRow>, later: map<VenueId, VenueRow>, rows: seq<Session>, at: map<string, VenueId>)
    requires CacheHolds(at, v) && Grows(v, later) && NamesAreReal(rows) && Placed(rows, at)
    ensures PlacesAreReal(rows, at, PlaceholderIds(later))
  {
    forall r | r in rows && r.place != "" ensures at[r.place] !in PlaceholderIds(later) {
      assert IsBest(v, KeyOf(r.place), at[r.place]);
    }
  }

  lemma RowsSeeOnePlaceholder(occs: seq<Occ>, v: map<VenueId, VenueRow>, later: map<VenueId, VenueRow>)
    requires Refers(occs, v) && Grows(v, later)
    ensures forall i | 0 <= i < |occs| :: IsPlaceholderRow(occs[i], PlaceholderIds(v)) == IsPlaceholderRow(occs[i], PlaceholderIds(later))
  {
    assert forall i | 0 <= i < |occs| :: occs[i] in occs;
  }

  /** Which rows are the placeholder's settles what a run makes of an event. */
  lemma SamePlaceholdersSameRun(e: Show, occs': seq<Occ>, at: map<string, VenueId>, ph: set<VenueId>, ph': set<VenueId>)
    requires forall i | 0 <= i < |e.occs| :: IsPlaceholderRow(e.occs[i], ph) == IsPlaceholderRow(e.occs[i], ph')
    requires Resolved(e, occs', at, ph)
    ensures Resolved(e, occs', at, ph')
  {
    assert Skips(e.occs, e.rows, ph) == Skips(e.occs, e.rows, ph');
    forall f | IsFallback(e.occs, ph, f) ensures IsFallback(e.occs, ph', f) {
      assert forall i | 0 <= i < |e.occs| :: IsReal(e.occs[i].venue, ph) == IsReal(e.occs[i].venue, ph');
    }
  }

  lemma RunLeavesReferences(before: map<VenueId, VenueRow>, after: map<VenueId, VenueRow>, e: Show, occs': seq<Occ>)
    requires RunsTo(before, after, e, occs') && Refers(e.occs, before)
    ensures Refers(occs', after)
  {
    var at :| CacheHolds(at, after) && Resolved(e, occs', at, PlaceholderIds(before));
    if !(e.rows == [] || e.occs == [] || Skips(e.occs, e.rows, PlaceholderIds(before))) {
      var f :| IsFallback(e.occs, PlaceholderIds(before), f) && occs' == Rebuilt(e.rows, at, f);
      var i :| 0 <= i < |e.occs| && e.occs[i].venue == f;
      assert e.occs[i] in e.occs;
      forall o | o in occs' && o.venue.Some? ensures o.venue.value in after {
        var k :| 0 <= k < |occs'| && occs'[k] == o;
        assert e.rows[k] in e.rows;
        if e.rows[k].place != "" { assert IsBest(after, KeyOf(e.rows[k].place), at[e.rows[k].place]); }
      }
    }
  }

  /** Seen from any later table, a run leaves the event as it was because it skips it, or rebuilds it. */
  lemma RunSeenLater(before: map<VenueId, VenueRow>, after: map<VenueId, VenueRow>, later: map<VenueId, VenueRow>, e: Show, occs': seq<Occ>)
      returns (at: map<string, VenueId>)
    requires RunsTo(before, after, e, occs') && Grows(after, later) && Refers(e.occs, before)
    ensures Resolved(e, occs', at, PlaceholderIds(later))
    ensures NamesAreReal(e.rows) && Placed(e.rows, at) ==> PlacesAreReal(e.rows, at, PlaceholderIds(later))
  {
    at :| CacheHolds(at, after) && Resolved(e, occs', at, PlaceholderIds(before));
    GrowsOn(before, after, later);
    RowsSeeOnePlaceholder(e.occs, before, later);
    SamePlaceholdersSameRun(e, occs', at, PlaceholderIds(before), PlaceholderIds(later));
    if NamesAreReal(e.rows) && Placed(e.rows, at) { RealNamesResolveToReal(after, later, e.rows, at); }
  }

  /** Two runs of one event and a later table; between them the table gains only names it lacked. */
  ghost predicate TwoRuns(v0: map<VenueId, VenueRow>, v1: map<VenueId, VenueRow>, v2: map<VenueId, VenueRow>, v3: map<VenueId, VenueRow>,
                          later: map<VenueId, VenueRow>, rows: seq<Session>, occs: seq<Occ>, occs1: seq<Occ>, occs2: seq<Occ>) {
    && occs != [] && Refers(occs, v0)
    && RunsTo(v0, v1, Show(occs, rows), occs1) && Grows(v1, v2) && RunsTo(v2, v3, Show(occs1, rows), occs2) && Grows(v3, later)
  }

  /** Two rebuilds at most: from any rows and any venue table, after two runs every later run skips the
      event, if no place of the schedule bears the placeholder's name. */
  lemma TwoRunsSettle(v0: map<VenueId, VenueRow>, v1: map<VenueId, VenueRow>, v2: map<VenueId, VenueRow>, v3: map<VenueId, VenueRow>,
                      later: map<VenueId, VenueRow>, rows: seq<Session>, occs: seq<Occ>, occs1: seq<Occ>, occs2: seq<Occ>)
    requires rows != [] && NamesAreReal(rows) && TwoRuns(v0, v1, v2, v3, later, rows, occs, occs1, occs2)
    ensures Skips(occs2, rows, PlaceholderIds(later))
    ensures ShowsSchedule(occs2, rows)
    ensures (exists r <- rows :: r.place != "") ==>
      forall o <- occs2 | o.venue.Some? && o.venue.value in later :: later[o.venue.value].name != "Unknown venue"
  {
    SkipsIff(occs2, rows, PlaceholderIds(later));
    GrowsOn(v2, v3, later);
    GrowsOn(v1, v2, later);
    RunLeavesReferences(v0, v1, Show(occs, rows), occs1);
    assert Refers(occs1, v2);
    var at1 := RunSeenLater(v0, v1, later, Show(occs, rows), occs1);
    var at2 := RunSeenLater(v2, v3, later, Show(occs1, rows), occs2);
    ResolvedTwiceSettles(rows, occs, occs1, occs2, at1, at2, PlaceholderIds(later));
  }

  lemma ResolvedTwiceSettles(rows: seq<Session>, occs: seq<Occ>, occs1: seq<Occ>, occs2: seq<Occ>, at1: map<string, VenueId>,
                             at2: map<string, VenueId>, ph: set<VenueId>)
    requires rows != [] && occs != []
    requires Resolved(Show(occs, rows), occs1, at1, ph) && Resolved(Show(occs1, rows), occs2, at2, ph)
    requires (Placed(rows, at1) ==> PlacesAreReal(rows, at1, ph)) && (Placed(rows, at2) ==> PlacesAreReal(rows, at2, ph))
    ensures Skips(occs2, rows, ph)
  {
    if !Skips(occs, rows, ph) {
      var f :| IsFallback(occs, ph, f) && occs1 == Rebuilt(rows, at1, f);
      if !Skips(occs1, rows, ph) {
        var g :| IsFallback(occs1, ph, g) && occs2 == Rebuilt(rows, at2, g);
        SecondFallbackIsReal(rows, at1, ph, f, g);
        RealFallbackSettles(rows, at2, ph, g);
      }
    }
  }

  /** A place that resolves to the placeholder makes every run rebuild, for ever. */
  lemma PlaceholderPlaceNeverSettles(e: Show, occs': seq<Occ>, at: map<string, VenueId>, ph: set<VenueId>)
    requires Placed(e.rows, at) && !PlacesAreReal(e.rows, at, ph) && e.occs != []
    requires !Skips(e.occs, e.rows, ph) && Resolved(e, occs', at, ph)
    ensures occs' != [] && !Skips(occs', e.rows, ph)
  {
    var r :| r in e.rows && r.place != "" && at[r.place] in ph;
    var i :| 0 <= i < |e.rows| && e.rows[i] == r;
    assert IsPlaceholderRow(occs'[i], ph);
  }

  ghost predicate AlwaysSettles(rows: seq<Session>) {
    forall v0, v1, v2, v3, later, occs, occs1, occs2 | TwoRuns(v0, v1, v2, v3, later, rows, occs, occs1, occs2) ::
      Skips(occs2, rows, PlaceholderIds(later))
  }

  /** The oscillation cannot occur, whatever the tables, exactly when no place of the schedule bears the
      placeholder's name. */
  lemma SettlesIffNamesAreReal(rows: seq<Session>)
    requires rows != []
    ensures AlwaysSettles(rows) <==> NamesAreReal(rows)
  {
    if NamesAreReal(rows) {
      forall v0, v1, v2, v3, later, occs, occs1, occs2 | TwoRuns(v0, v1, v2, v3, later, rows, occs, occs1, occs2)
        ensures Skips(occs2, rows, PlaceholderIds(later))
      {
        TwoRunsSettle(v0, v1, v2, v3, later, rows, occs, occs1, occs2);
      }
    } else {
      var r :| r in rows && r.place != "" && KeyOf(r.place) == Fold(PLACEHOLDER);
      var v, at := TableFor(rows, PLACEHOLDER);
      var occs, occs1, occs2 := OscillatesFrom(v, at, rows, r, Fold(PLACEHOLDER));
      assert TwoRuns(v, v, v, v, v, rows, occs, occs1, occs2);
    }
  }

  /** A table in which every place of the schedule has a venue and this name has the first one. */
  lemma {:induction false} TableFor(rows: seq<Session>, name: string) returns (v: map<VenueId, VenueRow>, at: map<string, VenueId>)
    ensures CacheHolds(at, v) && Placed(rows, at) && IsBest(v, Fold(name), VenueId(0)) && v[VenueId(0)].name == name
  {
    if rows == [] {
      v, at := map[VenueId(0) := VenueRow(name, false)], map[];
    } else {
      var w, at' := TableFor(rows[1..], name);
      var u;
      v, u := WithName(w, rows[0].place);
      CacheSurvives(at', w, v);
      BestSurvives(w, v, Fold(name), VenueId(0));
      at := at'[rows[0].place := u];
      MorePlaced(rows, at', u);
    }
  }

  lemma MorePlaced(rows: seq<Session>, at: map<string, VenueId>, u: VenueId)
    requires rows != [] && Placed(rows[1..], at)
    ensures Placed(rows, at[rows[0].place := u])
  {
    assert rows == [rows[0]] + rows[1..];
  }

  lemma WithName(w: map<VenueId, VenueRow>, p: string) returns (v: map<VenueId, VenueRow>, u: VenueId)
    ensures Grows(w, v) && IsBest(v, KeyOf(p), u)
  {
    if x :| Matches(w, KeyOf(p), x) {
      v := w;
      u := BestOf(w, KeyOf(p), w.Keys);
    } else {
      u := UnusedId(w.Keys);
      v := w[u := VenueRow(if |p| > NAME_LIMIT then p[..NAME_LIMIT] else p, false)];
      assert Fold(v[u].name) == KeyOf(p);
      forall x | Matches(v, KeyOf(p), x) ensures x == u { assert x != u ==> Matches(w, KeyOf(p), x); }
    }
  }

  lemma {:induction false} BestOf(w: map<VenueId, VenueRow>, key: string, among: set<VenueId>) returns (u: VenueId)
    requires exists x :: x in among && Matches(w, key, x)
    ensures u in among && Matches(w, key, u) && forall x | x in among && Matches(w, key, x) :: Before(w, u, x)
    decreases among
  {
    u :| u in among && Matches(w, key, u);
    if x :| x in among - {u} && Matches(w, key, x) {
      var y := BestOf(w, key, among - {u});
      if !Before(w, u, y) { u := y; }
    }
  }

  lemma {:induction false} UnusedId(s: set<VenueId>) returns (u: VenueId)
    ensures forall x <- s :: x.n < u.n
    decreases s
  {
    if s == {} {
      u := VenueId(0);
    } else {
      var x :| x in s;
      var y := UnusedId(s - {x});
      u := VenueId(if x.n < y.n then y.n else x.n + 1);
    }
  }

  lemma GrowsSelf(v: map<VenueId, VenueRow>)
    ensures Grows(v, v)
  {}

  /** What a run makes of the event is the event in a state that the next run rebuilds again. */
  lemma RebuildsAgain(e: Show, at: map<string, VenueId>, v: map<VenueId, VenueRow>) returns (occs': seq<Occ>)
    requires CacheHolds(at, v) && Placed(e.rows, at) && !PlacesAreReal(e.rows, at, PlaceholderIds(v))
    requires e.occs != [] && !Skips(e.occs, e.rows, PlaceholderIds(v))
    ensures RunsTo(v, v, e, occs') && occs' != [] && !Skips(occs', e.rows, PlaceholderIds(v))
  {
    occs' := SomeRun(e, at, PlaceholderIds(v));
    GrowsSelf(v);
    PlaceholderPlaceNeverSettles(e, occs', at, PlaceholderIds(v));
  }

  lemma PlaceholderPlace(v: map<VenueId, VenueRow>, at: map<string, VenueId>, rows: seq<Session>, r: Session, key: string)
    requires CacheHolds(at, v) && Placed(rows, at) && IsBest(v, key, VenueId(0)) && VenueId(0) in PlaceholderIds(v)
    requires r in rows && r.place != "" && KeyOf(r.place) == key
    ensures !PlacesAreReal(rows, at, PlaceholderIds(v))
  {
    BestIsUnique(v, key, at[r.place], VenueId(0));
  }

  lemma PlaceholderRowIsNotSkipped(rows: seq<Session>, r: Session, ph: set<VenueId>) returns (occs: seq<Occ>)
    requires r in rows && r.place != "" && VenueId(0) in ph
    ensures occs == [Occ(Some(VenueId(0)), r.start, None)] && !Skips(occs, rows, ph)
  {
    occs := [Occ(Some(VenueId(0)), r.start, None)];
    assert IsPlaceholderRow(occs[0], ph);
    var i :| 0 <= i < |rows| && rows[i] == r;
  }

  lemma OscillatesFrom(v: map<VenueId, VenueRow>, at: map<string, VenueId>, rows: seq<Session>, r: Session, key: string)
      returns (occs: seq<Occ>, occs1: seq<Occ>, occs2: seq<Occ>)
    requires CacheHolds(at, v) && Placed(rows, at) && IsBest(v, key, VenueId(0)) && VenueId(0) in PlaceholderIds(v)
    requires r in rows && r.place != "" && KeyOf(r.place) == key
    ensures TwoRuns(v, v, v, v, v, rows, occs, occs1, occs2) && !Skips(occs2, rows, PlaceholderIds(v))
  {
    PlaceholderPlace(v, at, rows, r, key);
    GrowsSelf(v);
    occs := PlaceholderRowIsNotSkipped(rows, r, PlaceholderIds(v));
    occs1 := RebuildsAgain(Show(occs, rows), at, v);
    occs2 := RebuildsAgain(Show(occs1, rows), at, v);
  }

  lemma SomeRun(e: Show, at: map<string, VenueId>, ph: set<VenueId>) returns (occs': seq<Occ>)
    requires Placed(e.rows, at)
    ensures Resolved(e, occs', at, ph)
  {
    if e.rows == [] || e.occs == [] || Skips(e.occs, e.rows, ph) {
      occs' := e.occs;
    } else {
      var f := SomeFallback(e.occs, ph, |e.occs|);
      occs' := Rebuilt(e.rows, at, f);
    }
  }

  /** Among the first n rows there is a fallback, or no real venue. */
  lemma {:induction false} SomeFallback(occs: seq<Occ>, placeholders: set<VenueId>, n: nat) returns (f: Option<VenueId>)
    requires 0 < n <= |occs|
    ensures exists i :: 0 <= i < n && occs[i].venue == f
    ensures if exists i :: 0 <= i < n && IsReal(occs[i].venue, placeholders) then IsReal(f, placeholders) else f == occs[0].venue
    ensures forall i | 0 <= i < n && IsReal(occs[i].venue, placeholders) :: CountAt(occs, occs[i].venue) <= CountAt(occs, f)
    ensures n == |occs| ==> IsFallback(occs, placeholders, f)
  {
    f := occs[n - 1].venue;
    if n > 1 {
      var g := SomeFallback(occs, placeholders, n - 1);
      if !IsReal(f, placeholders) || (IsReal(g, placeholders) && CountAt(occs, f) <= CountAt(occs, g)) { f := g; }
    }
  }

  // ----- the occurrence key -----

  /** The delete, then the inserts one by one under ids not used so far. */
  function Inserted(table: map<nat, T.Occ>, next: nat, eid: EventId, occs: seq<Occ>): map<nat, T.Occ> {
    if occs == [] then table
    else
      var n := |occs| - 1;
      Inserted(table, next, eid, occs[..n])[next + n := T.Occ(eid, occs[n].venue, occs[n].start, None, "")]
  }

  /** No two of the new rows have the same start and venue. */
  ghost predicate RowsDiffer(occs: seq<Occ>) {
    forall i, j | 0 <= i < j < |occs| :: occs[i].start != occs[j].start || T.Coalesce(occs[i].venue) != T.Coalesce(occs[j].venue)
  }

  ghost predicate RowsAre(table: map<nat, T.Occ>, after: map<nat, T.Occ>, next: nat, eid: EventId, occs: seq<Occ>)
    requires forall i <- table :: i < next
  {
    && (forall i: nat :: i in after <==> i in table || next <= i < next + |occs|)
    && (forall i: nat | i in after :: after[i] ==
          if i in table then table[i] else T.Occ(eid, occs[i - next].venue, occs[i - next].start, None, ""))
  }

  lemma {:induction false} InsertedRows(table: map<nat, T.Occ>, next: nat, eid: EventId, occs: seq<Occ>)
    requires forall i <- table :: i < next
    ensures RowsAre(table, Inserted(table, next, eid, occs), next, eid, occs)
  {
    if occs != [] {
      var n := |occs| - 1;
      InsertedRows(table, next, eid, occs[..n]);
    }
  }

  lemma NewRowsDiffer(table: map<nat, T.Occ>, next: nat, eid: EventId, occs: seq<Occ>, after: map<nat, T.Occ>)
    requires (forall i <- table :: i < next) && RowsAre(table, after, next, eid, occs) && T.UniqueKey(after)
    ensures RowsDiffer(occs)
  {
    forall i: nat, j: nat | 0 <= i < j < |occs|
      ensures occs[i].start != occs[j].start || T.Coalesce(occs[i].venue) != T.Coalesce(occs[j].venue)
    {
      assert next + i in after && next + j in after;
    }
  }

  lemma NewRowsKeepKey(table: map<nat, T.Occ>, next: nat, eid: EventId, occs: seq<Occ>, after: map<nat, T.Occ>)
    requires T.UniqueKey(table) && (forall i <- table :: i < next && table[i].event != eid)
    requires RowsAre(table, after, next, eid, occs) && RowsDiffer(occs)
    ensures T.UniqueKey(after)
  {}

  /** On a table without rows of the event the inserts keep the unique occurrence index exactly when no two of
      the new rows have the same start and venue. */
  lemma InsertsKeepKeyIff(table: map<nat, T.Occ>, next: nat, eid: EventId, occs: seq<Occ>)
    requires T.UniqueKey(table) && (forall i <- table :: i < next && table[i].event != eid)
    ensures T.UniqueKey(Inserted(table, next, eid, occs)) <==> RowsDiffer(occs)
  {
    var after := Inserted(table, next, eid, occs);
    InsertedRows(table, next, eid, occs);
    if T.UniqueKey(after) { NewRowsDiffer(table, next, eid, occs, after); }
    if RowsDiffer(occs) { NewRowsKeepKey(table, next, eid, occs, after); }
  }

  /** A schedule with distinct starts never collides on the occurrence index, wherever its places are. */
  lemma RebuiltKeepsKey(table: map<nat, T.Occ>, next: nat, eid: EventId, rows: seq<Session>, at: map<string, VenueId>, f: Option<VenueId>)
    requires T.UniqueKey(table) && (forall i <- table :: i < next && table[i].event != eid)
    requires Placed(rows, at) && forall i, j | 0 <= i < j < |rows| :: rows[i].start != rows[j].start
    ensures forall n | 0 <= n <= |rows| :: T.UniqueKey(Inserted(table, next, eid, Rebuilt(rows, at, f)[..n]))
  {
    var occs := Rebuilt(rows, at, f);
    forall n | 0 <= n <= |rows| ensures T.UniqueKey(Inserted(table, next, eid, occs[..n])) {
      InsertsKeepKeyIff(table, next, eid, occs[..n]);
    }
  }
}
