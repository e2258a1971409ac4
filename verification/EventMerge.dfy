/** `_commit_event_merges`: carry out a merge plan on the tables. */
module EventMerge {
  import opened Collections
  import opened Ids
  import opened UnionFind
  import opened Repoint
  import opened Tables

  ghost function OccsFolded(occs: map<nat, Occ>, pairs: seq<Pair<EventId>>): map<nat, Occ> {
    if pairs == [] then occs
    else
      var (d, c) := pairs[|pairs| - 1];
      EventRepointed(WithoutEventCollisions(OccsFolded(occs, pairs[..|pairs| - 1]), d, c), d, c)
  }

  ghost function SourcesFolded(sources: map<nat, Source>, pairs: seq<Pair<EventId>>): map<nat, Source> {
    if pairs == [] then sources
    else
      var (d, c) := pairs[|pairs| - 1];
      SourcesRepointed(SourcesFolded(sources, pairs[..|pairs| - 1]), d, c)
  }

  ghost function Duplicates(pairs: seq<Pair<EventId>>): set<EventId> { set p | p in pairs :: p.0 }
  ghost function Canons(pairs: seq<Pair<EventId>>): set<EventId> { set p | p in pairs :: p.1 }

  lemma DuplicatesAre(pairs: seq<Pair<EventId>>, e: EventId)
    ensures e in Duplicates(pairs) <==> IsDuplicate(pairs, e)
  {
    if IsDuplicate(pairs, e) {
      var k :| 0 <= k < |pairs| && pairs[k].0 == e;
      assert pairs[k] in pairs;
    }
  }

  /** Some row shows event e at this venue and start. */
  ghost predicate HasShowing(occs: map<nat, Occ>, e: EventId, s: Showing) {
    exists i :: i in occs && occs[i].event == e && occs[i].venue == s.venue && occs[i].start == s.start
  }

  lemma ShowingInView(occs: map<nat, Occ>, e: EventId, s: Showing)
    ensures HasShowing(occs, e, s) <==> Shows(ByEvent(occs), e, s)
  {
    var t := ByEvent(occs);
    if HasShowing(occs, e, s) {
      var i :| i in occs && occs[i].event == e && occs[i].venue == s.venue && occs[i].start == s.start;
      assert t[i] == Cell(e, s);
    }
    if i :| i in t && t[i] == Cell(e, s) { assert occs[i].event == e; }
  }

  /** One delete and one update are one fold of the event-owned view. */
  lemma StepView(occs: map<nat, Occ>, d: EventId, c: EventId)
    requires d != c
    ensures ByEvent(EventRepointed(WithoutEventCollisions(occs, d, c), d, c)) == Fold(ByEvent(occs), d, c)
  {
    var t := ByEvent(occs);
    var l, r := ByEvent(EventRepointed(WithoutEventCollisions(occs, d, c), d, c)), Fold(t, d, c);
    forall i | i in occs
      ensures i in l <==> i in r
      ensures i in l ==> l[i] == r[i]
    {
      ShowingInView(occs, c, t[i].tag);
      assert HasShowing(occs, c, t[i].tag) <==> EventCollides(occs, occs[i], c);
    }
  }

  lemma {:induction false} FoldedView(occs: map<nat, Occ>, pairs: seq<Pair<EventId>>)
    requires IsPlan(pairs)
    ensures ByEvent(OccsFolded(occs, pairs)) == FoldAll(ByEvent(occs), pairs)
  {
    if pairs != [] {
      var front := pairs[..|pairs| - 1];
      var (d, c) := pairs[|pairs| - 1];
      FoldedView(occs, front);
      StepView(OccsFolded(occs, front), d, c);
    }
  }

  /** Coverage is conserved: after the folds an event that was merged away shows nothing, and every
      other event shows exactly what it showed and what the events merged into it showed. */
  lemma CoverageConserved(occs: map<nat, Occ>, pairs: seq<Pair<EventId>>, e: EventId, s: Showing)
    requires IsPlan(pairs)
    ensures HasShowing(OccsFolded(occs, pairs), e, s) <==>
      !IsDuplicate(pairs, e) && (HasShowing(occs, e, s) || exists i :: 0 <= i < |pairs| && pairs[i].1 == e && HasShowing(occs, pairs[i].0, s))
  {
    var t := ByEvent(occs);
    FoldedView(occs, pairs);
    ShowingInView(OccsFolded(occs, pairs), e, s);
    ShowingInView(occs, e, s);
    forall i | 0 <= i < |pairs|
      ensures HasShowing(occs, pairs[i].0, s) <==> Shows(t, pairs[i].0, s)
    {
      ShowingInView(occs, pairs[i].0, s);
    }
    FoldAllShows(t, pairs, e, s);
  }

  lemma {:induction false} SourcesConserved(sources: map<nat, Source>, pairs: seq<Pair<EventId>>, i: nat)
    requires IsPlan(pairs) && i in sources
    ensures i in SourcesFolded(sources, pairs) && SourcesFolded(sources, pairs)[i].url == sources[i].url
    ensures SourcesFolded(sources, pairs).Keys == sources.Keys
    ensures var e, e' := sources[i].event, SourcesFolded(sources, pairs)[i].event;
      if IsDuplicate(pairs, e) then exists k :: 0 <= k < |pairs| && pairs[k] == (e, e') else e' == e
    ensures !IsDuplicate(pairs, SourcesFolded(sources, pairs)[i].event)
  {
    if pairs != [] {
      var n := |pairs| - 1;
      var front := pairs[..n];
      assert forall k | 0 <= k < n :: front[k] == pairs[k];
      SourcesConserved(sources, front, i);
      var e, e' := sources[i].event, SourcesFolded(sources, front)[i].event;
      if IsDuplicate(front, e) {
        var k :| 0 <= k < n && front[k] == (e, e');
        assert pairs[k] == (e, e');
      } else {
        assert e' == e;
        assert pairs[n].0 == e ==> pairs[n] == (e, pairs[n].1);
      }
    }
  }

  /** No row is left for the cascade of the event delete to take. */
  lemma NoRowOfADuplicate(occs: map<nat, Occ>, pairs: seq<Pair<EventId>>)
    requires IsPlan(pairs)
    ensures forall i | i in OccsFolded(occs, pairs) :: OccsFolded(occs, pairs)[i].event !in Duplicates(pairs)
  {
    var folded := OccsFolded(occs, pairs);
    forall i | i in folded
      ensures folded[i].event !in Duplicates(pairs)
    {
      var o := folded[i];
      assert HasShowing(folded, o.event, Showing(o.venue, o.start));
      CoverageConserved(occs, pairs, o.event, Showing(o.venue, o.start));
      DuplicatesAre(pairs, o.event);
    }
  }

  /** An event outside the plan keeps its rows, and gets none. */
  lemma {:induction false} OutsiderKeepsRows(occs: map<nat, Occ>, pairs: seq<Pair<EventId>>, e: EventId, i: nat)
    requires forall p <- pairs :: p.0 != e && p.1 != e
    ensures var t := OccsFolded(occs, pairs);
      (i in t && t[i].event == e <==> i in occs && occs[i].event == e) && (i in t && t[i].event == e ==> t[i] == occs[i])
  {
    if pairs != [] {
      OutsiderKeepsRows(occs, pairs[..|pairs| - 1], e, i);
      assert pairs[|pairs| - 1] in pairs;
    }
  }

  /** And its sources. */
  lemma {:induction false} OutsiderKeepsSources(sources: map<nat, Source>, pairs: seq<Pair<EventId>>, e: EventId, i: nat)
    requires forall p <- pairs :: p.0 != e && p.1 != e
    ensures var t := SourcesFolded(sources, pairs);
      (i in t && t[i].event == e <==> i in sources && sources[i].event == e) && (i in t && t[i].event == e ==> t[i] == sources[i])
  {
    if pairs != [] {
      OutsiderKeepsSources(sources, pairs[..|pairs| - 1], e, i);
      assert pairs[|pairs| - 1] in pairs;
    }
  }

  // ----- placeholders -----

  ghost predicate Covered(occs: map<nat, Occ>, e: EventId, venue: Option<VenueId>, day: int) {
    exists i :: i in occs && occs[i].event == e && occs[i].venue == venue && MoscowDay(occs[i].start) == day
  }

  /** Dropping placeholders leaves every covered (event, venue, day) covered, and takes no timed row, no
      open-ended row and no row that runs into another day. */
  lemma PlaceholdersAreRedundant(occs: map<nat, Occ>, canons: set<EventId>, e: EventId, venue: Option<VenueId>, day: int)
    ensures Covered(WithoutPlaceholders(occs, canons), e, venue, day) <==> Covered(occs, e, venue, day)
    ensures forall i | i in occs && i !in WithoutPlaceholders(occs, canons) ::
      IsMoscowMidnight(occs[i].start) && occs[i].end.Some? && MoscowDay(occs[i].end.value) == MoscowDay(occs[i].start)
      && occs[i].event in canons
  {
    var rest := WithoutPlaceholders(occs, canons);
    if Covered(occs, e, venue, day) {
      var i :| i in occs && occs[i].event == e && occs[i].venue == venue && MoscowDay(occs[i].start) == day;
      if i !in rest {
        var j :| j in occs && occs[j].event == e && occs[j].venue == venue
          && MoscowDay(occs[j].start) == day && !IsMoscowMidnight(occs[j].start);
        assert j in rest;
      }
    }
  }

  /** No row of these events that starts at Moscow midnight and ends that day stands beside a timed row of the
      same event, venue and day: told in seconds, at UTC+3. */
  ghost predicate NoStandIns(occs: map<nat, Occ>, canons: set<EventId>) {
    forall i, j | i in occs && j in occs && occs[i].event in canons && occs[j].event == occs[i].event && occs[j].venue == occs[i].venue
        && (occs[i].start + 10800) / 86400 == (occs[j].start + 10800) / 86400
        && (occs[i].start + 10800) % 86400 == 0 && (occs[j].start + 10800) % 86400 != 0 ::
      occs[i].end.None? || (occs[i].end.value + 10800) / 86400 != (occs[i].start + 10800) / 86400
  }

  /** Dropping placeholders leaves none: a row that is left did not stand beside a timed one. */
  lemma NoPlaceholderIsLeft(occs: map<nat, Occ>, canons: set<EventId>)
    ensures NoStandIns(WithoutPlaceholders(occs, canons), canons)
  {}

  // ----- the statements in order -----

  method FoldPair(db: Db, d: EventId, c: EventId)
    requires UniqueKey(db.occs) && d != c
    modifies db`occs, db`sources
    ensures UniqueKey(db.occs)
    ensures db.occs == EventRepointed(WithoutEventCollisions(old(db.occs), d, c), d, c)
    ensures db.sources == SourcesRepointed(old(db.sources), d, c)
  {
    ghost var occs := db.occs;
    db.DeleteEventCollisions(d, c);
    assert UniqueKey(EventRepointed(db.occs, d, c)) by {
      StepView(occs, d, c);
      UniqueKeyViews(occs);
      FoldKeepsKey(ByEvent(occs), d, c);
      UniqueKeyViews(EventRepointed(db.occs, d, c));
    }
    db.RepointEvent(d, c);
    db.RepointSources(d, c);
  }

  lemma NoSourceOfADuplicate(sources: map<nat, Source>, pairs: seq<Pair<EventId>>)
    requires IsPlan(pairs)
    ensures SourcesFolded(sources, pairs).Keys == sources.Keys
    ensures forall i | i in sources :: SourcesFolded(sources, pairs)[i].event !in Duplicates(pairs)
  {
    SourcesFoldedKeys(sources, pairs);
    forall i | i in sources
      ensures SourcesFolded(sources, pairs)[i].event !in Duplicates(pairs)
    {
      SourcesConserved(sources, pairs, i);
      DuplicatesAre(pairs, SourcesFolded(sources, pairs)[i].event);
    }
  }

  lemma {:induction false} SourcesFoldedKeys(sources: map<nat, Source>, pairs: seq<Pair<EventId>>)
    ensures SourcesFolded(sources, pairs).Keys == sources.Keys
  {
    if pairs != [] { SourcesFoldedKeys(sources, pairs[..|pairs| - 1]); }
  }

  method FoldPlan(db: Db, pairs: seq<Pair<EventId>>)
    requires UniqueKey(db.occs) && IsPlan(pairs)
    modifies db`occs, db`sources
    ensures UniqueKey(db.occs)
    ensures db.occs == OccsFolded(old(db.occs), pairs) && db.sources == SourcesFolded(old(db.sources), pairs)
  {
    for i := 0 to |pairs|
      invariant UniqueKey(db.occs)
      invariant db.occs == OccsFolded(old(db.occs), pairs[..i]) && db.sources == SourcesFolded(old(db.sources), pairs[..i])
    {
      assert pairs[..i + 1][..i] == pairs[..i];
      assert pairs[i].0 != pairs[i].1;
      FoldPair(db, pairs[i].0, pairs[i].1);
    }
    assert pairs[..|pairs|] == pairs;
  }

  /** The closing delete of the merged events: its cascade reaches no occurrence and no source. */
  method DeleteMerged(db: Db, dups: set<EventId>)
    requires UniqueKey(db.occs)
    requires forall i | i in db.occs :: db.occs[i].event !in dups
    requires forall i | i in db.sources :: db.sources[i].event !in dups
    modifies db`occs, db`sources, db`events
    ensures db.occs == old(db.occs) && db.sources == old(db.sources) && db.events == old(db.events) - dups
  {
    db.DeleteEvents(dups);
  }

  /** The whole commit; with `apply` off everything is rolled back. */
  method CommitEventMerges(db: Db, pairs: seq<Pair<EventId>>, apply: bool)
    requires UniqueKey(db.occs) && IsPlan(pairs)
    modifies db`occs, db`sources, db`events
    ensures UniqueKey(db.occs)
    ensures apply ==> db.occs == WithoutPlaceholders(OccsFolded(old(db.occs), pairs), Canons(pairs))
    ensures apply ==> NoStandIns(db.occs, set p | p in pairs :: p.1)
    ensures apply ==> db.sources == SourcesFolded(old(db.sources), pairs)
    ensures apply ==> db.events == old(db.events) - Duplicates(pairs)
    ensures !apply ==> db.occs == old(db.occs) && db.sources == old(db.sources) && db.events == old(db.events)
  {
    var savedOccs, savedSources, savedEvents := db.occs, db.sources, db.events;
    FoldPlan(db, pairs);
    var canons := set p | p in pairs :: p.1;
    if canons != {} {
      db.DeletePlaceholders(canons);
    } else {
      assert WithoutPlaceholders(db.occs, canons) == db.occs;
    }
    NoPlaceholderIsLeft(OccsFolded(savedOccs, pairs), canons);
    NoRowOfADuplicate(savedOccs, pairs);
    NoSourceOfADuplicate(savedSources, pairs);
    if pairs != [] {
      DeleteMerged(db, set p | p in pairs :: p.0);
    }
    if !apply {
      db.occs, db.sources, db.events := savedOccs, savedSources, savedEvents;
    }
  }
}
