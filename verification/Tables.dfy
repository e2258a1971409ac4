/** The relational state the maintenance passes rewrite, and the SQL statements they issue.

  Rows live in maps keyed by their primary key.  Every statement preserves the unique occurrence index
  (event, start, venue or -1); a statement that would break it fails in the database, so it demands
  here that its result keeps the index. */
module Tables {
  import opened Collections
  import opened Ids
  import opened Repoint

  /** Seconds since the epoch. */
  type Instant = int

  const DAY := 86400
  const MOSCOW_OFFSET := 10800

  /** Moscow is UTC+3 all year. */
  function MoscowDay(t: Instant): int { (t + MOSCOW_OFFSET) / DAY }
  predicate IsMoscowMidnight(t: Instant) { (t + MOSCOW_OFFSET) % DAY == 0 }

  datatype Occ = Occ(event: EventId, venue: Option<VenueId>, start: Instant, end: Option<Instant>, url: string)
  datatype Source = Source(event: EventId, url: string)
  datatype Event = Event(title: string, active: bool)

  /** Where and when: the part of the unique key an event owns. */
  datatype Showing = Showing(venue: Option<VenueId>, start: Instant)
  /** What and when: the part of the unique key a venue owns. */
  datatype Booking = Booking(event: EventId, start: Instant)

  /** The tables the event passes rewrite, at one moment. */
  datatype Snapshot = Snapshot(occs: map<nat, Occ>, sources: map<nat, Source>, events: map<EventId, Event>)

  ghost function ByEvent(occs: map<nat, Occ>): map<nat, Cell<EventId, Showing>> {
    map i | i in occs :: Cell(occs[i].event, Showing(occs[i].venue, occs[i].start))
  }

  ghost function ByVenue(occs: map<nat, Occ>): map<nat, Cell<Option<VenueId>, Booking>> {
    map i | i in occs :: Cell(occs[i].venue, Booking(occs[i].event, occs[i].start))
  }

  /** The index over COALESCE(venue_id, -1); serial ids are never negative. */
  function Coalesce(v: Option<VenueId>): int {
    if v.Some? then v.value.n else -1
  }

  ghost predicate UniqueKey(occs: map<nat, Occ>) {
    forall i, j | i in occs && j in occs && occs[i].event == occs[j].event && occs[i].start == occs[j].start
      && Coalesce(occs[i].venue) == Coalesce(occs[j].venue) :: i == j
  }

  /** The same index, read as owned by events or as owned by venues. */
  lemma UniqueKeyViews(occs: map<nat, Occ>)
    ensures UniqueKey(occs) <==> Keyed(ByEvent(occs))
    ensures UniqueKey(occs) <==> Keyed(ByVenue(occs))
  {
    var e, v := ByEvent(occs), ByVenue(occs);
    forall i, j | i in occs && j in occs
      ensures e[i] == e[j] <==> v[i] == v[j]
      ensures e[i] == e[j] <==> occs[i].event == occs[j].event && occs[i].start == occs[j].start && Coalesce(occs[i].venue) == Coalesce(occs[j].venue)
    {}
  }

  // ----- what the statements compute -----

  /** The occurrence rows of `dup` that `canon` has at the same place and time. */
  ghost predicate EventCollides(occs: map<nat, Occ>, o: Occ, canon: EventId) {
    exists j :: j in occs && occs[j].event == canon && occs[j].start == o.start && occs[j].venue == o.venue
  }

  ghost predicate VenueCollides(occs: map<nat, Occ>, o: Occ, canon: VenueId) {
    exists j :: j in occs && occs[j].venue == Some(canon) && occs[j].event == o.event && occs[j].start == o.start
  }

  ghost function WithoutEventCollisions(occs: map<nat, Occ>, dup: EventId, canon: EventId): map<nat, Occ> {
    map i | i in occs && !(occs[i].event == dup && EventCollides(occs, occs[i], canon)) :: occs[i]
  }

  ghost function EventRepointed(occs: map<nat, Occ>, dup: EventId, canon: EventId): map<nat, Occ> {
    map i | i in occs :: if occs[i].event == dup then occs[i].(event := canon) else occs[i]
  }

  ghost function WithoutVenueCollisions(occs: map<nat, Occ>, dup: VenueId, canon: VenueId): map<nat, Occ> {
    map i | i in occs && !(occs[i].venue == Some(dup) && VenueCollides(occs, occs[i], canon)) :: occs[i]
  }

  ghost function VenueRepointed(occs: map<nat, Occ>, dup: VenueId, canon: VenueId): map<nat, Occ> {
    map i | i in occs :: if occs[i].venue == Some(dup) then occs[i].(venue := Some(canon)) else occs[i]
  }

  ghost function SourcesRepointed(sources: map<nat, Source>, dup: EventId, canon: EventId): map<nat, Source> {
    map i | i in sources :: if sources[i].event == dup then sources[i].(event := canon) else sources[i]
  }

  ghost function CandidatesRepointed(cands: map<nat, Option<VenueId>>, dup: VenueId, canon: VenueId): map<nat, Option<VenueId>> {
    map i | i in cands :: if cands[i] == Some(dup) then Some(canon) else cands[i]
  }

  /** A midnight stand-in: starts at 00:00 Moscow, ends the same Moscow day, and a timed sibling of the
      same event and venue exists that day. */
  ghost predicate IsPlaceholder(occs: map<nat, Occ>, o: Occ) {
    && IsMoscowMidnight(o.start) && o.end.Some? && MoscowDay(o.end.value) == MoscowDay(o.start)
    && exists j :: j in occs && occs[j].event == o.event && occs[j].venue == o.venue
         && MoscowDay(occs[j].start) == MoscowDay(o.start) && !IsMoscowMidnight(occs[j].start)
  }

  ghost function WithoutPlaceholders(occs: map<nat, Occ>, canons: set<EventId>): map<nat, Occ> {
    map i | i in occs && !(occs[i].event in canons && IsPlaceholder(occs, occs[i])) :: occs[i]
  }

  class Db {
    var occs: map<nat, Occ>
    var sources: map<nat, Source>
    var candidates: map<nat, Option<VenueId>>
    var events: map<EventId, Event>
    var venues: set<VenueId>

    /** Drop the duplicate event's rows that the canonical event has at the same place and time. */
    method DeleteEventCollisions(dup: EventId, canon: EventId)
      requires UniqueKey(occs)
      modifies this`occs
      ensures UniqueKey(occs) && occs == WithoutEventCollisions(old(occs), dup, canon)
    {
      occs := map i | i in occs
        && !(occs[i].event == dup && exists j | j in occs :: occs[j].event == canon && occs[j].start == occs[i].start && occs[j].venue == occs[i].venue)
        :: occs[i];
    }

    /** Hand the duplicate event's other rows to the canonical event. */
    method RepointEvent(dup: EventId, canon: EventId)
      requires UniqueKey(occs) && UniqueKey(EventRepointed(occs, dup, canon))
      modifies this`occs
      ensures UniqueKey(occs) && occs == EventRepointed(old(occs), dup, canon)
    {
      occs := map i | i in occs :: if occs[i].event == dup then occs[i].(event := canon) else occs[i];
    }

    /** Hand over its sources. */
    method RepointSources(dup: EventId, canon: EventId)
      modifies this`sources
      ensures sources == SourcesRepointed(old(sources), dup, canon)
    {
      sources := map i | i in sources :: if sources[i].event == dup then sources[i].(event := canon) else sources[i];
    }

    /** Drop the duplicate venue's rows that the canonical venue has for the same event and time. */
    method DeleteVenueCollisions(dup: VenueId, canon: VenueId)
      requires UniqueKey(occs)
      modifies this`occs
      ensures UniqueKey(occs) && occs == WithoutVenueCollisions(old(occs), dup, canon)
    {
      occs := map i | i in occs
        && !(occs[i].venue == Some(dup) && exists j | j in occs :: occs[j].venue == Some(canon) && occs[j].event == occs[i].event && occs[j].start == occs[i].start)
        :: occs[i];
    }

    /** Hand the duplicate venue's other rows to the canonical venue. */
    method RepointVenue(dup: VenueId, canon: VenueId)
      requires UniqueKey(occs) && UniqueKey(VenueRepointed(occs, dup, canon))
      modifies this`occs
      ensures UniqueKey(occs) && occs == VenueRepointed(old(occs), dup, canon)
    {
      occs := map i | i in occs :: if occs[i].venue == Some(dup) then occs[i].(venue := Some(canon)) else occs[i];
    }

    /** Hand over the candidates that name it. */
    method RepointCandidates(dup: VenueId, canon: VenueId)
      modifies this`candidates
      ensures candidates == CandidatesRepointed(old(candidates), dup, canon)
    {
      candidates := map i | i in candidates :: if candidates[i] == Some(dup) then Some(canon) else candidates[i];
    }

    /** The placeholder delete of the event pass. */
    method DeletePlaceholders(canons: set<EventId>)
      requires UniqueKey(occs)
      modifies this`occs
      ensures UniqueKey(occs) && occs == WithoutPlaceholders(old(occs), canons)
    {
      occs := map i | i in occs
        && !(occs[i].event in canons
             && IsMoscowMidnight(occs[i].start) && occs[i].end.Some? && MoscowDay(occs[i].end.value) == MoscowDay(occs[i].start)
             && exists j | j in occs :: occs[j].event == occs[i].event && occs[j].venue == occs[i].venue
                  && MoscowDay(occs[j].start) == MoscowDay(occs[i].start) && !IsMoscowMidnight(occs[j].start))
        :: occs[i];
    }

    /** Drop events; their occurrences and sources go with them. */
    method DeleteEvents(ids: set<EventId>)
      requires UniqueKey(occs)
      modifies this`occs, this`sources, this`events
      ensures UniqueKey(occs) && events == old(events) - ids
      ensures occs == map i | i in old(occs) && old(occs)[i].event !in ids :: old(occs)[i]
      ensures sources == map i | i in old(sources) && old(sources)[i].event !in ids :: old(sources)[i]
    {
      occs := map i | i in occs && occs[i].event !in ids :: occs[i];
      sources := map i | i in sources && sources[i].event !in ids :: sources[i];
      events := events - ids;
    }

    /** Drop venues; their occurrences and candidates lose their venue. */
    method DeleteVenues(ids: set<VenueId>)
      requires UniqueKey(occs)
      requires UniqueKey(map i | i in occs :: if occs[i].venue.Some? && occs[i].venue.value in ids then occs[i].(venue := None) else occs[i])
      modifies this`occs, this`candidates, this`venues
      ensures UniqueKey(occs) && venues == old(venues) - ids
      ensures occs == map i | i in old(occs) ::
        if old(occs)[i].venue.Some? && old(occs)[i].venue.value in ids then old(occs)[i].(venue := None) else old(occs)[i]
      ensures candidates == map i | i in old(candidates) ::
        if old(candidates)[i].Some? && old(candidates)[i].value in ids then None else old(candidates)[i]
    {
      occs := map i | i in occs :: if occs[i].venue.Some? && occs[i].venue.value in ids then occs[i].(venue := None) else occs[i];
      candidates := map i | i in candidates :: if candidates[i].Some? && candidates[i].value in ids then None else candidates[i];
      venues := venues - ids;
    }
  }

  ghost function Now(db: Db): Snapshot
    reads db
  {
    Snapshot(db.occs, db.sources, db.events)
  }
}
