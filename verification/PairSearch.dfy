/** `find_pairs`: the bucketed, short-cut search for duplicate event pairs, against the plain
  all-pairs definition of a duplicate. */
module PairSearch {
  import opened Collections
  import opened Ids
  import opened Text
  import opened TitleMatch
  import opened Tables
  import opened UnionFind

  // ----- what a duplicate pair is -----

  /** The events the pass looks at: active and titled. */
  function Titles(events: map<EventId, Event>): map<EventId, string> {
    map e | e in events && events[e].active && events[e].title != "" :: events[e].title
  }

  /** The two titles are taken for one show because they share a stage at one instant. */
  predicate SlotMatch(m: Matcher, a: string, b: string) {
    SameSlotTitle(m, a, b) || SameEvent(m, a, b, FuzzyLevel, false)
  }

  ghost predicate ShareSlot(occs: map<nat, Occ>, a: EventId, b: EventId) {
    exists i, j :: i in occs && j in occs && occs[i].event == a && occs[j].event == b
      && occs[i].venue.Some? && occs[i].venue == occs[j].venue && occs[i].start == occs[j].start
  }

  ghost predicate ShareVenueDay(occs: map<nat, Occ>, a: EventId, b: EventId) {
    exists i, j :: i in occs && j in occs && occs[i].event == a && occs[j].event == b
      && occs[i].venue.Some? && occs[i].venue == occs[j].venue && MoscowDay(occs[i].start) == MoscowDay(occs[j].start)
  }

  ghost predicate SharePlacelessDay(occs: map<nat, Occ>, title: map<EventId, string>, a: EventId, b: EventId)
    requires a in title && b in title
  {
    exists i, j :: i in occs && j in occs && occs[i].event == a && occs[j].event == b
      && occs[i].venue.None? && occs[j].venue.None? && NKey(title[a]) == NKey(title[b])
      && MoscowDay(occs[i].start) == MoscowDay(occs[j].start)
  }

  ghost predicate ShareDay(occs: map<nat, Occ>, title: map<EventId, string>, a: EventId, b: EventId)
    requires a in title && b in title
  {
    ShareVenueDay(occs, a, b) || SharePlacelessDay(occs, title, a, b)
  }

  ghost predicate Slotted(m: Matcher, occs: map<nat, Occ>, title: map<EventId, string>, p: Pair<EventId>)
    requires p.0 in title && p.1 in title
  {
    ShareSlot(occs, p.0, p.1) && SlotMatch(m, title[p.0], title[p.1])
  }

  /** Trustworthy duplicates, by the all-pairs definition. */
  ghost predicate IsSafePair(m: Matcher, occs: map<nat, Occ>, title: map<EventId, string>, p: Pair<EventId>) {
    && p.0 in title && p.1 in title && p.0.n < p.1.n
    && (Slotted(m, occs, title, p) || (ShareDay(occs, title, p.0, p.1) && SameEvent(m, title[p.0], title[p.1], AutoLevel)))
  }

  /** Pairs for review: a day in common and a fuzzy match only. */
  ghost predicate IsFuzzyPair(m: Matcher, occs: map<nat, Occ>, title: map<EventId, string>, p: Pair<EventId>) {
    && p.0 in title && p.1 in title && p.0.n < p.1.n
    && !Slotted(m, occs, title, p) && ShareDay(occs, title, p.0, p.1)
    && !SameEvent(m, title[p.0], title[p.1], AutoLevel) && SameEvent(m, title[p.0], title[p.1], FuzzyLevel)
  }

  lemma SafeAndFuzzyAreDisjoint(m: Matcher, occs: map<nat, Occ>, title: map<EventId, string>, p: Pair<EventId>)
    ensures !(IsSafePair(m, occs, title, p) && IsFuzzyPair(m, occs, title, p))
  {}

  // ----- the same, told on the rows and the events -----

  ghost predicate MeetAtOnce(occs: map<nat, Occ>, a: EventId, b: EventId) {
    exists i, j :: i in occs && j in occs && occs[i].event == a && occs[j].event == b
      && occs[i].venue == occs[j].venue && occs[i].venue != None && occs[i].start == occs[j].start
  }

  ghost predicate MeetThatDay(occs: map<nat, Occ>, a: EventId, b: EventId) {
    exists i, j :: i in occs && j in occs && occs[i].event == a && occs[j].event == b && occs[i].venue == occs[j].venue && occs[i].venue != None
      && (occs[i].start + 10800) / 86400 == (occs[j].start + 10800) / 86400
  }

  ghost predicate MeetNowhereThatDay(occs: map<nat, Occ>, a: EventId, b: EventId) {
    exists i, j :: i in occs && j in occs && occs[i].event == a && occs[j].event == b && occs[i].venue == None && occs[j].venue == None
      && (occs[i].start + 10800) / 86400 == (occs[j].start + 10800) / 86400
  }

  ghost predicate MeetOnADay(occs: map<nat, Occ>, events: map<EventId, Event>, p: Pair<EventId>)
    requires p.0 in events && p.1 in events
  {
    MeetThatDay(occs, p.0, p.1) || (NKey(events[p.0].title) == NKey(events[p.1].title) && MeetNowhereThatDay(occs, p.0, p.1))
  }

  lemma MeetingIsSharing(occs: map<nat, Occ>, title: map<EventId, string>, a: EventId, b: EventId)
    requires a in title && b in title
    ensures MeetAtOnce(occs, a, b) <==> ShareSlot(occs, a, b)
    ensures MeetThatDay(occs, a, b) <==> ShareVenueDay(occs, a, b)
    ensures NKey(title[a]) == NKey(title[b]) && MeetNowhereThatDay(occs, a, b) <==> SharePlacelessDay(occs, title, a, b)
  {
    forall t ensures MoscowDay(t) == (t + 10800) / 86400 {}
  }

  lemma TitledIsActive(events: map<EventId, Event>, e: EventId)
    ensures e in Titles(events) <==> e in events && events[e].active && events[e].title != ""
    ensures e in Titles(events) ==> Titles(events)[e] == events[e].title
  {}

  /** A safe pair is of two active titled events, the lower number first, that share a stage at one instant under
      titles the slot test takes for one, or share a Moscow day at a venue, or without one under the same letters,
      with titles that match at the automatic level. */
  lemma SafePairIff(m: Matcher, occs: map<nat, Occ>, events: map<EventId, Event>, p: Pair<EventId>)
    ensures IsSafePair(m, occs, Titles(events), p) <==>
      && p.0 in events && events[p.0].active && events[p.0].title != "" && p.1 in events && events[p.1].active && events[p.1].title != ""
      && p.0.n < p.1.n
      && ((MeetAtOnce(occs, p.0, p.1) && SlotMatch(m, events[p.0].title, events[p.1].title))
          || (MeetOnADay(occs, events, p) && SameEvent(m, events[p.0].title, events[p.1].title, AutoLevel)))
  {
    TitledIsActive(events, p.0);
    TitledIsActive(events, p.1);
    if p.0 in Titles(events) && p.1 in Titles(events) { MeetingIsSharing(occs, Titles(events), p.0, p.1); }
  }

  /** A pair for review is no safe pair, and has a day in common and a fuzzy match. */
  lemma FuzzyPairIff(m: Matcher, occs: map<nat, Occ>, events: map<EventId, Event>, p: Pair<EventId>)
    ensures IsFuzzyPair(m, occs, Titles(events), p) <==>
      && p.0 in events && events[p.0].active && events[p.0].title != "" && p.1 in events && events[p.1].active && events[p.1].title != ""
      && p.0.n < p.1.n && !IsSafePair(m, occs, Titles(events), p)
      && MeetOnADay(occs, events, p) && SameEvent(m, events[p.0].title, events[p.1].title, FuzzyLevel)
  {
    TitledIsActive(events, p.0);
    TitledIsActive(events, p.1);
    if p.0 in Titles(events) && p.1 in Titles(events) { MeetingIsSharing(occs, Titles(events), p.0, p.1); }
  }

  // ----- sorting and walking a bucket -----

  ghost predicate Ascending(ids: seq<EventId>) {
    forall i, j :: 0 <= i < j < |ids| ==> ids[i].n < ids[j].n
  }

  method Least(s: set<EventId>) returns (least: EventId)
    requires s != {}
    ensures least in s && forall e <- s :: least.n <= e.n
  {
    least := Any(s);
    var rest := s - {least};
    while rest != {}
      invariant rest <= s && least in s && forall e <- s - rest :: least.n <= e.n
      decreases rest
    {
      var e := Any(rest);
      if e.n < least.n { least := e; }
      rest := rest - {e};
    }
  }

  method Sorted(s: set<EventId>) returns (ids: seq<EventId>)
    ensures Ascending(ids) && Elements(ids) == s
  {
    ids := [];
    var rest := s;
    while rest != {}
      invariant rest <= s && Ascending(ids) && Elements(ids) == s - rest
      invariant forall a <- ids, b <- rest :: a.n < b.n
      decreases rest
    {
      var e := Least(rest);
      assert Elements(ids + [e]) == Elements(ids) + {e};
      ids, rest := ids + [e], rest - {e};
    }
  }

  /** The pairs of a sorted bucket whose first element stands before position i. */
  ghost predicate Met(ids: seq<EventId>, i: int, p: Pair<EventId>) {
    exists a, b :: 0 <= a < b < |ids| && a < i && p == (ids[a], ids[b])
  }

  ghost predicate InRow(ids: seq<EventId>, i: int, j: int, p: Pair<EventId>) {
    exists b :: 0 <= i < b < j <= |ids| && p == (ids[i], ids[b])
  }

  lemma MetNext(ids: seq<EventId>, i: int, p: Pair<EventId>)
    requires 0 <= i < |ids|
    ensures Met(ids, i + 1, p) <==> Met(ids, i, p) || InRow(ids, i, |ids|, p)
  {}

  lemma MetAll(ids: seq<EventId>, bucket: set<EventId>, p: Pair<EventId>)
    requires Ascending(ids) && Elements(ids) == bucket
    ensures Met(ids, |ids|, p) <==> InBucket(bucket, p)
  {
    if InBucket(bucket, p) {
      var a :| 0 <= a < |ids| && ids[a] == p.0;
      var b :| 0 <= b < |ids| && ids[b] == p.1;
      assert a < b;
    }
  }

  ghost predicate InBucket(bucket: set<EventId>, p: Pair<EventId>) {
    p.0 in bucket && p.1 in bucket && p.0.n < p.1.n
  }

  // ----- the buckets -----

  datatype SlotKey = SlotKey(venue: VenueId, start: Instant)
  datatype DayKey = DayKey(venue: VenueId, day: int)
  datatype PlacelessKey = PlacelessKey(nkey: string, day: int)

  function SlotKeyOf(o: Occ): Option<SlotKey> {
    if o.venue.Some? then Some(SlotKey(o.venue.value, o.start)) else None
  }

  function DayKeyOf(o: Occ): Option<DayKey> {
    if o.venue.Some? then Some(DayKey(o.venue.value, MoscowDay(o.start))) else None
  }

  function PlacelessKeyOf(title: map<EventId, string>): Occ -> Option<PlacelessKey> {
    (o: Occ) => if o.venue.Some? then None
                else Some(PlacelessKey(NKey(if o.event in title then title[o.event] else ""), MoscowDay(o.start)))
  }

  /** b groups the events of the rows in `rows` by key. */
  ghost predicate Buckets<K(!new)>(b: map<K, set<EventId>>, occs: map<nat, Occ>, rows: set<nat>, keyOf: Occ -> Option<K>) {
    && rows <= occs.Keys
    && (forall i <- rows :: keyOf(occs[i]).Some? ==> keyOf(occs[i]).value in b && occs[i].event in b[keyOf(occs[i]).value])
    && (forall k, e | k in b && e in b[k] :: exists i :: i in rows && keyOf(occs[i]) == Some(k) && occs[i].event == e)
  }

  function Added<K>(b: map<K, set<EventId>>, key: Option<K>, e: EventId): map<K, set<EventId>> {
    if key.None? then b else b[key.value := (if key.value in b then b[key.value] else {}) + {e}]
  }

  lemma BucketsAdd<K(!new)>(b: map<K, set<EventId>>, occs: map<nat, Occ>, rows: set<nat>, keyOf: Occ -> Option<K>, i: nat)
    requires Buckets(b, occs, rows, keyOf) && i in occs
    ensures Buckets(Added(b, keyOf(occs[i]), occs[i].event), occs, rows + {i}, keyOf)
  {
    var b' := Added(b, keyOf(occs[i]), occs[i].event);
    forall k, e | k in b' && e in b'[k]
      ensures exists j :: j in rows + {i} && keyOf(occs[j]) == Some(k) && occs[j].event == e
    {
      if k in b && e in b[k] {
        var j :| j in rows && keyOf(occs[j]) == Some(k) && occs[j].event == e;
      } else {
        assert keyOf(occs[i]) == Some(k) && occs[i].event == e;
      }
    }
  }

  ghost predicate RowsShareKey<K>(x: Occ, y: Occ, keyOf: Occ -> Option<K>, p: Pair<EventId>) {
    x.event == p.0 && y.event == p.1 && keyOf(x).Some? && keyOf(x) == keyOf(y)
  }

  ghost predicate SharedKey<K>(occs: map<nat, Occ>, rows: set<nat>, keyOf: Occ -> Option<K>, p: Pair<EventId>)
    requires rows <= occs.Keys
  {
    exists i, j :: i in rows && j in rows && RowsShareKey(occs[i], occs[j], keyOf, p)
  }

  /** Some bucket holds both events of the pair exactly when rows of theirs share a key. */
  lemma BucketMeansSharedKey<K(!new)>(b: map<K, set<EventId>>, occs: map<nat, Occ>, rows: set<nat>, keyOf: Occ -> Option<K>, p: Pair<EventId>)
    requires Buckets(b, occs, rows, keyOf)
    ensures (exists k :: k in b && InBucket(b[k], p)) <==>
      p.0.n < p.1.n && SharedKey(occs, rows, keyOf, p)
  {
    if k :| k in b && InBucket(b[k], p) {
      var i :| i in rows && keyOf(occs[i]) == Some(k) && occs[i].event == p.0;
      var j :| j in rows && keyOf(occs[j]) == Some(k) && occs[j].event == p.1;
      assert RowsShareKey(occs[i], occs[j], keyOf, p);
    }
    if p.0.n < p.1.n && SharedKey(occs, rows, keyOf, p) {
      var i, j :| i in rows && j in rows && RowsShareKey(occs[i], occs[j], keyOf, p);
      assert InBucket(b[keyOf(occs[i]).value], p);
    }
  }

  method FillBuckets(occs: map<nat, Occ>, title: map<EventId, string>)
      returns (byTime: map<SlotKey, set<EventId>>, byDay: map<DayKey, set<EventId>>, byPlaceless: map<PlacelessKey, set<EventId>>, rows: set<nat>)
    ensures rows == set i | i in occs && occs[i].event in title
    ensures Buckets(byTime, occs, rows, SlotKeyOf) && Buckets(byDay, occs, rows, DayKeyOf)
    ensures Buckets(byPlaceless, occs, rows, PlacelessKeyOf(title))
  {
    rows := set i | i in occs && occs[i].event in title;
    byTime, byDay, byPlaceless := map[], map[], map[];
    var rest := rows;
    var placeless := PlacelessKeyOf(title);
    while rest != {}
      invariant rest <= rows
      invariant Buckets(byTime, occs, rows - rest, SlotKeyOf) && Buckets(byDay, occs, rows - rest, DayKeyOf)
      invariant Buckets(byPlaceless, occs, rows - rest, placeless)
      decreases rest
    {
      var i := Any(rest);
      var o := occs[i];
      BucketsAdd(byTime, occs, rows - rest, SlotKeyOf, i);
      BucketsAdd(byDay, occs, rows - rest, DayKeyOf, i);
      BucketsAdd(byPlaceless, occs, rows - rest, placeless, i);
      byTime := Added(byTime, SlotKeyOf(o), o.event);
      byDay := Added(byDay, DayKeyOf(o), o.event);
      byPlaceless := Added(byPlaceless, placeless(o), o.event);
      assert rows - (rest - {i}) == rows - rest + {i};
      rest := rest - {i};
    }
    assert rows - rest == rows;
  }

  // ----- the slot scan -----

  ghost predicate SlotPair(m: Matcher, title: map<EventId, string>, p: Pair<EventId>) {
    p.0 in title && p.1 in title && SlotMatch(m, title[p.0], title[p.1])
  }

  datatype Found = Found(safe: seq<Pair<EventId>>, fuzzy: seq<Pair<EventId>>, seen: set<Pair<EventId>>)

  /** Before the day scan the seen pairs are the safe pairs. */
  ghost predicate Promoted(f: Found) {
    Distinct(f.safe) && f.seen == Elements(f.safe) && f.fuzzy == []
  }

  function Promote(m: Matcher, title: map<EventId, string>, f: Found, a: EventId, b: EventId): Found
    requires a in title && b in title
  {
    if (a, b) in f.seen then f
    else if SameSlotTitle(m, title[a], title[b]) || SameEvent(m, title[a], title[b], FuzzyLevel, false)
    then Found(f.safe + [(a, b)], f.fuzzy, f.seen + {(a, b)})
    else f
  }

  lemma PromoteKeeps(m: Matcher, title: map<EventId, string>, f: Found, a: EventId, b: EventId)
    requires Promoted(f) && a in title && b in title
    ensures Promoted(Promote(m, title, f, a, b))
    ensures Promote(m, title, f, a, b).seen == f.seen + if SlotPair(m, title, (a, b)) then {(a, b)} else {}
  {
    assert Elements(f.safe + [(a, b)]) == Elements(f.safe) + {(a, b)};
  }

  method ScanSlotRow(m: Matcher, title: map<EventId, string>, ids: seq<EventId>, i: nat, f: Found) returns (f': Found)
    requires Elements(ids) <= title.Keys && i < |ids| && Promoted(f)
    ensures Promoted(f')
    ensures forall p :: p in f'.seen <==> p in f.seen || (SlotPair(m, title, p) && InRow(ids, i, |ids|, p))
  {
    f' := f;
    for j := i + 1 to |ids|
      invariant Promoted(f')
      invariant forall p :: p in f'.seen <==> p in f.seen || (SlotPair(m, title, p) && InRow(ids, i, j, p))
    {
      assert ids[i] in Elements(ids) && ids[j] in Elements(ids);
      PromoteKeeps(m, title, f', ids[i], ids[j]);
      RowNext(ids, i, j);
      f' := Promote(m, title, f', ids[i], ids[j]);
    }
  }

  lemma RowNext(ids: seq<EventId>, i: int, j: int)
    requires 0 <= i < j < |ids|
    ensures forall p :: InRow(ids, i, j + 1, p) <==> InRow(ids, i, j, p) || p == (ids[i], ids[j])
  {}

  method ScanSlotBucket(m: Matcher, title: map<EventId, string>, bucket: set<EventId>, f: Found) returns (f': Found)
    requires bucket <= title.Keys && Promoted(f)
    ensures Promoted(f')
    ensures forall p :: p in f'.seen <==> p in f.seen || (SlotPair(m, title, p) && InBucket(bucket, p))
  {
    f' := f;
    var ids := Sorted(bucket);
    for i := 0 to |ids|
      invariant Promoted(f')
      invariant forall p :: p in f'.seen <==> p in f.seen || (SlotPair(m, title, p) && Met(ids, i, p))
    {
      f' := ScanSlotRow(m, title, ids, i, f');
      forall p ensures Met(ids, i + 1, p) <==> Met(ids, i, p) || InRow(ids, i, |ids|, p) { MetNext(ids, i, p); }
    }
    forall p ensures Met(ids, |ids|, p) <==> InBucket(bucket, p) { MetAll(ids, bucket, p); }
  }

  // ----- the day scan -----

  ghost predicate Matches(m: Matcher, title: map<EventId, string>, p: Pair<EventId>, level: Level) {
    p.0 in title && p.1 in title && SameEvent(m, title[p.0], title[p.1], level)
  }

  /** The lists agree with the pairs seen so far; the pairs in `slots` were promoted before. */
  ghost predicate Classified(m: Matcher, title: map<EventId, string>, slots: set<Pair<EventId>>, f: Found) {
    && Distinct(f.safe) && Distinct(f.fuzzy) && slots <= f.seen
    && (forall p :: p in f.safe <==> p in slots || (p in f.seen && Matches(m, title, p, AutoLevel)))
    && (forall p :: p in f.fuzzy <==> p in f.seen && p !in slots && !Matches(m, title, p, AutoLevel) && Matches(m, title, p, FuzzyLevel))
  }

  function Classify(m: Matcher, title: map<EventId, string>, f: Found, a: EventId, b: EventId): Found
    requires a in title && b in title
  {
    if (a, b) in f.seen then f
    else if SameEvent(m, title[a], title[b], AutoLevel) then Found(f.safe + [(a, b)], f.fuzzy, f.seen + {(a, b)})
    else if SameEvent(m, title[a], title[b], FuzzyLevel) then Found(f.safe, f.fuzzy + [(a, b)], f.seen + {(a, b)})
    else Found(f.safe, f.fuzzy, f.seen + {(a, b)})
  }

  /** Classified, with the two answers as tests. */
  ghost predicate Listed<T(!new)>(auto: T -> bool, fuzzy: T -> bool, slots: set<T>, safe: seq<T>, review: seq<T>, seen: set<T>) {
    && Distinct(safe) && Distinct(review) && slots <= seen
    && (forall p :: p in safe <==> p in slots || (p in seen && auto(p)))
    && (forall p :: p in review <==> p in seen && p !in slots && !auto(p) && fuzzy(p))
  }

  lemma ListedGrows<T(!new)>(auto: T -> bool, fuzzy: T -> bool, slots: set<T>, safe: seq<T>, review: seq<T>, seen: set<T>, p: T)
    requires Listed(auto, fuzzy, slots, safe, review, seen) && p !in seen
    ensures Listed(auto, fuzzy, slots, if auto(p) then safe + [p] else safe, if !auto(p) && fuzzy(p) then review + [p] else review, seen + {p})
  {}

  lemma ClassifyKeeps(m: Matcher, title: map<EventId, string>, slots: set<Pair<EventId>>, f: Found, a: EventId, b: EventId)
    requires Classified(m, title, slots, f) && a in title && b in title
    ensures Classified(m, title, slots, Classify(m, title, f, a, b))
    ensures Classify(m, title, f, a, b).seen == f.seen + {(a, b)}
  {
    var auto, fuzzy := p => Matches(m, title, p, AutoLevel), p => Matches(m, title, p, FuzzyLevel);
    assert Listed(auto, fuzzy, slots, f.safe, f.fuzzy, f.seen);
    if (a, b) !in f.seen {
      ListedGrows(auto, fuzzy, slots, f.safe, f.fuzzy, f.seen, (a, b));
      var f' := Classify(m, title, f, a, b);
      assert Listed(auto, fuzzy, slots, f'.safe, f'.fuzzy, f'.seen);
    }
  }

  method ScanDayRow(m: Matcher, title: map<EventId, string>, ids: seq<EventId>, i: nat, f: Found, ghost slots: set<Pair<EventId>>)
      returns (f': Found)
    requires Elements(ids) <= title.Keys && i < |ids| && Classified(m, title, slots, f)
    ensures Classified(m, title, slots, f')
    ensures forall p :: p in f'.seen <==> p in f.seen || InRow(ids, i, |ids|, p)
  {
    f' := f;
    for j := i + 1 to |ids|
      invariant Classified(m, title, slots, f')
      invariant forall p :: p in f'.seen <==> p in f.seen || InRow(ids, i, j, p)
    {
      assert ids[i] in Elements(ids) && ids[j] in Elements(ids);
      ClassifyKeeps(m, title, slots, f', ids[i], ids[j]);
      RowNext(ids, i, j);
      f' := Classify(m, title, f', ids[i], ids[j]);
    }
  }

  method ScanDayBucket(m: Matcher, title: map<EventId, string>, bucket: set<EventId>, f: Found, ghost slots: set<Pair<EventId>>)
      returns (f': Found)
    requires bucket <= title.Keys && Classified(m, title, slots, f)
    ensures Classified(m, title, slots, f')
    ensures forall p :: p in f'.seen <==> p in f.seen || InBucket(bucket, p)
  {
    f' := f;
    var ids := Sorted(bucket);
    for i := 0 to |ids|
      invariant Classified(m, title, slots, f')
      invariant forall p :: p in f'.seen <==> p in f.seen || Met(ids, i, p)
    {
      f' := ScanDayRow(m, title, ids, i, f', slots);
      forall p ensures Met(ids, i + 1, p) <==> Met(ids, i, p) || InRow(ids, i, |ids|, p) { MetNext(ids, i, p); }
    }
    forall p ensures Met(ids, |ids|, p) <==> InBucket(bucket, p) { MetAll(ids, bucket, p); }
  }

  /** Some bucket of b under a key in `keys` holds the pair. */
  ghost predicate InSome<K>(b: map<K, set<EventId>>, keys: set<K>, p: Pair<EventId>) {
    exists k :: k in keys && k in b && InBucket(b[k], p)
  }

  method ScanSlots<K(==, !new)>(m: Matcher, title: map<EventId, string>, b: map<K, set<EventId>>) returns (f: Found)
    requires forall k <- b :: b[k] <= title.Keys
    ensures Promoted(f)
    ensures forall p :: p in f.seen <==> SlotPair(m, title, p) && InSome(b, b.Keys, p)
  {
    f := Found([], [], {});
    var rest := b.Keys;
    while rest != {}
      invariant rest <= b.Keys && Promoted(f)
      invariant forall p :: p in f.seen <==> SlotPair(m, title, p) && InSome(b, b.Keys - rest, p)
      decreases rest
    {
      var k := Any(rest);
      f := ScanSlotBucket(m, title, b[k], f);
      forall p ensures InSome(b, b.Keys - (rest - {k}), p) <==> InSome(b, b.Keys - rest, p) || InBucket(b[k], p) {}
      rest := rest - {k};
    }
    assert b.Keys - rest == b.Keys;
  }

  method ScanDays<K(==, !new)>(m: Matcher, title: map<EventId, string>, b: map<K, set<EventId>>, f: Found, ghost slots: set<Pair<EventId>>)
      returns (f': Found)
    requires (forall k <- b :: b[k] <= title.Keys) && Classified(m, title, slots, f)
    ensures Classified(m, title, slots, f')
    ensures forall p :: p in f'.seen <==> p in f.seen || InSome(b, b.Keys, p)
  {
    f' := f;
    var rest := b.Keys;
    while rest != {}
      invariant rest <= b.Keys && Classified(m, title, slots, f')
      invariant forall p :: p in f'.seen <==> p in f.seen || InSome(b, b.Keys - rest, p)
      decreases rest
    {
      var k := Any(rest);
      f' := ScanDayBucket(m, title, b[k], f', slots);
      forall p ensures InSome(b, b.Keys - (rest - {k}), p) <==> InSome(b, b.Keys - rest, p) || InBucket(b[k], p) {}
      rest := rest - {k};
    }
    assert b.Keys - rest == b.Keys;
  }

  // ----- the search -----

  lemma SharedSlotKeys(occs: map<nat, Occ>, title: map<EventId, string>, rows: set<nat>, p: Pair<EventId>)
    requires rows == set i | i in occs && occs[i].event in title
    requires p.0 in title && p.1 in title
    ensures SharedKey(occs, rows, SlotKeyOf, p) <==> ShareSlot(occs, p.0, p.1)
    ensures SharedKey(occs, rows, DayKeyOf, p) <==> ShareVenueDay(occs, p.0, p.1)
    ensures SharedKey(occs, rows, PlacelessKeyOf(title), p) <==> SharePlacelessDay(occs, title, p.0, p.1)
  {
    forall i, j | i in occs && j in occs && occs[i].event == p.0 && occs[j].event == p.1
      ensures RowsShareKey(occs[i], occs[j], SlotKeyOf, p) <==>
        (occs[i].venue.Some? && occs[i].venue == occs[j].venue && occs[i].start == occs[j].start)
      ensures RowsShareKey(occs[i], occs[j], DayKeyOf, p) <==>
        (occs[i].venue.Some? && occs[i].venue == occs[j].venue && MoscowDay(occs[i].start) == MoscowDay(occs[j].start))
      ensures RowsShareKey(occs[i], occs[j], PlacelessKeyOf(title), p) <==>
        (occs[i].venue.None? && occs[j].venue.None? && NKey(title[p.0]) == NKey(title[p.1]) && MoscowDay(occs[i].start) == MoscowDay(occs[j].start))
    {}
  }

  lemma BucketsHoldTitled<K(!new)>(b: map<K, set<EventId>>, occs: map<nat, Occ>, title: map<EventId, string>, rows: set<nat>, keyOf: Occ -> Option<K>)
    requires Buckets(b, occs, rows, keyOf) && rows == set i | i in occs && occs[i].event in title
    ensures forall k <- b :: b[k] <= title.Keys
  {}

  lemma PromotedIsClassified(m: Matcher, title: map<EventId, string>, f: Found)
    requires Promoted(f)
    ensures Classified(m, title, f.seen, f)
  {
    assert Distinct(f.fuzzy);
  }

  lemma BucketsFindShared<K(!new)>(b: map<K, set<EventId>>, occs: map<nat, Occ>, rows: set<nat>, keyOf: Occ -> Option<K>, p: Pair<EventId>)
    requires Buckets(b, occs, rows, keyOf)
    ensures InSome(b, b.Keys, p) <==> p.0.n < p.1.n && SharedKey(occs, rows, keyOf, p)
  {
    BucketMeansSharedKey(b, occs, rows, keyOf, p);
  }

  /** What the two scans found is what the all-pairs definition says. */
  lemma FoundIsRight(m: Matcher, occs: map<nat, Occ>, title: map<EventId, string>, slots: set<Pair<EventId>>, f: Found, p: Pair<EventId>,
                     inTime: bool, inDay: bool, inPlaceless: bool)
    requires Classified(m, title, slots, f)
    requires p in slots <==> SlotPair(m, title, p) && inTime
    requires p in f.seen <==> p in slots || inDay || inPlaceless
    requires inTime || inDay || inPlaceless ==> p.0 in title && p.1 in title && p.0.n < p.1.n
    requires p.0 in title && p.1 in title && p.0.n < p.1.n ==>
      inTime == ShareSlot(occs, p.0, p.1) && inDay == ShareVenueDay(occs, p.0, p.1) && inPlaceless == SharePlacelessDay(occs, title, p.0, p.1)
    ensures p in f.safe <==> IsSafePair(m, occs, title, p)
    ensures p in f.fuzzy <==> IsFuzzyPair(m, occs, title, p)
  {}

  lemma SearchIsRight(m: Matcher, occs: map<nat, Occ>, title: map<EventId, string>, rows: set<nat>,
                      byTime: map<SlotKey, set<EventId>>, byDay: map<DayKey, set<EventId>>, byPlaceless: map<PlacelessKey, set<EventId>>,
                      slots: set<Pair<EventId>>, f: Found, p: Pair<EventId>)
    requires rows == set i | i in occs && occs[i].event in title
    requires Buckets(byTime, occs, rows, SlotKeyOf) && Buckets(byDay, occs, rows, DayKeyOf)
    requires Buckets(byPlaceless, occs, rows, PlacelessKeyOf(title))
    requires Classified(m, title, slots, f)
    requires p in slots <==> SlotPair(m, title, p) && InSome(byTime, byTime.Keys, p)
    requires p in f.seen <==> p in slots || InSome(byDay, byDay.Keys, p) || InSome(byPlaceless, byPlaceless.Keys, p)
    ensures p in f.safe <==> IsSafePair(m, occs, title, p)
    ensures p in f.fuzzy <==> IsFuzzyPair(m, occs, title, p)
  {
    BucketsFindShared(byTime, occs, rows, SlotKeyOf, p);
    BucketsFindShared(byDay, occs, rows, DayKeyOf, p);
    BucketsFindShared(byPlaceless, occs, rows, PlacelessKeyOf(title), p);
    if p.0 in title && p.1 in title { SharedSlotKeys(occs, title, rows, p); }
    FoundIsRight(m, occs, title, slots, f, p, InSome(byTime, byTime.Keys, p), InSome(byDay, byDay.Keys, p), InSome(byPlaceless, byPlaceless.Keys, p));
  }

  method FindPairs(m: Matcher, occs: map<nat, Occ>, events: map<EventId, Event>)
      returns (safe: seq<Pair<EventId>>, fuzzy: seq<Pair<EventId>>)
    ensures Distinct(safe) && forall p :: p in safe <==> IsSafePair(m, occs, Titles(events), p)
    ensures Distinct(fuzzy) && forall p :: p in fuzzy <==> IsFuzzyPair(m, occs, Titles(events), p)
    ensures forall p <- safe :: p !in fuzzy
    ensures forall p | p in safe || p in fuzzy ::
      p.0 in events && events[p.0].active && events[p.0].title != "" && p.1 in events && events[p.1].active && events[p.1].title != ""
  {
    var title := Titles(events);
    var byTime, byDay, byPlaceless, rows := FillBuckets(occs, title);
    BucketsHoldTitled(byTime, occs, title, rows, SlotKeyOf);
    BucketsHoldTitled(byDay, occs, title, rows, DayKeyOf);
    BucketsHoldTitled(byPlaceless, occs, title, rows, PlacelessKeyOf(title));
    var f := ScanSlots(m, title, byTime);
    ghost var slots := f.seen;
    PromotedIsClassified(m, title, f);
    f := ScanDays(m, title, byDay, f, slots);
    f := ScanDays(m, title, byPlaceless, f, slots);
    forall p ensures p in f.safe <==> IsSafePair(m, occs, title, p) ensures p in f.fuzzy <==> IsFuzzyPair(m, occs, title, p) {
      SearchIsRight(m, occs, title, rows, byTime, byDay, byPlaceless, slots, f, p);
    }
    safe, fuzzy := f.safe, f.fuzzy;
    forall p | p in safe ensures p !in fuzzy { SafeAndFuzzyAreDisjoint(m, occs, title, p); }
    forall p | p in safe || p in fuzzy
      ensures p.0 in events && events[p.0].active && events[p.0].title != "" && p.1 in events && events[p.1].active && events[p.1].title != ""
    {
      TitledIsActive(events, p.0);
      TitledIsActive(events, p.1);
    }
  }
}
