/** `get_effective`: live settings behind a small TTL cache in one process, with database reads, writes
  and busts interleaving in any order.

  A read has two halves: the row is fetched at one moment and stored at a later one.  The database is
  the log of its writes; a fetch remembers how long the log was. */
module EffectiveConfig {
  import opened Collections
  import Runs

  type Time = int

  const TTL: Time := 15000
  const MAX_KEYS := 256

  // ----- typed values -----

  datatype Json = Bool(b: bool) | Int(i: int) | Float(r: real) | Str(s: string) | Other(text: string)

  /** Use the override only if it has the default's type; an int may stand in for a float. */
  function Typed(value: Json, default: Json): Json {
    match default
    case Bool(_) => if value.Bool? then value else default
    case Int(_) => if value.Int? then value else default
    case Float(_) => if value.Int? || value.Float? then value else default
    case Str(_) => if value.Str? then value else default
    case Other(_) => value
  }

  predicate Fits(value: Json, default: Json) {
    match default
    case Bool(_) => value.Bool?
    case Int(_) => value.Int?
    case Float(_) => value.Int? || value.Float?
    case Str(_) => value.Str?
    case Other(_) => true
  }

  /** A bad override can never change the type a caller sees, and a good one is never dropped. */
  lemma TypedKeepsType(value: Json, default: Json)
    ensures Fits(Typed(value, default), default)
    ensures Typed(value, default) == value <==> Fits(value, default) || value == default
    ensures !Fits(value, default) ==> Typed(value, default) == default
  {}

  /** The JSON string "false" does not pass for a flag, nor a flag for a number; an int passes for a float. */
  lemma BadOverridesAreDropped(r: real, n: int)
    ensures Typed(Str("false"), Bool(true)) == Bool(true) && Typed(Bool(true), Int(n)) == Int(n)
    ensures Typed(Float(r), Int(n)) == Int(n) && Typed(Int(n), Float(r)) == Int(n)
  {}

  // ----- the state -----

  datatype Stored = Miss | Value(v: Json)

  /** A write puts a value or removes the row. */
  datatype Write = Write(key: string, stored: Stored, at: Time)

  /** What `_cache` holds for a key. */
  datatype Slot = Slot(stored: Stored, expires: Time)

  /** What a fetch brought back, the length of the log when it did, and when that was. */
  datatype Fetched = Fetched(stored: Stored, version: nat, at: Time)

  datatype Entry = Entry(slot: Slot, origin: Fetched)

  /** A read between its first look at the cache and its store. */
  datatype Read = Read(key: string, default: Json, got: Option<Fetched>)

  datatype State = State(now: Time, log: seq<Write>, cache: map<string, Entry>, pending: map<nat, Read>)

  /** What the table held for a key after the first n writes. */
  function DbAt(log: seq<Write>, n: nat, key: string): Stored
    requires n <= |log|
  {
    if n == 0 then Miss else if log[n - 1].key == key then log[n - 1].stored else DbAt(log, n - 1, key)
  }

  datatype Step =
    | Hit(key: string, default: Json)
    | Begin(id: nat, key: string, default: Json)
    | Fetch(id: nat, ok: bool)
    | Complete(id: nat)
    | Put(key: string, stored: Stored)
    | Bust(key: string)
    | Tick(d: nat)

  predicate Cached(s: State, key: string) { key in s.cache && s.now < s.cache[key].slot.expires }

  predicate Enabled(s: State, step: Step) {
    match step
    case Hit(key, _) => Cached(s, key)
    case Begin(id, key, _) => !Cached(s, key) && id !in s.pending
    case Fetch(id, _) => id in s.pending && s.pending[id].got.None?
    case Complete(id) => id in s.pending && s.pending[id].got.Some?
    case _ => true
  }

  /** The store: a full cache is emptied first. */
  function Store<V>(cache: map<string, V>, key: string, v: V): map<string, V> {
    (if |cache| >= MAX_KEYS then map[] else cache)[key := v]
  }

  function Next(s: State, step: Step): State
    requires Enabled(s, step)
  {
    match step
    case Hit(_, _) => s
    case Begin(id, key, default) => s.(pending := s.pending[id := Read(key, default, None)])
    case Fetch(id, ok) =>
      var r := s.pending[id];
      var got := Fetched(if ok then DbAt(s.log, |s.log|, r.key) else Miss, |s.log|, s.now);
      s.(pending := s.pending[id := r.(got := Some(got))])
    case Complete(id) =>
      var r := s.pending[id];
      s.(cache := Store(s.cache, r.key, Entry(Slot(r.got.value.stored, s.now + TTL), r.got.value)), pending := s.pending - {id})
    case Put(key, stored) => s.(log := s.log + [Write(key, stored, s.now)])
    case Bust(key) => s.(cache := s.cache - {key})
    case Tick(d) => s.(now := s.now + d)
  }

  function Answer(stored: Stored, default: Json): Json {
    if stored.Miss? then default else Typed(stored.v, default)
  }

  predicate Answers(step: Step) { step.Hit? || step.Complete? }

  /** The call that is answered at a step: its key, its default and what it returns. */
  function Returned(s: State, step: Step): (string, Json, Json)
    requires Enabled(s, step) && Answers(step)
  {
    if step.Hit? then
      (step.key, step.default, Answer(s.cache[step.key].slot.stored, step.default))
    else
      var r := s.pending[step.id];
      (r.key, r.default, Answer(r.got.value.stored, r.default))
  }

  // ----- invariants -----

  /** The value is what the table held at its version, or nothing because the read failed; later writes are
      no older than the fetch. */
  ghost predicate Witnessed(s: State, key: string, f: Fetched) {
    && f.version <= |s.log|
    && f.at <= s.now
    && (f.stored == Miss || f.stored == DbAt(s.log, f.version, key))
    && (forall i | f.version <= i < |s.log| :: s.log[i].at >= f.at)
  }

  ghost predicate EntryInv(s: State, key: string, e: Entry) {
    && Witnessed(s, key, e.origin)
    && e.slot.stored == e.origin.stored
    && e.origin.at + TTL <= e.slot.expires <= s.now + TTL
  }

  ghost predicate Inv(s: State) {
    && |s.cache.Keys| <= MAX_KEYS
    && (forall key <- s.cache :: EntryInv(s, key, s.cache[key]))
    && (forall id <- s.pending :: s.pending[id].got.Some? ==> Witnessed(s, s.pending[id].key, s.pending[id].got.value))
  }

  lemma {:induction false} OldVersionsStay(log: seq<Write>, w: Write, n: nat, key: string)
    requires n <= |log|
    ensures DbAt(log + [w], n, key) == DbAt(log, n, key)
  {
    if n > 0 { OldVersionsStay(log, w, n - 1, key); }
  }

  lemma WitnessStays(s: State, step: Step, key: string, f: Fetched)
    requires Enabled(s, step) && Witnessed(s, key, f)
    ensures Witnessed(Next(s, step), key, f)
  {
    if step.Put? { OldVersionsStay(s.log, Write(step.key, step.stored, s.now), f.version, key); }
  }

  lemma StoreStaysSmall<V>(cache: map<string, V>, key: string, v: V)
    requires |cache.Keys| <= MAX_KEYS
    ensures |Store(cache, key, v).Keys| <= MAX_KEYS
  {
    assert |cache| == |cache.Keys|;
    if |cache| >= MAX_KEYS {
      assert Store(cache, key, v).Keys == {key};
    } else {
      assert Store(cache, key, v).Keys == cache.Keys + {key};
    }
  }

  lemma StepKeepsSize(s: State, step: Step)
    requires |s.cache.Keys| <= MAX_KEYS && Enabled(s, step)
    ensures |Next(s, step).cache.Keys| <= MAX_KEYS
  {
    match step {
      case Complete(id) =>
        var r := s.pending[id];
        StoreStaysSmall(s.cache, r.key, Entry(Slot(r.got.value.stored, s.now + TTL), r.got.value));
      case Bust(key) =>
        assert (s.cache - {key}).Keys == s.cache.Keys - {key};
      case _ =>
    }
  }

  lemma StepKeepsInv(s: State, step: Step)
    requires Inv(s) && Enabled(s, step)
    ensures Inv(Next(s, step))
  {
    var s' := Next(s, step);
    StepKeepsSize(s, step);
    forall key | key in s'.cache
      ensures EntryInv(s', key, s'.cache[key])
    {
      WitnessStays(s, step, key, s'.cache[key].origin);
    }
    forall id | id in s'.pending && s'.pending[id].got.Some?
      ensures Witnessed(s', s'.pending[id].key, s'.pending[id].got.value)
    {
      if !(step.Fetch? && step.id == id) {
        WitnessStays(s, step, s'.pending[id].key, s'.pending[id].got.value);
      }
    }
  }

  ghost predicate Moves(s: State, s': State) {
    exists step :: Enabled(s, step) && Next(s, step) == s'
  }

  ghost predicate MovesAt(run: seq<State>, i: nat)
    requires i + 1 < |run|
  {
    Moves(run[i], run[i + 1])
  }

  ghost predicate IsRun(run: seq<State>) {
    run != [] && forall i | 0 <= i < |run| - 1 :: MovesAt(run, i)
  }

  function Start(now: Time, log: seq<Write>): State { State(now, log, map[], map[]) }

  /** No fetched value waits longer than d to be stored. */
  ghost predicate Prompt(s: State, d: nat) {
    forall id <- s.pending :: s.pending[id].got.Some? ==> s.now - s.pending[id].got.value.at <= d
  }

  ghost predicate Settles(s: State, d: nat) {
    forall key <- s.cache :: s.cache[key].slot.expires <= s.cache[key].origin.at + d + TTL
  }

  lemma StepKeepsSettles(s: State, step: Step, d: nat)
    requires Settles(s, d) && Prompt(s, d) && Enabled(s, step)
    ensures Settles(Next(s, step), d)
  {}

  lemma MoveKeeps(s: State, s': State, d: nat)
    requires Moves(s, s')
    ensures Inv(s) ==> Inv(s')
    ensures Settles(s, d) && Prompt(s, d) ==> Settles(s', d)
  {
    var step :| Enabled(s, step) && Next(s, step) == s';
    if Inv(s) { StepKeepsInv(s, step); }
    if Settles(s, d) && Prompt(s, d) { StepKeepsSettles(s, step, d); }
  }

  lemma RunKeepsInv(run: seq<State>, i: nat)
    requires IsRun(run) && Inv(run[0]) && i < |run|
    ensures Inv(run[i])
  {
    var inv := (s: State) => Inv(s);
    forall j | 0 <= j < |run| - 1 ensures Runs.KeptAt(run, inv, j) {
      assert MovesAt(run, j);
      MoveKeeps(run[j], run[j + 1], 0);
    }
    Runs.Always(run, inv, i);
  }

  lemma {:induction false} RunSettles(run: seq<State>, d: nat, i: nat)
    requires IsRun(run) && Settles(run[0], d) && (forall s <- run :: Prompt(s, d)) && i < |run|
    ensures Settles(run[i], d)
  {
    if i > 0 {
      RunSettles(run, d, i - 1);
      assert MovesAt(run, i - 1) && run[i - 1] in run;
      MoveKeeps(run[i - 1], run[i], d);
    }
  }

  // ----- bounded staleness -----

  /** What a call may return: the checked value of the table after the first n writes, or the default. */
  ghost predicate IsVersion(log: seq<Write>, n: nat, key: string, default: Json, answer: Json) {
    n <= |log| && (answer == default || answer == Answer(DbAt(log, n, key), default))
  }

  /** Whatever the interleaving, the cache stays small and a call returns a value of its default's type:
      the default, or the checked value of a version that misses no write from before `since`, the moment
      it was fetched. A value answered from the cache was stored less than a TTL ago. */
  lemma AnswersComeFromOneVersion(t: Time, log: seq<Write>, run: seq<State>, step: Step) returns (n: nat, since: Time)
    requires IsRun(run) && run[0] == Start(t, log)
    requires Enabled(run[|run| - 1], step) && Answers(step)
    ensures var s := run[|run| - 1]; var (key, default, answer) := Returned(s, step);
      && |s.cache.Keys| <= MAX_KEYS
      && Fits(answer, default)
      && IsVersion(s.log, n, key, default, answer)
      && (forall i | n <= i < |s.log| :: s.log[i].at >= since)
      && since <= s.now
      && (step.Hit? ==> s.now < s.cache[key].slot.expires <= s.now + TTL && n == s.cache[key].origin.version && since == s.cache[key].origin.at)
      && (step.Complete? ==> since == s.pending[step.id].got.value.at)
  {
    assert Inv(run[0]);
    RunKeepsInv(run, |run| - 1);
    var s := run[|run| - 1];
    var (key, default, answer) := Returned(s, step);
    var f := if step.Hit? then s.cache[key].origin else s.pending[step.id].got.value;
    assert Witnessed(s, key, f) by {
      if step.Hit? { assert EntryInv(s, key, s.cache[key]); }
    }
    if f.stored.Value? { TypedKeepsType(f.stored.v, default); }
    n, since := f.version, f.at;
  }

  lemma {:induction false} UntouchedSince(log: seq<Write>, n: nat, key: string)
    requires n <= |log| && forall i | n <= i < |log| :: log[i].key != key
    ensures DbAt(log, |log|, key) == DbAt(log, n, key)
  {
    if n < |log| {
      var front := log[..|log| - 1];
      assert log == front + [log[|log| - 1]];
      OldVersionsStay(front, log[|log| - 1], |log| - 1, key);
      OldVersionsStay(front, log[|log| - 1], n, key);
      UntouchedSince(front, n, key);
    }
  }

  /** Every process converges: when a read takes at most d from fetch to store and the key was last written
      more than TTL + d ago, a call returns the checked current value, or its default. */
  lemma SettledWritesAreSeen(t: Time, log: seq<Write>, run: seq<State>, step: Step, d: nat)
    requires IsRun(run) && run[0] == Start(t, log) && forall s <- run :: Prompt(s, d)
    requires Enabled(run[|run| - 1], step) && Answers(step)
    requires var s := run[|run| - 1]; forall w <- s.log :: w.key == Returned(s, step).0 ==> w.at <= s.now - TTL - d
    ensures var s := run[|run| - 1]; var (key, default, answer) := Returned(s, step);
      answer == default || answer == Answer(DbAt(s.log, |s.log|, key), default)
  {
    var s := run[|run| - 1];
    assert s in run;
    var n, since := AnswersComeFromOneVersion(t, log, run, step);
    RunSettles(run, d, |run| - 1);
    var key := Returned(s, step).0;
    assert s.now - TTL - d < since;
    forall i | n <= i < |s.log|
      ensures s.log[i].key != key
    {
      assert s.log[i] in s.log;
    }
    UntouchedSince(s.log, n, key);
  }

  // ----- freshness after a bust -----

  /** A read of the key that fetched before version w is still under way. */
  ghost predicate OldReadInFlight(s: State, key: string, w: nat) {
    exists id :: id in s.pending && s.pending[id].key == key && s.pending[id].got.Some? && s.pending[id].got.value.version < w
  }

  /** Nothing in this process can answer for the key with a version before w. */
  ghost predicate FreshSince(s: State, key: string, w: nat) {
    (key in s.cache ==> s.cache[key].origin.version >= w) && !OldReadInFlight(s, key, w)
  }

  lemma StepKeepsFresh(s: State, step: Step, key: string, w: nat)
    requires FreshSince(s, key, w) && w <= |s.log| && Enabled(s, step)
    ensures FreshSince(Next(s, step), key, w) && w <= |Next(s, step).log|
  {}

  lemma MoveKeepsFresh(s: State, s': State, key: string, w: nat)
    requires Moves(s, s') && FreshSince(s, key, w) && w <= |s.log|
    ensures FreshSince(s', key, w) && w <= |s'.log|
  {
    var step :| Enabled(s, step) && Next(s, step) == s';
    StepKeepsFresh(s, step, key, w);
  }

  lemma {:induction false} RunKeepsFresh(run: seq<State>, key: string, w: nat, i: nat)
    requires IsRun(run) && FreshSince(run[0], key, w) && w <= |run[0].log| && i < |run|
    ensures FreshSince(run[i], key, w) && w <= |run[i].log|
  {
    if i > 0 {
      RunKeepsFresh(run, key, w, i - 1);
      assert MovesAt(run, i - 1);
      MoveKeepsFresh(run[i - 1], run[i], key, w);
    }
  }

  ghost predicate IsStale(s: State, key: string, w: nat) {
    key in s.cache && s.cache[key].origin.version < w
  }

  /** Some run from here leaves an answer for the key older than version w in the cache. */
  ghost predicate CanGoStale(s: State, key: string, w: nat) {
    exists run: seq<State> :: IsRun(run) && run[0] == s && IsStale(run[|run| - 1], key, w)
  }

  lemma OldReadMakesStale(s: State, key: string, w: nat)
    requires OldReadInFlight(s, key, w)
    ensures CanGoStale(Next(s, Bust(key)), key, w)
  {
    var s' := Next(s, Bust(key));
    var id :| id in s.pending && s.pending[id].key == key && s.pending[id].got.Some? && s.pending[id].got.value.version < w;
    var s'' := Next(s', Complete(id));
    var run := [s', s''];
    assert Moves(s', s'') && MovesAt(run, 0);
    assert IsRun(run) && IsStale(run[|run| - 1], key, w);
  }

  lemma StaleIffOldRead(s: State, key: string, w: nat)
    requires w <= |s.log|
    ensures CanGoStale(Next(s, Bust(key)), key, w) <==> OldReadInFlight(s, key, w)
  {
    var s' := Next(s, Bust(key));
    if OldReadInFlight(s, key, w) {
      OldReadMakesStale(s, key, w);
    } else if CanGoStale(s', key, w) {
      var run: seq<State> :| IsRun(run) && run[0] == s' && IsStale(run[|run| - 1], key, w);
      assert FreshSince(s', key, w);
      RunKeepsFresh(run, key, w, |run| - 1);
    }
  }

  /** A write of this very key came after version n. */
  ghost predicate MissesWrite(log: seq<Write>, n: nat, key: string) {
    exists i :: n <= i < |log| && log[i].key == key
  }

  /** One past the last write of the key. */
  function LastWrite(log: seq<Write>, key: string): (w: nat)
    ensures w <= |log|
  {
    if log == [] then 0 else if log[|log| - 1].key == key then |log| else LastWrite(log[..|log| - 1], key)
  }

  lemma {:induction false} MissesWriteIff(log: seq<Write>, n: nat, key: string)
    ensures MissesWrite(log, n, key) <==> n < LastWrite(log, key)
  {
    if log != [] && log[|log| - 1].key != key {
      var front := log[..|log| - 1];
      MissesWriteIff(front, n, key);
      if MissesWrite(log, n, key) {
        var i :| n <= i < |log| && log[i].key == key;
        assert front[i].key == key;
      }
    }
  }

  /** A read of the key is under way that missed one of its writes. */
  ghost predicate LateReadInFlight(s: State, key: string) {
    exists id :: id in s.pending && s.pending[id].key == key && s.pending[id].got.Some? && MissesWrite(s.log, s.pending[id].got.value.version, key)
  }

  /** Some run from s leaves an answer in the cache that misses a write of the key in this log. */
  ghost predicate CanMissWrite(s: State, key: string, log: seq<Write>) {
    exists run: seq<State> :: IsRun(run) && run[0] == s && key in run[|run| - 1].cache && MissesWrite(log, run[|run| - 1].cache[key].origin.version, key)
  }

  /** After a bust the process can come back to a version that misses a write of the key exactly when a read
      that missed one is still under way. */
  lemma FreshAfterBustIff(s: State, key: string)
    ensures CanMissWrite(Next(s, Bust(key)), key, s.log) <==> LateReadInFlight(s, key)
  {
    var w := LastWrite(s.log, key);
    forall n: nat ensures MissesWrite(s.log, n, key) <==> n < w { MissesWriteIff(s.log, n, key); }
    StaleIffOldRead(s, key, w);
    var s' := Next(s, Bust(key));
    if CanMissWrite(s', key, s.log) {
      var run: seq<State> :| IsRun(run) && run[0] == s' && key in run[|run| - 1].cache && MissesWrite(s.log, run[|run| - 1].cache[key].origin.version, key);
      assert IsStale(run[|run| - 1], key, w);
    }
    if CanGoStale(s', key, w) {
      var run: seq<State> :| IsRun(run) && run[0] == s' && IsStale(run[|run| - 1], key, w);
      assert MissesWrite(s.log, run[|run| - 1].cache[key].origin.version, key);
    }
  }

  lemma BustedRunStaysFresh(s: State, key: string, run: seq<State>)
    requires Inv(s) && !LateReadInFlight(s, key) && IsRun(run) && run[0] == Next(s, Bust(key))
    ensures Inv(run[|run| - 1]) && FreshSince(run[|run| - 1], key, LastWrite(s.log, key))
  {
    var w := LastWrite(s.log, key);
    forall n: nat ensures MissesWrite(s.log, n, key) <==> n < w { MissesWriteIff(s.log, n, key); }
    assert FreshSince(run[0], key, w);
    RunKeepsFresh(run, key, w, |run| - 1);
    StepKeepsInv(s, Bust(key));
    RunKeepsInv(run, |run| - 1);
  }

  lemma FreshAnswersAreSince(end: State, key: string, w: nat, step: Step) returns (n: nat)
    requires Inv(end) && FreshSince(end, key, w)
    requires Enabled(end, step) && Answers(step) && Returned(end, step).0 == key
    ensures var (_, default, answer) := Returned(end, step); w <= n && IsVersion(end.log, n, key, default, answer)
  {
    var f := if step.Hit? then end.cache[key].origin else end.pending[step.id].got.value;
    assert Witnessed(end, key, f) by {
      if step.Hit? { assert EntryInv(end, key, end.cache[key]); }
    }
    n := f.version;
  }

  /** Without such a read every later answer for the key is the default or the checked value of a version
      that has the write. */
  lemma BustedAnswersHaveTheWrite(s: State, key: string, run: seq<State>, step: Step) returns (n: nat)
    requires Inv(s) && !LateReadInFlight(s, key) && IsRun(run) && run[0] == Next(s, Bust(key))
    requires Enabled(run[|run| - 1], step) && Answers(step) && Returned(run[|run| - 1], step).0 == key
    ensures var end := run[|run| - 1]; var (_, default, answer) := Returned(end, step);
      LastWrite(s.log, key) <= n && IsVersion(end.log, n, key, default, answer)
  {
    BustedRunStaysFresh(s, key, run);
    n := FreshAnswersAreSince(run[|run| - 1], key, LastWrite(s.log, key), step);
  }

  // ----- overrides are answered -----

  /** The last write of the key put this value. */
  ghost predicate RowIs(log: seq<Write>, key: string, v: Json) {
    exists w :: 0 <= w < |log| && log[w].key == key && log[w].stored == Value(v) && forall i | w < i < |log| :: log[i].key != key
  }

  lemma {:induction false} RowIsRead(log: seq<Write>, key: string, v: Json, n: nat)
    requires n <= |log| && RowIs(log[..n], key, v)
    ensures DbAt(log, n, key) == Value(v)
  {
    var front := log[..n];
    var w :| 0 <= w < |front| && front[w].key == key && front[w].stored == Value(v) && forall i | w < i < |front| :: front[i].key != key;
    assert log[n - 1] == front[n - 1];
    if w < n - 1 {
      assert RowIs(log[..n - 1], key, v) by { assert log[..n - 1][w] == front[w]; }
      RowIsRead(log, key, v, n - 1);
    }
  }

  /** The read stays as it is until it completes. */
  lemma ReadStays(s: State, s': State, id: nat)
    requires Moves(s, s') && id in s.pending && id in s'.pending && s.pending[id].got.Some?
    ensures s'.pending[id] == s.pending[id]
  {}

  lemma {:induction false} ReadWaits(run: seq<State>, i: nat, j: nat, id: nat)
    requires IsRun(run) && i <= j < |run| && id in run[i].pending && run[i].pending[id].got.Some?
    requires forall k | i <= k <= j :: id in run[k].pending
    ensures run[j].pending[id] == run[i].pending[id]
  {
    if i < j {
      ReadWaits(run, i, j - 1, id);
      assert MovesAt(run, j - 1);
      ReadStays(run[j - 1], run[j], id);
    }
  }

  /** A read that reached the table while the row held a value of the default's type returns that value, whenever it
      completes; a value of another type, like a missing row, gives the default. */
  lemma FetchedRowIsReturned(run: seq<State>, i: nat, j: nat, id: nat, key: string, default: Json, v: Json)
    requires IsRun(run) && i < j < |run| && RowIs(run[i].log, key, v)
    requires id in run[i].pending && run[i].pending[id] == Read(key, default, None) && run[i + 1] == Next(run[i], Fetch(id, true))
    requires forall k | i < k <= j :: id in run[k].pending
    ensures Enabled(run[j], Complete(id))
    ensures Returned(run[j], Complete(id)) == (key, default, if Fits(v, default) then v else default)
  {
    assert run[i].log[..|run[i].log|] == run[i].log;
    RowIsRead(run[i].log, key, v, |run[i].log|);
    ReadWaits(run, i + 1, j, id);
    TypedKeepsType(v, default);
  }

  /** A read that failed, or found no row, returns the default, and leaves that answer in the cache for a TTL. */
  lemma FailedReadGivesDefault(run: seq<State>, i: nat, j: nat, id: nat, key: string, default: Json, ok: bool)
    requires IsRun(run) && i < j < |run| && (!ok || forall w | 0 <= w < |run[i].log| :: run[i].log[w].key != key)
    requires id in run[i].pending && run[i].pending[id] == Read(key, default, None) && run[i + 1] == Next(run[i], Fetch(id, ok))
    requires forall k | i < k <= j :: id in run[k].pending
    ensures Enabled(run[j], Complete(id)) && Returned(run[j], Complete(id)) == (key, default, default)
    ensures var s' := Next(run[j], Complete(id)); key in s'.cache && s'.cache[key].slot == Slot(Miss, run[j].now + TTL)
  {
    if ok { NoRowIsRead(run[i].log, key, |run[i].log|); }
    ReadWaits(run, i + 1, j, id);
  }

  lemma {:induction false} NoRowIsRead(log: seq<Write>, key: string, n: nat)
    requires n <= |log| && forall w | 0 <= w < n :: log[w].key != key
    ensures DbAt(log, n, key) == Miss
  {
    if n > 0 { NoRowIsRead(log, key, n - 1); }
  }

  /** And once it has completed, every hit of the entry it left returns the value to a caller whose default it fits. */
  lemma StoredRowIsReturned(s: State, id: nat, later: State, key: string, v: Json, default: Json)
    requires Enabled(s, Complete(id)) && s.pending[id].key == key && s.pending[id].got.value.stored == Value(v)
    requires key in later.cache && later.cache[key] == Next(s, Complete(id)).cache[key] && later.now < s.now + TTL
    ensures Enabled(later, Hit(key, default))
    ensures Returned(later, Hit(key, default)) == (key, default, if Fits(v, default) then v else default)
  {
    TypedKeepsType(v, default);
  }

  // ----- the module dictionary -----

  /** What the process really stores, without where it came from. */
  function Slots(cache: map<string, Entry>): map<string, Slot> {
    map key | key in cache :: cache[key].slot
  }

  lemma StoreOnSlots(cache: map<string, Entry>, key: string, e: Entry)
    ensures Slots(Store(cache, key, e)) == Store(Slots(cache), key, e.slot)
  {
    assert Slots(cache).Keys == cache.Keys;
    assert |Slots(cache)| == |Slots(cache).Keys| && |cache| == |cache.Keys|;
  }

  /** The read has fetched this value for this call. */
  predicate Completes(s: State, id: nat, key: string, default: Json, v: Stored) {
    id in s.pending && s.pending[id].key == key && s.pending[id].default == default
    && s.pending[id].got.Some? && s.pending[id].got.value.stored == v
  }

  /** `_cache`, and what `get_effective` and `bust` do to it before and after the await. */
  class Cache {
    var slots: map<string, Slot>

    constructor ()
      ensures slots == map[]
    {
      slots := map[];
    }

    method Lookup(key: string, default: Json, now: Time) returns (r: Option<Json>)
      ensures forall s: State | Slots(s.cache) == slots && s.now == now ::
        if Enabled(s, Hit(key, default)) then r == Some(Returned(s, Hit(key, default)).2) else r == None
      ensures r.Some? <==> key in slots && now < slots[key].expires
      ensures r.Some? ==> r.value == if slots[key].stored.Value? && Fits(slots[key].stored.v, default) then slots[key].stored.v else default
    {
      if key in slots && now < slots[key].expires {
        var v := slots[key].stored;
        return Some(if v.Miss? then default else Typed(v.v, default));
      }
      return None;
    }

    /** The store after the await is the step that completes any read with this key, default and value. */
    method Keep(key: string, default: Json, v: Stored, now: Time) returns (r: Json)
      modifies this
      ensures slots == Store(old(slots), key, Slot(v, now + TTL)) && r == Answer(v, default)
      ensures r == if v.Value? && Fits(v.v, default) then v.v else default
      ensures forall s: State, id: nat | Completes(s, id, key, default, v) && Slots(s.cache) == old(slots) && s.now == now ::
        slots == Slots(Next(s, Complete(id)).cache) && r == Returned(s, Complete(id)).2
    {
      if |slots| >= MAX_KEYS {
        slots := map[];
      }
      slots := slots[key := Slot(v, now + TTL)];
      r := if v.Miss? then default else Typed(v.v, default);
      forall s: State, id: nat | Completes(s, id, key, default, v) && Slots(s.cache) == old(slots) && s.now == now
        ensures slots == Slots(Next(s, Complete(id)).cache)
      {
        StoreOnSlots(s.cache, key, Entry(Slot(v, now + TTL), s.pending[id].got.value));
      }
    }

    method Bust(key: string)
      modifies this
      ensures slots == old(slots) - {key}
    {
      slots := slots - {key};
    }
  }
}
