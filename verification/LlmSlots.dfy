/** `llm_slot`: a semaphore in a Redis sorted set, shared by processes that can lose replies, crash, or
  fall back to a semaphore of their own.

  A run is any sequence of the steps below.  `now` is the wall clock; the stamp a caller sends with the
  script was read from it some time before the script runs. */
module LlmSlots {
  import opened Collections
  import Runs

  datatype CallId = CallId(n: nat)
  datatype Pid = Pid(n: nat)

  /** Milliseconds. */
  type Time = int

  const LEASE: Time := 90000

  /** The two budgets: outside and inside MSK 22:00-06:00. */
  datatype Limits = Limits(day: nat, night: nat)

  function LargerLimit(l: Limits): nat { if l.day >= l.night then l.day else l.night }

  predicate IsNight(hour: int) { hour >= 22 || hour < 6 }

  function CurrentLimit(l: Limits, hour: int): (r: nat)
    ensures r <= LargerLimit(l)
  {
    if IsNight(hour) then l.night else l.day
  }

  // ----- the script -----

  /** `ZREMRANGEBYSCORE -inf, stamp - lease`. */
  function Reclaimed(slots: map<CallId, Time>, stamp: Time): map<CallId, Time> {
    map m | m in slots && slots[m] > stamp - LEASE :: slots[m]
  }

  /** The atomic script: reclaim, then claim if there is room. */
  function Acquire(slots: map<CallId, Time>, stamp: Time, limit: nat, member: CallId): (map<CallId, Time>, bool) {
    var live := Reclaimed(slots, stamp);
    if |live| < limit then (live[member := stamp], true) else (live, false)
  }

  /** The sorted set, updated in place by the server. */
  class SlotSet {
    var slots: map<CallId, Time>

    constructor ()
      ensures slots == map[]
    {
      slots := map[];
    }

    method Eval(stamp: Time, limit: nat, member: CallId) returns (ok: bool)
      modifies this
      ensures (slots, ok) == Acquire(old(slots), stamp, limit, member)
    {
      slots := map m | m in slots && slots[m] > stamp - LEASE :: slots[m];
      if |slots| < limit {
        slots := slots[member := stamp];
        return true;
      }
      return false;
    }

    method Remove(member: CallId)
      modifies this
      ensures slots == old(slots) - {member}
    {
      slots := slots - {member};
    }
  }

  // ----- the system -----

  /** Where a call stands: polling for a slot, holding one stamped `since`, waiting for or holding the
      local semaphore of its process. */
  datatype Phase = Polling | Holding(since: Time) | LocalWait | Local

  datatype Call = Call(pid: Pid, limit: nat, phase: Phase)

  datatype State = State(now: Time, slots: map<CallId, Time>, used: set<CallId>, calls: map<CallId, Call>, caps: map<Pid, nat>)

  datatype Step =
    | Begin(c: CallId, pid: Pid, hour: int, redis: bool)
    | Poll(c: CallId, stamp: Time)
    | LoseReply(c: CallId, stamp: Time, ran: bool)
    | GiveUp(c: CallId)
    | EnterLocal(c: CallId, hour: int)
    | End(c: CallId, released: bool)
    | Abandon(c: CallId)
    | Crash(pid: Pid)
    | Tick(d: nat)

  function LocalCalls(s: State, pid: Pid): set<CallId> {
    set c | c in s.calls && s.calls[c].pid == pid && s.calls[c].phase.Local?
  }

  function CapOf(l: Limits, s: State, pid: Pid, hour: int): nat {
    if pid in s.caps then s.caps[pid] else CurrentLimit(l, hour)
  }

  predicate Enabled(l: Limits, s: State, step: Step) {
    match step
    case Begin(c, _, _, _) => c !in s.used
    case Poll(c, stamp) => c in s.calls && s.calls[c].phase.Polling? && stamp <= s.now
    case LoseReply(c, stamp, _) => c in s.calls && s.calls[c].phase.Polling? && stamp <= s.now
    case GiveUp(c) => c in s.calls && s.calls[c].phase.Polling?
    case EnterLocal(c, hour) => c in s.calls && s.calls[c].phase.LocalWait?
        && |LocalCalls(s, s.calls[c].pid)| < CapOf(l, s, s.calls[c].pid, hour)
    case End(c, _) => c in s.calls && (s.calls[c].phase.Holding? || s.calls[c].phase.Local?)
    case Abandon(c) => c in s.calls && s.calls[c].phase.LocalWait?
    case Crash(_) => true
    case Tick(_) => true
  }

  function Next(l: Limits, s: State, step: Step): State
    requires Enabled(l, s, step)
  {
    match step
    case Begin(c, pid, hour, redis) =>
      s.(used := s.used + {c}, calls := s.calls[c := Call(pid, CurrentLimit(l, hour), if redis then Polling else LocalWait)])
    case Poll(c, stamp) =>
      var (slots, ok) := Acquire(s.slots, stamp, s.calls[c].limit, c);
      s.(slots := slots, calls := if ok then s.calls[c := s.calls[c].(phase := Holding(stamp))] else s.calls)
    case LoseReply(c, stamp, ran) =>
      s.(slots := if ran then Acquire(s.slots, stamp, s.calls[c].limit, c).0 else s.slots,
         calls := s.calls[c := s.calls[c].(phase := LocalWait)])
    case GiveUp(c) =>
      s.(calls := s.calls[c := s.calls[c].(phase := LocalWait)])
    case EnterLocal(c, hour) =>
      var pid := s.calls[c].pid;
      s.(caps := s.caps[pid := CapOf(l, s, pid, hour)], calls := s.calls[c := s.calls[c].(phase := Local)])
    case End(c, released) =>
      s.(slots := if s.calls[c].phase.Holding? && released then s.slots - {c} else s.slots, calls := s.calls - {c})
    case Abandon(c) =>
      s.(calls := s.calls - {c})
    case Crash(pid) =>
      s.(calls := map c | c in s.calls && s.calls[c].pid != pid :: s.calls[c], caps := s.caps - {pid})
    case Tick(d) =>
      s.(now := s.now + d)
  }

  function Start(now: Time): State { State(now, map[], {}, map[], map[]) }

  // ----- safety -----

  /** The set never outgrows the larger budget. */
  ghost predicate Bounded(l: Limits, s: State) {
    |s.slots| <= LargerLimit(l)
  }

  /** A call whose lease runs still has its slot, and no slot is stamped in the future. */
  ghost predicate LeasesHold(s: State) {
    forall c | c in s.calls && s.calls[c].phase.Holding? && s.now < s.calls[c].phase.since + LEASE ::
      c in s.slots && s.slots[c] == s.calls[c].phase.since
  }

  /** Slots belong to calls that were begun; a polling call has none. */
  ghost predicate SlotsBelong(s: State) {
    && s.slots.Keys <= s.used && s.calls.Keys <= s.used
    && (forall m <- s.slots :: s.slots[m] <= s.now)
    && (forall c | c in s.calls && s.calls[c].phase.Polling? :: c !in s.slots)
    && (forall c | c in s.calls && s.calls[c].phase.Holding? :: s.calls[c].phase.since <= s.now)
  }

  ghost predicate LimitsTaken(l: Limits, s: State) {
    forall c <- s.calls :: s.calls[c].limit <= LargerLimit(l)
  }

  /** Each process keeps within its own semaphore. */
  ghost predicate LocalBounded(l: Limits, s: State) {
    && (forall c | c in s.calls && s.calls[c].phase.Local? :: s.calls[c].pid in s.caps)
    && (forall p <- s.caps :: |LocalCalls(s, p)| <= s.caps[p] <= LargerLimit(l))
  }

  ghost predicate Inv(l: Limits, s: State) {
    Bounded(l, s) && LeasesHold(s) && SlotsBelong(s) && LimitsTaken(l, s) && LocalBounded(l, s)
  }

  lemma AcquireBounded(slots: map<CallId, Time>, stamp: Time, limit: nat, member: CallId, most: nat)
    requires |slots| <= most && limit <= most
    ensures |Acquire(slots, stamp, limit, member).0| <= most
  {
    var live := Reclaimed(slots, stamp);
    SubsetSize(live.Keys, slots.Keys);
    assert |live| == |live.Keys| && |slots| == |slots.Keys|;
    var claimed := live[member := stamp];
    assert claimed.Keys == live.Keys + {member} && |claimed| == |claimed.Keys|;
  }

  lemma StepKeepsBounded(l: Limits, s: State, step: Step)
    requires Bounded(l, s) && LimitsTaken(l, s) && Enabled(l, s, step)
    ensures Bounded(l, Next(l, s, step))
  {
    match step {
      case Poll(c, stamp) => AcquireBounded(s.slots, stamp, s.calls[c].limit, c, LargerLimit(l));
      case LoseReply(c, stamp, _) => AcquireBounded(s.slots, stamp, s.calls[c].limit, c, LargerLimit(l));
      case End(c, _) =>
        var rest := s.slots - {c};
        SubsetSize(rest.Keys, s.slots.Keys);
        assert |rest| == |rest.Keys| && |s.slots| == |s.slots.Keys|;
      case _ =>
    }
  }

  /** Reclaiming by a stamp that is not in the future spares every lease that still runs. */
  lemma AcquireSparesLeases(slots: map<CallId, Time>, stamp: Time, limit: nat, member: CallId, m: CallId, now: Time)
    requires stamp <= now && m in slots && m != member && now < slots[m] + LEASE
    ensures m in Acquire(slots, stamp, limit, member).0 && Acquire(slots, stamp, limit, member).0[m] == slots[m]
  {}

  lemma StepKeepsLeases(l: Limits, s: State, step: Step)
    requires LeasesHold(s) && SlotsBelong(s) && Enabled(l, s, step)
    ensures LeasesHold(Next(l, s, step))
  {
    var s' := Next(l, s, step);
    forall c | c in s'.calls && s'.calls[c].phase.Holding? && s'.now < s'.calls[c].phase.since + LEASE
      ensures c in s'.slots && s'.slots[c] == s'.calls[c].phase.since
    {
      if c in s.calls && s.calls[c] == s'.calls[c] {
        assert c in s.slots && s.slots[c] == s.calls[c].phase.since;
        match step {
          case Poll(d, stamp) => AcquireSparesLeases(s.slots, stamp, s.calls[d].limit, d, c, s.now);
          case LoseReply(d, stamp, _) => AcquireSparesLeases(s.slots, stamp, s.calls[d].limit, d, c, s.now);
          case _ =>
        }
      }
    }
  }

  lemma StepKeepsBelonging(l: Limits, s: State, step: Step)
    requires SlotsBelong(s) && Enabled(l, s, step)
    ensures SlotsBelong(Next(l, s, step))
  {}

  lemma StepKeepsLimits(l: Limits, s: State, step: Step)
    requires LimitsTaken(l, s) && Enabled(l, s, step)
    ensures LimitsTaken(l, Next(l, s, step))
  {}

  /** Only entering adds a local call, and only to its own process. */
  lemma StepChangesLocalCalls(l: Limits, s: State, step: Step, p: Pid)
    requires SlotsBelong(s) && Enabled(l, s, step)
    ensures LocalCalls(Next(l, s, step), p) <= LocalCalls(s, p)
      + if step.EnterLocal? && s.calls[step.c].pid == p then {step.c} else {}
  {}

  lemma StepKeepsLocalCap(l: Limits, s: State, step: Step, p: Pid)
    requires LocalBounded(l, s) && SlotsBelong(s) && Enabled(l, s, step) && p in Next(l, s, step).caps
    ensures |LocalCalls(Next(l, s, step), p)| <= Next(l, s, step).caps[p] <= LargerLimit(l)
  {
    var s' := Next(l, s, step);
    StepChangesLocalCalls(l, s, step, p);
    if step.EnterLocal? && s.calls[step.c].pid == p {
      SubsetSize(LocalCalls(s', p), LocalCalls(s, p) + {step.c});
    } else {
      SubsetSize(LocalCalls(s', p), LocalCalls(s, p));
    }
  }

  lemma StepKeepsLocal(l: Limits, s: State, step: Step)
    requires LocalBounded(l, s) && SlotsBelong(s) && Enabled(l, s, step)
    ensures LocalBounded(l, Next(l, s, step))
  {
    var s' := Next(l, s, step);
    forall p | p in s'.caps ensures |LocalCalls(s', p)| <= s'.caps[p] <= LargerLimit(l) { StepKeepsLocalCap(l, s, step, p); }
    StepKeepsProcesses(l, s, step);
  }

  lemma StepKeepsProcesses(l: Limits, s: State, step: Step)
    requires Enabled(l, s, step) && forall c | c in s.calls && s.calls[c].phase.Local? :: s.calls[c].pid in s.caps
    ensures var s' := Next(l, s, step); forall c | c in s'.calls && s'.calls[c].phase.Local? :: s'.calls[c].pid in s'.caps
  {}

  lemma StepKeepsInv(l: Limits, s: State, step: Step)
    requires Inv(l, s) && Enabled(l, s, step)
    ensures Inv(l, Next(l, s, step))
  {
    StepKeepsBounded(l, s, step);
    StepKeepsLeases(l, s, step);
    StepKeepsBelonging(l, s, step);
    StepKeepsLimits(l, s, step);
    StepKeepsLocal(l, s, step);
  }

  ghost predicate Moves(l: Limits, s: State, s': State) {
    exists step :: Enabled(l, s, step) && Next(l, s, step) == s'
  }

  ghost predicate MovesAt(l: Limits, run: seq<State>, i: nat)
    requires i + 1 < |run|
  {
    Moves(l, run[i], run[i + 1])
  }

  ghost predicate IsRun(l: Limits, run: seq<State>) {
    && run != [] && run[0] == Start(run[0].now)
    && forall i | 0 <= i < |run| - 1 :: MovesAt(l, run, i)
  }

  /** Some run, whatever its steps, ends here. */
  ghost predicate Reachable(l: Limits, s: State) {
    exists run: seq<State> :: IsRun(l, run) && run[|run| - 1] == s
  }

  lemma StartIsReachable(l: Limits, t: Time)
    ensures Reachable(l, Start(t))
  {
    assert IsRun(l, [Start(t)]);
  }

  lemma NextIsReachable(l: Limits, s: State, step: Step)
    requires Reachable(l, s) && Enabled(l, s, step)
    ensures Reachable(l, Next(l, s, step))
  {
    var run: seq<State> :| IsRun(l, run) && run[|run| - 1] == s;
    var longer := run + [Next(l, s, step)];
    forall i | 0 <= i < |longer| - 1 ensures MovesAt(l, longer, i) {
      assert longer[i] == run[i];
      if i + 1 < |run| { assert MovesAt(l, run, i) && longer[i + 1] == run[i + 1]; }
    }
    assert IsRun(l, longer);
  }

  lemma MoveKeepsInv(l: Limits, s: State, s': State)
    requires Inv(l, s) && Moves(l, s, s')
    ensures Inv(l, s')
  {
    var step :| Enabled(l, s, step) && Next(l, s, step) == s';
    StepKeepsInv(l, s, step);
  }

  lemma RunKeepsInv(l: Limits, run: seq<State>, i: nat)
    requires IsRun(l, run) && i < |run|
    ensures Inv(l, run[i])
  {
    var inv := (s: State) => Inv(l, s);
    StartInv(l, run[0].now);
    forall j | 0 <= j < |run| - 1 ensures Runs.KeptAt(run, inv, j) {
      assert MovesAt(l, run, j);
      if Inv(l, run[j]) { MoveKeepsInv(l, run[j], run[j + 1]); }
    }
    Runs.Always(run, inv, i);
  }

  lemma StartInv(l: Limits, t: Time)
    ensures Inv(l, Start(t))
  {}

  lemma ReachableInv(l: Limits, s: State)
    requires Reachable(l, s)
    ensures Inv(l, s)
  {
    var run: seq<State> :| IsRun(l, run) && run[|run| - 1] == s;
    RunKeepsInv(l, run, |run| - 1);
  }

  // ----- what a run guarantees -----

  function InLease(s: State): set<CallId> {
    set c | c in s.calls && s.calls[c].phase.Holding? && s.now < s.calls[c].phase.since + LEASE
  }

  function InFlight(s: State): set<CallId> {
    set c | c in s.calls && (s.calls[c].phase.Holding? || s.calls[c].phase.Local?)
  }

  function SumCaps(caps: map<Pid, nat>, pids: seq<Pid>): nat
    requires forall p <- pids :: p in caps
  {
    if pids == [] then 0 else SumCaps(caps, pids[..|pids| - 1]) + caps[pids[|pids| - 1]]
  }

  /** In every reachable state the calls that hold a running lease fit the larger budget. */
  lemma HoldersFitBudget(l: Limits, s: State)
    requires Reachable(l, s)
    ensures |InLease(s)| <= |s.slots| <= LargerLimit(l)
  {
    ReachableInv(l, s);
    assert InLease(s) <= s.slots.Keys;
    SubsetSize(InLease(s), s.slots.Keys);
    assert |s.slots| == |s.slots.Keys|;
  }

  function LocalsOf(s: State, pids: seq<Pid>): set<CallId> {
    set c | c in s.calls && s.calls[c].phase.Local? && s.calls[c].pid in pids
  }

  lemma LocalsOfOneMore(s: State, pids: seq<Pid>, p: Pid)
    ensures LocalsOf(s, pids + [p]) == LocalsOf(s, pids) + LocalCalls(s, p)
  {}

  lemma {:induction false} LocalsFitCaps(l: Limits, s: State, pids: seq<Pid>)
    requires LocalBounded(l, s) && forall p <- pids :: p in s.caps
    ensures |LocalsOf(s, pids)| <= SumCaps(s.caps, pids) <= LargerLimit(l) * |pids|
  {
    if pids == [] {
      assert LocalsOf(s, pids) == {};
    } else {
      var n := |pids| - 1;
      var p := pids[n];
      assert p in pids && pids == pids[..n] + [p];
      LocalsFitCaps(l, s, pids[..n]);
      LocalsOfOneMore(s, pids[..n], p);
      assert s.caps[p] <= LargerLimit(l) && |LocalCalls(s, p)| <= s.caps[p];
      OneMore(LargerLimit(l), n);
    }
  }

  ghost predicate AllInLease(s: State) {
    forall c | c in s.calls && s.calls[c].phase.Holding? :: s.now < s.calls[c].phase.since + LEASE
  }

  lemma InFlightParts(s: State, pids: seq<Pid>)
    requires AllInLease(s) && forall c | c in s.calls && s.calls[c].phase.Local? :: s.calls[c].pid in pids
    ensures |InFlight(s)| <= |InLease(s)| + |LocalsOf(s, pids)|
  {
    assert InFlight(s) == InLease(s) + LocalsOf(s, pids);
  }

  /** When calls finish within their lease, everything in flight anywhere fits the shared budget plus
      the local semaphores of the processes that have one. */
  lemma InFlightFitsBudgets(l: Limits, s: State, pids: seq<Pid>)
    requires Reachable(l, s) && AllInLease(s) && Elements(pids) == s.caps.Keys
    ensures forall p <- pids :: p in s.caps
    ensures |InFlight(s)| <= LargerLimit(l) + SumCaps(s.caps, pids) <= LargerLimit(l) * (1 + |pids|)
  {
    ReachableInv(l, s);
    HoldersFitBudget(l, s);
    forall p | p in pids ensures p in s.caps { assert p in Elements(pids); }
    LocalsFitCaps(l, s, pids);
    forall c | c in s.calls && s.calls[c].phase.Local? ensures s.calls[c].pid in pids { assert s.calls[c].pid in Elements(pids); }
    InFlightParts(s, pids);
    assert LargerLimit(l) * (1 + |pids|) == LargerLimit(l) + LargerLimit(l) * |pids|;
  }

  /** A slot leaves the set in two ways only: its own holder releases it, or a script runs at or past the end
      of its lease.  No step renews it. */
  lemma SlotLeavesIff(l: Limits, s: State, step: Step, m: CallId)
    requires SlotsBelong(s) && Enabled(l, s, step) && m in s.slots
    ensures m !in Next(l, s, step).slots <==>
      (step.End? && step.c == m && step.released && s.calls[m].phase.Holding?)
      || ((step.Poll? || (step.LoseReply? && step.ran)) && step.stamp >= s.slots[m] + LEASE)
    ensures m in Next(l, s, step).slots ==> Next(l, s, step).slots[m] == s.slots[m]
  {}

  /** The call has had its slot: it never polls again. */
  ghost predicate Spent(s: State, m: CallId) {
    m in s.used && !(m in s.calls && s.calls[m].phase.Polling?)
  }

  lemma SpentStays(l: Limits, s: State, s': State, m: CallId)
    requires Inv(l, s) && Moves(l, s, s') && Spent(s, m)
    ensures Spent(s', m) && (m in s'.slots ==> m in s.slots && s'.slots[m] == s.slots[m])
  {
    var step :| Enabled(l, s, step) && Next(l, s, step) == s';
    if m in s.slots { SlotLeavesIff(l, s, step, m); }
  }

  /** Whatever happens, a slot keeps the stamp it was claimed with until it is gone for good. */
  lemma {:induction false} SlotsAreNeverRenewed(l: Limits, run: seq<State>, i: nat, j: nat, m: CallId)
    requires IsRun(l, run) && i <= j < |run| && m in run[i].slots
    ensures Spent(run[j], m) && (m in run[j].slots ==> run[j].slots[m] == run[i].slots[m])
  {
    RunKeepsInv(l, run, i);
    if i < j {
      SlotsAreNeverRenewed(l, run, i, j - 1, m);
      RunKeepsInv(l, run, j - 1);
      assert MovesAt(l, run, j - 1);
      SpentStays(l, run[j - 1], run[j], m);
    }
  }

  /** Orphans vanish: over any run, however its slot was left, a slot is gone after the first poll stamped at
      or past the end of its lease. */
  lemma OrphansVanish(l: Limits, run: seq<State>, i: nat, m: CallId, c: CallId, stamp: Time)
    requires IsRun(l, run) && i < |run| && m in run[i].slots
    requires Enabled(l, run[|run| - 1], Poll(c, stamp)) && stamp >= run[i].slots[m] + LEASE
    ensures m !in Next(l, run[|run| - 1], Poll(c, stamp)).slots
  {
    SlotsAreNeverRenewed(l, run, i, |run| - 1, m);
  }

  lemma GrantedIff(l: Limits, s: State, c: CallId, stamp: Time)
    requires SlotsBelong(s) && Enabled(l, s, Poll(c, stamp))
    ensures var s' := Next(l, s, Poll(c, stamp)); var live := Reclaimed(s.slots, stamp);
      && (s'.calls[c].phase == Holding(stamp) <==> |live| < s.calls[c].limit)
      && |s'.slots| == if |live| < s.calls[c].limit then |live| + 1 else |live|
  {
    assert c !in Reclaimed(s.slots, stamp);
  }

  /** The budget never leaks: whatever was lost or crashed, and whatever other calls do meanwhile, one lease
      later a poll is refused only by slots claimed since, as many as its limit. */
  lemma BudgetNeverLeaks(l: Limits, run: seq<State>, i: nat, c: CallId, stamp: Time)
    requires IsRun(l, run) && i < |run|
    requires Enabled(l, run[|run| - 1], Poll(c, stamp)) && stamp >= run[i].now + LEASE
    ensures var s := run[|run| - 1]; var live := Reclaimed(s.slots, stamp);
      && live.Keys !! run[i].slots.Keys
      && (Next(l, s, Poll(c, stamp)).calls[c].phase == Holding(stamp) <==> |live| < s.calls[c].limit)
  {
    var s := run[|run| - 1];
    RunKeepsInv(l, run, i);
    RunKeepsInv(l, run, |run| - 1);
    forall m | m in run[i].slots ensures m !in Reclaimed(s.slots, stamp) { SlotsAreNeverRenewed(l, run, i, |run| - 1, m); }
    GrantedIff(l, s, c, stamp);
  }

  // ----- the life of a call -----

  /** A call is over exactly when it finishes, is abandoned while it waits, or its process crashes. */
  lemma CallEndsIff(l: Limits, s: State, step: Step, c: CallId)
    requires Enabled(l, s, step) && c in s.calls
    ensures c !in Next(l, s, step).calls <==>
      ((step.End? || step.Abandon?) && step.c == c) || (step.Crash? && step.pid == s.calls[c].pid)
  {}

  /** A polling call falls back to its process's semaphore exactly when its reply is lost or it gives up; it gets its
      slot by a poll alone; and the local semaphore is entered from the wait alone. */
  lemma PhaseMovesIff(l: Limits, s: State, step: Step, c: CallId)
    requires SlotsBelong(s) && Enabled(l, s, step) && c in s.calls && c in Next(l, s, step).calls
    ensures var p, p' := s.calls[c].phase, Next(l, s, step).calls[c].phase;
      && (p.Polling? ==> (p'.LocalWait? <==> (step.LoseReply? || step.GiveUp?) && step.c == c) && !p'.Local?)
      && (p.Polling? && p'.Holding? ==> step == Poll(c, p'.since))
      && (p.LocalWait? ==> (p'.Local? <==> step.EnterLocal? && step.c == c) && !p'.Polling? && !p'.Holding?)
      && (p.Holding? || p.Local? ==> p' == p)
      && Next(l, s, step).calls[c].pid == s.calls[c].pid && Next(l, s, step).calls[c].limit == s.calls[c].limit
  {}

  /** A call begins under the limit of the hour: by night that of the night. */
  lemma BeginsUnderTheHour(l: Limits, s: State, c: CallId, pid: Pid, hour: int, redis: bool)
    requires Enabled(l, s, Begin(c, pid, hour, redis))
    ensures Next(l, s, Begin(c, pid, hour, redis)).calls[c] ==
      Call(pid, if 6 <= hour < 22 then l.day else l.night, if redis then Polling else LocalWait)
  {}

  /** A script that ran for a lost reply claims its slot all the same, and leaves it to nobody. */
  lemma LostReplyOrphans(l: Limits, s: State, c: CallId, stamp: Time, ran: bool)
    requires SlotsBelong(s) && Enabled(l, s, LoseReply(c, stamp, ran))
    ensures var s' := Next(l, s, LoseReply(c, stamp, ran));
      (c in s'.slots <==> ran && |Reclaimed(s.slots, stamp)| < s.calls[c].limit) && s'.calls[c].phase == LocalWait
  {
    assert c !in Reclaimed(s.slots, stamp);
  }

  /** A crash takes the process's calls and its semaphore, and leaves every slot. */
  lemma CrashLeavesSlots(l: Limits, s: State, pid: Pid)
    ensures var s' := Next(l, s, Crash(pid));
      s'.slots == s.slots && pid !in s'.caps && s'.calls == map c | c in s.calls && s.calls[c].pid != pid :: s.calls[c]
  {}

  // ----- the limit is read once -----

  /** A poll claims a slot above the limit of the hour exactly when that many slots live and the limit the
      call began with is higher: never for a call that began under this limit or a lower one. */
  lemma ClaimsAboveLimitIff(l: Limits, s: State, c: CallId, stamp: Time, hour: int)
    requires SlotsBelong(s) && Enabled(l, s, Poll(c, stamp))
    ensures var s' := Next(l, s, Poll(c, stamp));
      s'.calls[c].phase == Holding(stamp) && |s'.slots| > CurrentLimit(l, hour) <==>
        CurrentLimit(l, hour) <= |Reclaimed(s.slots, stamp)| < s.calls[c].limit
  {
    GrantedIff(l, s, c, stamp);
  }

  lemma EnteringAddsOne(l: Limits, s: State, c: CallId, hour: int)
    requires Enabled(l, s, EnterLocal(c, hour))
    ensures var pid := s.calls[c].pid; |LocalCalls(Next(l, s, EnterLocal(c, hour)), pid)| == |LocalCalls(s, pid)| + 1
  {
    var pid := s.calls[c].pid;
    assert LocalCalls(Next(l, s, EnterLocal(c, hour)), pid) == LocalCalls(s, pid) + {c};
  }

  /** A waiting call gets past the local semaphore and above the limit of the hour exactly when the process
      built its semaphore under a higher limit and has at least that many calls in it: never on first use. */
  lemma EntersAboveLimitIff(l: Limits, s: State, c: CallId, hour: int)
    requires c in s.calls && s.calls[c].phase.LocalWait?
    ensures var pid, step := s.calls[c].pid, EnterLocal(c, hour);
      Enabled(l, s, step) && |LocalCalls(Next(l, s, step), pid)| > CurrentLimit(l, hour) <==>
        pid in s.caps && CurrentLimit(l, hour) <= |LocalCalls(s, pid)| < s.caps[pid]
  {
    if Enabled(l, s, EnterLocal(c, hour)) { EnteringAddsOne(l, s, c, hour); }
  }

  /** The first call of a process without Redis, in the night. */
  lemma NightEntry(l: Limits, s: State, a: CallId, p: Pid) returns (s': State)
    requires Reachable(l, s) && a !in s.used && s.caps == map[] && s.calls == map[] && l == Limits(1, 2)
    ensures Reachable(l, s') && s'.used == s.used + {a} && s'.calls == map[a := Call(p, 2, Local)] && s'.caps == map[p := 2]
  {
    NextIsReachable(l, s, Begin(a, p, 5, false));
    var s1 := Next(l, s, Begin(a, p, 5, false));
    assert LocalCalls(s1, p) == {};
    NextIsReachable(l, s1, EnterLocal(a, 5));
    s' := Next(l, s1, EnterLocal(a, 5));
  }

  /** A process without Redis builds its semaphore at five in the night on a budget of two; after six it still
      lets two calls in, when the budget is one. */
  lemma LocalLimitOutlivesTheNight(t: Time) returns (s: State, c: CallId)
    ensures Reachable(Limits(1, 2), s) && Enabled(Limits(1, 2), s, EnterLocal(c, 6))
    ensures |LocalCalls(Next(Limits(1, 2), s, EnterLocal(c, 6)), s.calls[c].pid)| == 2 && CurrentLimit(Limits(1, 2), 6) == 1
  {
    var l, a, p := Limits(1, 2), CallId(1), Pid(0);
    c := CallId(2);
    StartIsReachable(l, t);
    var s1 := NightEntry(l, Start(t), a, p);
    NextIsReachable(l, s1, Begin(c, p, 6, false));
    s := Next(l, s1, Begin(c, p, 6, false));
    assert LocalCalls(s, p) == {a};
    EnteringAddsOne(l, s, c, 6);
  }

  lemma BeginBoth(l: Limits, s: State, a: CallId, b: CallId, p: Pid) returns (s': State)
    requires Reachable(l, s) && a !in s.used && b !in s.used && a != b
    ensures Reachable(l, s')
    ensures s' == s.(used := s.used + {a} + {b}, calls := s.calls[a := Call(p, l.night, Polling)][b := Call(p, l.night, Polling)])
  {
    NextIsReachable(l, s, Begin(a, p, 5, true));
    var s1 := Next(l, s, Begin(a, p, 5, true));
    NextIsReachable(l, s1, Begin(b, p, 5, true));
    s' := Next(l, s1, Begin(b, p, 5, true));
  }

  /** Two calls begin at five in the night on a budget of two; the second still gets its slot after six, when
      the budget is one. */
  lemma LimitOutlivesTheNight(t: Time) returns (s: State, c: CallId)
    ensures Reachable(Limits(1, 2), s) && Enabled(Limits(1, 2), s, Poll(c, s.now))
    ensures |Next(Limits(1, 2), s, Poll(c, s.now)).slots| == 2 && CurrentLimit(Limits(1, 2), 6) == 1
  {
    var l, a, p := Limits(1, 2), CallId(1), Pid(0);
    c := CallId(2);
    StartIsReachable(l, t);
    var s1 := BeginBoth(l, Start(t), a, c, p);
    NextIsReachable(l, s1, Poll(a, t));
    var s2 := Next(l, s1, Poll(a, t));
    assert Reclaimed(s1.slots, t) == map[];
    assert s2.slots == map[a := t];
    NextIsReachable(l, s2, Tick(1000));
    s := Next(l, s2, Tick(1000));
    assert Reclaimed(s.slots, s.now) == map[a := t];
  }

  /** The lease condition is needed: a call that outlives its lease still runs when its slot is given
      away, and two calls are in flight on a budget of one. */
  lemma OverrunExceedsBudget(t: Time) returns (s: State)
    ensures Reachable(Limits(1, 1), s) && !AllInLease(s) && s.caps == map[] && |InFlight(s)| == 2
  {
    var l, c, d, p := Limits(1, 1), CallId(1), CallId(2), Pid(0);
    StartIsReachable(l, t);
    var s2 := FirstHolder(l, Start(t), c, p);
    NextIsReachable(l, s2, Tick(LEASE));
    var s3 := Next(l, s2, Tick(LEASE));
    s := FirstHolder(l, s3, d, p);
    assert s.calls == map[c := Call(p, 1, Holding(t)), d := Call(p, 1, Holding(t + LEASE))];
    assert InFlight(s) == {c, d};
  }

  /** A fresh call takes a slot when every slot in the set is stale. */
  lemma FirstHolder(l: Limits, s: State, c: CallId, p: Pid) returns (s': State)
    requires Reachable(l, s) && l == Limits(1, 1) && c !in s.used
    requires forall m <- s.slots :: s.slots[m] <= s.now - LEASE
    ensures Reachable(l, s') && s' == s.(used := s.used + {c}, slots := map[c := s.now], calls := s.calls[c := Call(p, 1, Holding(s.now))])
  {
    NextIsReachable(l, s, Begin(c, p, 12, true));
    var s1 := Next(l, s, Begin(c, p, 12, true));
    assert Reclaimed(s1.slots, s.now) == map[];
    NextIsReachable(l, s1, Poll(c, s.now));
    s' := Next(l, s1, Poll(c, s.now));
  }
}
