/** `_crawl`: several workers share one queue under a lock.  A run is any interleaving of the steps the
  lock and the awaits allow: take (or poll in vain), push, hand a full batch to the sink, credit it,
  and leave on a FloodWait.

  `State` adds to the shared variables four histories no code reads: what was pushed, which of it was
  good, what reached the sink, and what a FloodWait dropped. */
module Crawler {
  import opened Collections
  import Runs

  datatype ChannelId = ChannelId(n: nat)

  /** A channel entity as `_enqueue` sees it: its id (0 for none) and whether it has a username. */
  datatype Entity = Entity(id: nat, named: bool)

  datatype Worker =
    | Idle(polls: nat)
    | Busy(channel: ChannelId)
    | Sinking(items: seq<ChannelId>)
    | Crediting(items: seq<ChannelId>)
    | Gone

  datatype Config = Config(maxChannels: int, hasSink: bool)

  datatype State = State(
    found: set<ChannelId>, queue: seq<ChannelId>, batch: seq<ChannelId>, processed: nat, done: nat, workers: seq<Worker>,
    pushed: seq<ChannelId>, good: seq<ChannelId>, sunk: seq<ChannelId>, dropped: seq<ChannelId>)

  const BATCH := 20
  const MAX_POLLS := 3

  // ----- the steps -----

  function Enqueue(found: set<ChannelId>, queue: seq<ChannelId>, e: Entity): (set<ChannelId>, seq<ChannelId>) {
    if e.id != 0 && ChannelId(e.id) !in found && e.named
    then (found + {ChannelId(e.id)}, queue + [ChannelId(e.id)]) else (found, queue)
  }

  function EnqueueAll(found: set<ChannelId>, queue: seq<ChannelId>, es: seq<Entity>): (set<ChannelId>, seq<ChannelId>) {
    if es == [] then (found, queue)
    else
      var (f, q) := EnqueueAll(found, queue, es[..|es| - 1]);
      Enqueue(f, q, es[|es| - 1])
  }

  datatype Step =
    | Take(w: nat)
    | Push(w: nat, good: bool, recs: seq<Entity>)
    | Deliver(w: nat)
    | Credit(w: nat)
    | Flood(w: nat)

  predicate Enabled(s: State, step: Step) {
    && step.w < |s.workers|
    && match step
       case Take(w) => s.workers[w].Idle?
       case Push(w, _, _) => s.workers[w].Busy?
       case Deliver(w) => s.workers[w].Sinking?
       case Credit(w) => s.workers[w].Crediting?
       case Flood(w) => s.workers[w].Busy?
  }

  function Next(c: Config, s: State, step: Step): State
    requires Enabled(s, step)
  {
    match step
    case Take(w) =>
      if s.processed >= c.maxChannels || s.queue == [] then
        var polls := s.workers[w].polls + 1;
        s.(workers := s.workers[w := if polls >= MAX_POLLS then Gone else Idle(polls)])
      else
        s.(workers := s.workers[w := Busy(s.queue[0])], queue := s.queue[1..])
    case Push(w, good, recs) =>
      var x := s.workers[w].channel;
      var batch := if good then s.batch + [x] else s.batch;
      var (found, queue) := EnqueueAll(s.found, s.queue, recs);
      var full := c.hasSink && |batch| >= BATCH;
      s.(processed := s.processed + 1, pushed := s.pushed + [x], good := if good then s.good + [x] else s.good,
         found := found, queue := queue,
         batch := if full then [] else batch,
         workers := s.workers[w := if full then Sinking(batch) else Idle(0)])
    case Deliver(w) =>
      s.(sunk := s.sunk + s.workers[w].items, workers := s.workers[w := Crediting(s.workers[w].items)])
    case Credit(w) =>
      s.(done := s.done + |s.workers[w].items|, workers := s.workers[w := Idle(0)])
    case Flood(w) =>
      s.(dropped := s.dropped + [s.workers[w].channel], workers := s.workers[w := Gone])
  }

  function Start(seeds: seq<Entity>, n: nat): State {
    var (found, queue) := EnqueueAll({}, [], seeds);
    State(found, queue, [], 0, 0, seq(n, _ => Idle(0)), [], [], [], [])
  }

  predicate AllGone(s: State) {
    forall w <- s.workers :: w.Gone?
  }

  /** After the workers: the rest of the batch goes to the sink and is credited. */
  function Finish(c: Config, s: State): State {
    if c.hasSink && s.batch != [] then s.(sunk := s.sunk + s.batch, done := s.done + |s.batch|, batch := []) else s
  }

  function Returned(c: Config, s: State): nat {
    if c.hasSink then s.done else s.processed
  }

  // ----- sums over the workers -----

  type Bag = multiset<ChannelId>

  function Sum(ws: seq<Worker>, f: Worker -> nat): nat {
    if ws == [] then 0 else Sum(ws[..|ws| - 1], f) + f(ws[|ws| - 1])
  }

  function Gather(ws: seq<Worker>, f: Worker -> Bag): Bag {
    if ws == [] then multiset{} else Gather(ws[..|ws| - 1], f) + f(ws[|ws| - 1])
  }

  lemma {:induction false} SumUpdate(ws: seq<Worker>, w: nat, x: Worker, f: Worker -> nat)
    requires w < |ws|
    ensures Sum(ws[w := x], f) + f(ws[w]) == Sum(ws, f) + f(x)
  {
    var n := |ws| - 1;
    if w == n {
      assert ws[w := x][..n] == ws[..n];
    } else {
      SumUpdate(ws[..n], w, x, f);
      assert ws[w := x][..n] == ws[..n][w := x];
    }
  }

  lemma {:induction false} GatherUpdate(ws: seq<Worker>, w: nat, x: Worker, f: Worker -> Bag)
    requires w < |ws|
    ensures Gather(ws[w := x], f) + f(ws[w]) == Gather(ws, f) + f(x)
  {
    var n := |ws| - 1;
    if w == n {
      assert ws[w := x][..n] == ws[..n];
    } else {
      GatherUpdate(ws[..n], w, x, f);
      assert ws[w := x][..n] == ws[..n][w := x];
      var g, g', last := Gather(ws[..n], f), Gather(ws[..n][w := x], f), f(ws[n]);
      assert g' + last + f(ws[w]) == (g' + f(ws[w])) + last == (g + f(x)) + last == g + last + f(x);
    }
  }

  lemma {:induction false} SumBound(ws: seq<Worker>, f: Worker -> nat, k: nat)
    requires forall w <- ws :: f(w) <= k
    ensures Sum(ws, f) <= k * |ws|
  {
    if ws != [] {
      var n := |ws| - 1;
      assert ws[n] in ws;
      forall w | w in ws[..n] ensures w in ws {}
      SumBound(ws[..n], f, k);
      OneMore(k, n);
    }
  }

  function InFlightOf(w: Worker): Bag { if w.Busy? then multiset{w.channel} else multiset{} }
  function PendingOf(w: Worker): Bag { if w.Sinking? then multiset(w.items) else multiset{} }
  function UncreditedOf(w: Worker): nat { if w.Crediting? then |w.items| else 0 }
  function BusyOf(w: Worker): nat { if w.Busy? then 1 else 0 }
  function LiveOf(w: Worker): nat { if w.Gone? then 0 else 1 }
  function PhaseOf(w: Worker): nat { if w.Busy? then 3 else if w.Sinking? then 2 else if w.Crediting? then 1 else 0 }
  function PollsOf(w: Worker): nat { if w.Idle? && w.polls <= MAX_POLLS then MAX_POLLS - w.polls else 0 }

  // ----- accounting -----

  /** Found is queued, in flight, pushed or dropped, and nothing is in two of these or twice in one. */
  ghost predicate EachIdOnce(s: State) {
    multiset(s.found) == multiset(s.queue) + Gather(s.workers, InFlightOf) + multiset(s.pushed) + multiset(s.dropped)
  }

  /** The pushes counted, and the limit overrun by at most the other workers. */
  ghost predicate WithinLimit(c: Config, s: State) {
    && s.processed == |s.pushed|
    && (s.processed + Sum(s.workers, BusyOf) == 0 || s.processed + Sum(s.workers, BusyOf) <= c.maxChannels + |s.workers| - 1)
  }

  /** Good rows are in the batch, on their way to the sink, or there; the credit trails the deliveries. */
  ghost predicate SinkBalanced(c: Config, s: State) {
    && multiset(s.good) <= multiset(s.pushed)
    && multiset(s.good) == multiset(s.sunk) + Gather(s.workers, PendingOf) + multiset(s.batch)
    && s.done + Sum(s.workers, UncreditedOf) == |s.sunk|
    && (c.hasSink ==> |s.batch| < BATCH)
    && (!c.hasSink ==> s.sunk == [])
    && forall w <- s.workers :: (w.Sinking? || w.Crediting? ==> c.hasSink) && (w.Idle? ==> w.polls < MAX_POLLS)
  }

  /** Nobody left in the lurch: once all workers are gone the work is finished, or a FloodWait took one. */
  ghost predicate DoneWhenGone(c: Config, s: State) {
    AllGone(s) && s.workers != [] ==> s.queue == [] || s.processed >= c.maxChannels || s.dropped != []
  }

  ghost predicate Inv(c: Config, s: State) {
    EachIdOnce(s) && WithinLimit(c, s) && SinkBalanced(c, s) && DoneWhenGone(c, s)
  }

  // ----- every step keeps the accounting -----

  lemma EnqueueBalances(found: set<ChannelId>, queue: seq<ChannelId>, e: Entity)
    ensures var (f, q) := Enqueue(found, queue, e); multiset(f) + multiset(queue) == multiset(found) + multiset(q)
  {
    var x := ChannelId(e.id);
    if x !in found {
      assert multiset(found + {x}) == multiset(found) + multiset{x};
      assert multiset(queue + [x]) == multiset(queue) + multiset{x};
    }
  }

  lemma {:induction false} EnqueueAllBalances(found: set<ChannelId>, queue: seq<ChannelId>, es: seq<Entity>)
    ensures var (f, q) := EnqueueAll(found, queue, es); multiset(f) + multiset(queue) == multiset(found) + multiset(q)
  {
    if es != [] {
      var n := |es| - 1;
      EnqueueAllBalances(found, queue, es[..n]);
      var (f, q) := EnqueueAll(found, queue, es[..n]);
      EnqueueBalances(f, q, es[n]);
      var (f', q') := EnqueueAll(found, queue, es);
      BagsCancel(multiset(f'), multiset(q), multiset(f), multiset(q'), multiset(queue), multiset(found));
    }
  }

  lemma BagsCancel(f': Bag, q: Bag, f: Bag, q': Bag, queue: Bag, found: Bag)
    requires f' + q == f + q' && f + queue == found + q
    ensures f' + queue == found + q'
  {
    forall x ensures (f' + queue)[x] == (found + q')[x] {
      assert (f' + q)[x] == (f + q')[x] && (f + queue)[x] == (found + q)[x];
    }
  }

  /** Bags that moved along: what left one part of a sum entered another. */
  lemma BagsMove(total: Bag, q: Bag, g: Bag, p: Bag, d: Bag, total': Bag, q': Bag, g': Bag, p': Bag, d': Bag, moved: Bag, gone: Bag)
    requires total == q + g + p + d && total' + q == total + q' + moved
    requires g' + gone == g + moved && p' + d' == p + d + gone
    ensures total' == q' + g' + p' + d'
  {
    forall x ensures total'[x] == (q' + g' + p' + d')[x] {
      assert total[x] == (q + g + p + d)[x] && (total' + q)[x] == (total + q' + moved)[x];
      assert (g' + gone)[x] == (g + moved)[x] && (p' + d')[x] == (p + d + gone)[x];
    }
  }

  lemma SeqBag(q: seq<ChannelId>, x: ChannelId, rest: Bag)
    ensures multiset(q + [x]) + rest == multiset(q) + rest + multiset{x}
    ensures rest + multiset(q + [x]) == rest + multiset(q) + multiset{x}
    ensures q != [] ==> rest + multiset(q) == rest + multiset(q[1..]) + multiset{q[0]}
  {
    assert q != [] ==> q == [q[0]] + q[1..];
  }

  lemma NothingMoves(a: Bag)
    ensures a + multiset{} == a
  {}

  /** What a step takes off the queue enters flight. */
  lemma StepMovesQueued(c: Config, s: State, step: Step)
    requires Enabled(s, step)
    ensures var s' := Next(c, s, step);
      multiset(s'.found) + multiset(s.queue) == multiset(s.found) + multiset(s'.queue) + InFlightOf(s'.workers[step.w])
  {
    var s' := Next(c, s, step);
    NothingMoves(multiset(s.found) + multiset(s'.queue));
    if step.Take? {
      SeqBag(s.queue, ChannelId(0), multiset(s.found));
    } else if step.Push? {
      EnqueueAllBalances(s.found, s.queue, step.recs);
    }
  }

  /** What leaves flight was pushed or dropped. */
  lemma StepMovesLanded(c: Config, s: State, step: Step)
    requires Enabled(s, step)
    ensures var s' := Next(c, s, step);
      multiset(s'.pushed) + multiset(s'.dropped) == multiset(s.pushed) + multiset(s.dropped) + InFlightOf(s.workers[step.w])
  {
    NothingMoves(multiset(s.pushed) + multiset(s.dropped));
    if step.Push? {
      SeqBag(s.pushed, s.workers[step.w].channel, multiset(s.dropped));
    } else if step.Flood? {
      SeqBag(s.dropped, s.workers[step.w].channel, multiset(s.pushed));
    }
  }

  lemma OnlyOneWorkerMoves(c: Config, s: State, step: Step)
    requires Enabled(s, step)
    ensures Next(c, s, step).workers == s.workers[step.w := Next(c, s, step).workers[step.w]]
  {}

  lemma StepKeepsEachIdOnce(c: Config, s: State, step: Step)
    requires EachIdOnce(s) && Enabled(s, step)
    ensures EachIdOnce(Next(c, s, step))
  {
    var s' := Next(c, s, step);
    OnlyOneWorkerMoves(c, s, step);
    GatherUpdate(s.workers, step.w, s'.workers[step.w], InFlightOf);
    StepMovesQueued(c, s, step);
    StepMovesLanded(c, s, step);
    BagsMove(multiset(s.found), multiset(s.queue), Gather(s.workers, InFlightOf), multiset(s.pushed), multiset(s.dropped),
             multiset(s'.found), multiset(s'.queue), Gather(s'.workers, InFlightOf), multiset(s'.pushed), multiset(s'.dropped),
             InFlightOf(s'.workers[step.w]), InFlightOf(s.workers[step.w]));
  }

  lemma StepKeepsWithinLimit(c: Config, s: State, step: Step)
    requires WithinLimit(c, s) && Enabled(s, step)
    ensures WithinLimit(c, Next(c, s, step))
  {
    var s' := Next(c, s, step);
    SumUpdate(s.workers, step.w, s'.workers[step.w], BusyOf);
    SumBound(s'.workers, BusyOf, 1);
  }

  lemma BagsDeliver(good: Bag, sunk: Bag, g: Bag, batch: Bag, good': Bag, sunk': Bag, g': Bag, batch': Bag, before: Bag, after: Bag)
    requires good == sunk + g + batch && g' + before == g + after
    requires good' + sunk + batch + before == good + sunk' + batch' + after
    ensures good' == sunk' + g' + batch'
  {
    forall x ensures good'[x] == (sunk' + g' + batch')[x] {
      assert good[x] == (sunk + g + batch)[x] && (g' + before)[x] == (g + after)[x];
      assert (good' + sunk + batch + before)[x] == (good + sunk' + batch' + after)[x];
    }
  }

  lemma PushMovesRow(good: seq<ChannelId>, sunk: Bag, batch: seq<ChannelId>, x: ChannelId)
    ensures multiset(good + [x]) + sunk + multiset(batch) + multiset{} == multiset(good) + sunk + multiset(batch + [x]) + multiset{}
    ensures multiset(good + [x]) + sunk + multiset(batch) + multiset{} == multiset(good) + sunk + multiset([]) + multiset(batch + [x])
    ensures multiset(good) + sunk + multiset(batch) + multiset{} == multiset(good) + sunk + multiset([]) + multiset(batch)
  {
    assert multiset(good + [x]) == multiset(good) + multiset{x} && multiset(batch + [x]) == multiset(batch) + multiset{x};
    var none: seq<ChannelId> := [];
    assert multiset(none) == multiset{};
  }

  lemma DeliverMovesRows(good: Bag, sunk: seq<ChannelId>, batch: Bag, items: seq<ChannelId>)
    ensures good + multiset(sunk) + batch + multiset(items) == good + multiset(sunk + items) + batch + multiset{}
  {
    assert multiset(sunk + items) == multiset(sunk) + multiset(items);
  }

  /** What moved between the parts of the row account, by worker w. */
  ghost predicate RowsMoved(s: State, s': State, w: nat)
    requires w < |s.workers| && w < |s'.workers|
  {
    multiset(s'.good) + multiset(s.sunk) + multiset(s.batch) + PendingOf(s.workers[w])
      == multiset(s.good) + multiset(s'.sunk) + multiset(s'.batch) + PendingOf(s'.workers[w])
  }

  lemma PushStepMovesRows(c: Config, s: State, step: Step)
    requires Enabled(s, step) && step.Push?
    ensures RowsMoved(s, Next(c, s, step), step.w)
  {
    PushMovesRow(s.good, multiset(s.sunk), s.batch, s.workers[step.w].channel);
  }

  lemma DeliverStepMovesRows(c: Config, s: State, step: Step)
    requires Enabled(s, step) && step.Deliver?
    ensures RowsMoved(s, Next(c, s, step), step.w)
  {
    DeliverMovesRows(multiset(s.good), s.sunk, multiset(s.batch), s.workers[step.w].items);
  }

  lemma StepMovesRows(c: Config, s: State, step: Step)
    requires Enabled(s, step)
    ensures RowsMoved(s, Next(c, s, step), step.w)
  {
    if step.Push? {
      PushStepMovesRows(c, s, step);
    } else if step.Deliver? {
      DeliverStepMovesRows(c, s, step);
    }
  }

  lemma StepKeepsGoodRows(c: Config, s: State, step: Step)
    requires SinkBalanced(c, s) && Enabled(s, step)
    ensures var s' := Next(c, s, step);
      multiset(s'.good) == multiset(s'.sunk) + Gather(s'.workers, PendingOf) + multiset(s'.batch)
  {
    var s' := Next(c, s, step);
    OnlyOneWorkerMoves(c, s, step);
    GatherUpdate(s.workers, step.w, s'.workers[step.w], PendingOf);
    StepMovesRows(c, s, step);
    BagsDeliver(multiset(s.good), multiset(s.sunk), Gather(s.workers, PendingOf), multiset(s.batch),
                multiset(s'.good), multiset(s'.sunk), Gather(s'.workers, PendingOf), multiset(s'.batch),
                PendingOf(s.workers[step.w]), PendingOf(s'.workers[step.w]));
  }

  lemma StepKeepsGoodPushed(c: Config, s: State, step: Step)
    requires multiset(s.good) <= multiset(s.pushed) && Enabled(s, step)
    ensures multiset(Next(c, s, step).good) <= multiset(Next(c, s, step).pushed)
  {
    if step.Push? {
      SeqBag(s.good, s.workers[step.w].channel, multiset{});
      SeqBag(s.pushed, s.workers[step.w].channel, multiset{});
    }
  }

  lemma StepKeepsSinkBalanced(c: Config, s: State, step: Step)
    requires SinkBalanced(c, s) && Enabled(s, step)
    ensures SinkBalanced(c, Next(c, s, step))
  {
    StepKeepsGoodRows(c, s, step);
    StepKeepsGoodPushed(c, s, step);
    StepKeepsCredit(c, s, step);
    StepKeepsWorkers(c, s, step);
  }

  /** The credit trails the deliveries by what is between the two, and a full batch never waits. */
  lemma StepKeepsCredit(c: Config, s: State, step: Step)
    requires Enabled(s, step) && s.done + Sum(s.workers, UncreditedOf) == |s.sunk|
    requires (c.hasSink ==> |s.batch| < BATCH) && (!c.hasSink ==> s.sunk == [])
    requires s.workers[step.w].Sinking? ==> c.hasSink
    ensures var s' := Next(c, s, step);
      && s'.done + Sum(s'.workers, UncreditedOf) == |s'.sunk|
      && (c.hasSink ==> |s'.batch| < BATCH) && (!c.hasSink ==> s'.sunk == [])
  {
    OnlyOneWorkerMoves(c, s, step);
    SumUpdate(s.workers, step.w, Next(c, s, step).workers[step.w], UncreditedOf);
  }

  lemma StepKeepsWorkers(c: Config, s: State, step: Step)
    requires Enabled(s, step)
    requires forall w <- s.workers :: (w.Sinking? || w.Crediting? ==> c.hasSink) && (w.Idle? ==> w.polls < MAX_POLLS)
    ensures forall w <- Next(c, s, step).workers :: (w.Sinking? || w.Crediting? ==> c.hasSink) && (w.Idle? ==> w.polls < MAX_POLLS)
  {
    var s' := Next(c, s, step);
    assert s.workers[step.w] in s.workers;
    forall w | w in s'.workers
      ensures (w.Sinking? || w.Crediting? ==> c.hasSink) && (w.Idle? ==> w.polls < MAX_POLLS)
    {
      assert w in s.workers || w == s'.workers[step.w];
    }
  }

  /** A worker that leaves idle leaves a finished queue, and no one enqueues after the last has gone. */
  lemma StepKeepsDoneWhenGone(c: Config, s: State, step: Step)
    requires DoneWhenGone(c, s) && Enabled(s, step)
    ensures DoneWhenGone(c, Next(c, s, step))
  {
    var s' := Next(c, s, step);
    assert s'.workers[step.w] in s'.workers;
  }

  lemma StepKeepsInv(c: Config, s: State, step: Step)
    requires Inv(c, s) && Enabled(s, step)
    ensures Inv(c, Next(c, s, step))
  {
    StepKeepsEachIdOnce(c, s, step);
    StepKeepsWithinLimit(c, s, step);
    StepKeepsSinkBalanced(c, s, step);
    StepKeepsDoneWhenGone(c, s, step);
  }

  lemma {:induction false} NoWork(n: nat)
    ensures Sum(seq(n, _ => Idle(0)), BusyOf) == 0 && Sum(seq(n, _ => Idle(0)), UncreditedOf) == 0
    ensures Gather(seq(n, _ => Idle(0)), InFlightOf) == multiset{} && Gather(seq(n, _ => Idle(0)), PendingOf) == multiset{}
  {
    if n > 0 {
      NoWork(n - 1);
      var ws: seq<Worker> := seq(n, _ => Idle(0));
      assert ws[..n - 1] == seq(n - 1, _ => Idle(0)) && ws[n - 1] == Idle(0);
    }
  }

  /** The sink gets twenty rows at a time, but for the last. */
  lemma BatchIsTwenty(c: Config, s: State, step: Step)
    requires SinkBalanced(c, s) && Enabled(s, step) && step.Push? && Next(c, s, step).workers[step.w].Sinking?
    ensures |Next(c, s, step).workers[step.w].items| == 20 && Next(c, s, step).batch == []
  {}

  /** A worker leaves after the third poll in vain, and by a FloodWait, and not otherwise. */
  lemma LeavesIff(c: Config, s: State, step: Step)
    requires Enabled(s, step)
    ensures Next(c, s, step).workers[step.w].Gone? <==>
      step.Flood? || (step.Take? && (s.processed >= c.maxChannels || s.queue == []) && s.workers[step.w].polls >= 2)
  {}

  lemma StartInv(c: Config, seeds: seq<Entity>, n: nat)
    requires n >= 1
    ensures Inv(c, Start(seeds, n))
  {
    var s := Start(seeds, n);
    EnqueueAllBalances({}, [], seeds);
    NoWork(n);
    assert s.workers[0] in s.workers;
    assert multiset(s.found) == multiset(s.found) + multiset([]) == multiset{} + multiset(s.queue);
    assert multiset(s.pushed) == multiset{} == multiset(s.dropped);
  }

  // ----- every interleaving ends -----

  /** The most takes a run can still make without losing a worker. */
  function Cap(c: Config, n: nat): nat {
    (if c.maxChannels > 0 then c.maxChannels else 0) + n
  }

  function Budget(c: Config, s: State): nat {
    var left := Cap(c, |s.workers|) - s.processed - Sum(s.workers, BusyOf);
    if left > 0 then left else 0
  }

  /** A number with one more digit, of at most k. */
  function Digit(x: nat, y: nat, k: nat): nat { x * (k + 1) + y }

  /** Live workers, take budget, work in flight, idle polls: in that order, as one number. */
  function Mixed(live: nat, budget: nat, phase: nat, polls: nat, cap: nat, k: nat): nat {
    Digit(Digit(Digit(live, budget, cap), phase, k), polls, k)
  }

  function Measure(c: Config, s: State): nat {
    Mixed(Sum(s.workers, LiveOf), Budget(c, s), Sum(s.workers, PhaseOf), Sum(s.workers, PollsOf), Cap(c, |s.workers|), 3 * |s.workers|)
  }

  lemma DigitDrops(x: nat, y: nat, x': nat, y': nat, k: nat)
    requires y' <= k && (x' < x || (x' == x && y' < y))
    ensures Digit(x', y', k) < Digit(x, y, k)
  {
    if x' < x {
      assert (x' + 1) * (k + 1) <= x * (k + 1);
      assert (x' + 1) * (k + 1) == x' * (k + 1) + k + 1;
    }
  }

  lemma TwoDigitsDrop(x: nat, p: nat, i: nat, x': nat, p': nat, i': nat, k: nat)
    requires p' <= k && i' <= k && (x' < x || (x' == x && (p' < p || (p' == p && i' < i))))
    ensures Digit(Digit(x', p', k), i', k) < Digit(Digit(x, p, k), i, k)
  {
    if x' < x || p' < p { DigitDrops(x, p, x', p', k); }
    DigitDrops(Digit(x, p, k), i, Digit(x', p', k), i', k);
  }

  lemma MixedDrops(l: nat, b: nat, p: nat, i: nat, l': nat, b': nat, p': nat, i': nat, cap: nat, k: nat)
    requires b' <= cap && p' <= k && i' <= k
    requires l' < l || (l' == l && (b' < b || (b' == b && (p' < p || (p' == p && i' < i)))))
    ensures Mixed(l', b', p', i', cap, k) < Mixed(l, b, p, i, cap, k)
  {
    if l' < l || b' < b { DigitDrops(l, b, l', b', cap); }
    TwoDigitsDrop(Digit(l, b, cap), p, i, Digit(l', b', cap), p', i', k);
  }

  lemma SumsBounded(ws: seq<Worker>)
    ensures Sum(ws, LiveOf) <= |ws| && Sum(ws, PhaseOf) <= 3 * |ws| && Sum(ws, PollsOf) <= 3 * |ws|
  {
    SumBound(ws, LiveOf, 1);
    SumBound(ws, PhaseOf, 3);
    SumBound(ws, PollsOf, 3);
  }

  /** How a step changes the four parts of the measure. */
  lemma StepChangesParts(c: Config, s: State, step: Step)
    requires WithinLimit(c, s) && Enabled(s, step)
    requires s.workers[step.w].Idle? ==> s.workers[step.w].polls < MAX_POLLS
    ensures var s' := Next(c, s, step);
      var l, b, p, i := Sum(s.workers, LiveOf), Budget(c, s), Sum(s.workers, PhaseOf), Sum(s.workers, PollsOf);
      var l', b', p', i' := Sum(s'.workers, LiveOf), Budget(c, s'), Sum(s'.workers, PhaseOf), Sum(s'.workers, PollsOf);
      l' < l || (l' == l && (b' < b || (b' == b && (p' < p || (p' == p && i' < i)))))
  {
    var s' := Next(c, s, step);
    OnlyOneWorkerMoves(c, s, step);
    var w' := s'.workers[step.w];
    SumUpdate(s.workers, step.w, w', LiveOf);
    SumUpdate(s.workers, step.w, w', BusyOf);
    SumUpdate(s.workers, step.w, w', PhaseOf);
    SumUpdate(s.workers, step.w, w', PollsOf);
    StepKeepsWithinLimit(c, s, step);
  }

  /** Every step, whichever worker makes it and whatever the graph answers, lowers the measure. */
  lemma StepLowersMeasure(c: Config, s: State, step: Step)
    requires WithinLimit(c, s) && SinkBalanced(c, s) && Enabled(s, step)
    ensures Measure(c, Next(c, s, step)) < Measure(c, s)
  {
    var s' := Next(c, s, step);
    OnlyOneWorkerMoves(c, s, step);
    assert s.workers[step.w] in s.workers;
    StepChangesParts(c, s, step);
    SumsBounded(s'.workers);
    MixedDrops(Sum(s.workers, LiveOf), Budget(c, s), Sum(s.workers, PhaseOf), Sum(s.workers, PollsOf),
               Sum(s'.workers, LiveOf), Budget(c, s'), Sum(s'.workers, PhaseOf), Sum(s'.workers, PollsOf),
               Cap(c, |s.workers|), 3 * |s.workers|);
  }

  // ----- whole runs -----

  ghost predicate Steps(c: Config, s: State, s': State) {
    exists step :: Enabled(s, step) && Next(c, s, step) == s'
  }

  ghost predicate StepAt(c: Config, run: seq<State>, i: nat)
    requires i + 1 < |run|
  {
    Steps(c, run[i], run[i + 1])
  }

  ghost predicate IsRun(c: Config, run: seq<State>) {
    run != [] && forall i | 0 <= i < |run| - 1 :: StepAt(c, run, i)
  }

  /** Nothing can move any more. */
  ghost predicate Stuck(s: State) {
    forall step :: !Enabled(s, step)
  }

  /** A run can go on until the last worker has left, and no longer. */
  lemma StuckMeansAllGone(s: State)
    ensures Stuck(s) <==> AllGone(s)
  {
    if Stuck(s) {
      forall w | w in s.workers
        ensures w.Gone?
      {
        var i :| 0 <= i < |s.workers| && s.workers[i] == w;
        assert !Enabled(s, Take(i)) && !Enabled(s, Push(i, true, [])) && !Enabled(s, Deliver(i)) && !Enabled(s, Credit(i));
      }
    }
    forall step | Enabled(s, step)
      ensures !AllGone(s)
    {
      assert s.workers[step.w] in s.workers;
    }
  }

  lemma StepsKeepInv(c: Config, s: State, s': State)
    requires Steps(c, s, s') && Inv(c, s)
    ensures Inv(c, s')
  {
    var step :| Enabled(s, step) && Next(c, s, step) == s';
    StepKeepsInv(c, s, step);
  }

  lemma StepsLowerMeasure(c: Config, s: State, s': State)
    requires Steps(c, s, s') && Inv(c, s)
    ensures Measure(c, s') < Measure(c, s)
  {
    var step :| Enabled(s, step) && Next(c, s, step) == s';
    StepLowersMeasure(c, s, step);
  }

  lemma RunKeepsInv(c: Config, run: seq<State>, i: nat)
    requires IsRun(c, run) && Inv(c, run[0]) && i < |run|
    ensures Inv(c, run[i])
  {
    var inv := (s: State) => Inv(c, s);
    forall j | 0 <= j < |run| - 1 ensures Runs.KeptAt(run, inv, j) {
      assert StepAt(c, run, j);
      if Inv(c, run[j]) { StepsKeepInv(c, run[j], run[j + 1]); }
    }
    Runs.Always(run, inv, i);
  }

  ghost predicate SizeAt(c: Config, run: seq<State>, sizes: seq<nat>, i: nat)
    requires i < |run| == |sizes|
  {
    sizes[i] == Measure(c, run[i])
  }

  lemma {:induction false} SizesOf(c: Config, run: seq<State>) returns (sizes: seq<nat>)
    ensures |sizes| == |run| && forall i | 0 <= i < |run| :: SizeAt(c, run, sizes, i)
  {
    sizes := seq(|run|, i requires 0 <= i < |run| => Measure(c, run[i]));
  }

  lemma SizeFalls(c: Config, run: seq<State>, sizes: seq<nat>, i: nat)
    requires IsRun(c, run) && i + 1 < |run| == |sizes| && Inv(c, run[i])
    requires SizeAt(c, run, sizes, i) && SizeAt(c, run, sizes, i + 1)
    ensures Runs.FallsAt(sizes, i)
  {
    assert StepAt(c, run, i);
    StepsLowerMeasure(c, run[i], run[i + 1]);
  }

  /** Every run is finite: it has no more steps than the measure of its first state. */
  lemma RunIsBounded(c: Config, run: seq<State>)
    requires IsRun(c, run) && Inv(c, run[0])
    ensures |run| - 1 <= Measure(c, run[0])
  {
    var sizes := SizesOf(c, run);
    forall j | 0 <= j < |run| - 1 ensures Runs.FallsAt(sizes, j) {
      RunKeepsInv(c, run, j);
      SizeFalls(c, run, sizes, j);
    }
    Runs.Bounded(sizes, |run| - 1);
    assert SizeAt(c, run, sizes, 0);
  }

  lemma {:induction false} WorkersStay(c: Config, run: seq<State>, i: nat)
    requires IsRun(c, run) && i < |run|
    ensures |run[i].workers| == |run[0].workers|
  {
    if i > 0 {
      WorkersStay(c, run, i - 1);
      assert StepAt(c, run, i - 1);
    }
  }

  lemma {:induction false} BagSizes(ws: seq<Worker>)
    requires forall w <- ws :: w.Gone?
    ensures Gather(ws, InFlightOf) == multiset{} && Gather(ws, PendingOf) == multiset{} && Sum(ws, UncreditedOf) == 0
  {
    if ws != [] {
      var n := |ws| - 1;
      assert ws[n] in ws;
      forall w | w in ws[..n] ensures w in ws {}
      BagSizes(ws[..n]);
    }
  }

  /** No id is ever handed out twice: the ids in flight, pushed and dropped are pairwise different. */
  lemma NothingTwice(s: State, x: ChannelId)
    requires EachIdOnce(s)
    ensures multiset(s.queue)[x] + Gather(s.workers, InFlightOf)[x] + multiset(s.pushed)[x] + multiset(s.dropped)[x] == if x in s.found then 1 else 0
  {
    assert multiset(s.found)[x] == (multiset(s.queue) + Gather(s.workers, InFlightOf) + multiset(s.pushed) + multiset(s.dropped))[x];
  }

  /** Every crawl ends, whatever the graph and the interleaving, within a number of steps fixed by the
      limit and the pool. */
  lemma CrawlEnds(c: Config, seeds: seq<Entity>, n: nat, run: seq<State>)
    requires n >= 1 && IsRun(c, run) && run[0] == Start(seeds, n)
    ensures |run| - 1 <= Mixed(n, Cap(c, n), 0, 3 * n, Cap(c, n), 3 * n)
  {
    StartInv(c, seeds, n);
    RunIsBounded(c, run);
    StartMeasure(c, seeds, n);
  }

  /** Every worker has left; each found id was pushed, dropped or never taken, once; every good row reached
      the sink exactly once and the returned count says how many; and unless a FloodWait took a worker, the
      queue is empty or the limit is reached. */
  ghost predicate AccountedFor(c: Config, s: State, n: nat) {
    && AllGone(s)
    && multiset(s.found) == multiset(s.queue) + multiset(s.pushed) + multiset(s.dropped)
    && (s.processed == 0 || s.processed <= c.maxChannels + n - 1)
    && (s.dropped == [] ==> s.queue == [] || s.processed >= c.maxChannels)
    && var f := Finish(c, s);
       if c.hasSink then multiset(f.sunk) == multiset(s.good) && Returned(c, f) == |s.good| else f.sunk == [] && Returned(c, f) == |s.pushed|
  }

  lemma GoneMeansAccountedFor(c: Config, s: State)
    requires Inv(c, s) && AllGone(s) && s.workers != []
    ensures AccountedFor(c, s, |s.workers|)
  {
    BagSizes(s.workers);
    FinishDelivers(c, s);
  }

  /** Every crawl that can go no further has accounted for everything. */
  lemma CrawlIsAccountedFor(c: Config, seeds: seq<Entity>, n: nat, run: seq<State>)
    requires n >= 1 && IsRun(c, run) && run[0] == Start(seeds, n) && Stuck(run[|run| - 1])
    ensures AccountedFor(c, run[|run| - 1], n)
  {
    StartInv(c, seeds, n);
    RunKeepsInv(c, run, |run| - 1);
    StuckMeansAllGone(run[|run| - 1]);
    WorkersStay(c, run, |run| - 1);
    GoneMeansAccountedFor(c, run[|run| - 1]);
  }

  ghost predicate FloodAt(c: Config, s: State, s': State) {
    exists w :: Enabled(s, Flood(w)) && Next(c, s, Flood(w)) == s'
  }

  /** The step that takes the last worker is an idle exit, on a finished queue, or a FloodWait. */
  lemma LastToLeave(c: Config, s: State, s': State)
    requires Steps(c, s, s') && AllGone(s')
    ensures s'.queue == [] || s'.processed >= c.maxChannels || FloodAt(c, s, s')
  {
    var step :| Enabled(s, step) && Next(c, s, step) == s';
    assert s'.workers[step.w] in s'.workers;
  }

  lemma SomeoneStarts(seeds: seq<Entity>, n: nat)
    requires n >= 1
    ensures !AllGone(Start(seeds, n))
  {
    assert Start(seeds, n).workers[0] in Start(seeds, n).workers;
  }

  /** Work is left behind only when the very last step was a FloodWait: one that another worker outlives
      strands nothing. */
  lemma StrandedOnlyByALastFlood(c: Config, seeds: seq<Entity>, n: nat, run: seq<State>)
    requires n >= 1 && IsRun(c, run) && run[0] == Start(seeds, n) && Stuck(run[|run| - 1])
    ensures var s := run[|run| - 1];
      s.queue == [] || s.processed >= c.maxChannels || (|run| >= 2 && FloodAt(c, run[|run| - 2], s))
  {
    var s := run[|run| - 1];
    StuckMeansAllGone(s);
    SomeoneStarts(seeds, n);
    if |run| >= 2 {
      assert StepAt(c, run, |run| - 2);
      LastToLeave(c, run[|run| - 2], s);
    }
  }

  lemma {:induction false} AllIdle(n: nat)
    ensures var ws := seq(n, _ => Idle(0)); Sum(ws, LiveOf) == n && Sum(ws, PhaseOf) == 0 && Sum(ws, PollsOf) == 3 * n
  {
    if n > 0 {
      AllIdle(n - 1);
      var ws: seq<Worker> := seq(n, _ => Idle(0));
      assert ws[..n - 1] == seq(n - 1, _ => Idle(0)) && ws[n - 1] == Idle(0);
    }
  }

  lemma StartMeasure(c: Config, seeds: seq<Entity>, n: nat)
    ensures Measure(c, Start(seeds, n)) == Mixed(n, Cap(c, n), 0, 3 * n, Cap(c, n), 3 * n)
  {
    AllIdle(n);
    NoWork(n);
  }

  lemma FinishDelivers(c: Config, s: State)
    requires SinkBalanced(c, s) && WithinLimit(c, s) && Gather(s.workers, PendingOf) == multiset{} && Sum(s.workers, UncreditedOf) == 0
    ensures var f := Finish(c, s);
      if c.hasSink then multiset(f.sunk) == multiset(s.good) && Returned(c, f) == |s.good| else f.sunk == [] && Returned(c, f) == |s.pushed|
  {
    if c.hasSink {
      assert multiset(s.sunk + s.batch) == multiset(s.sunk) + multiset(s.batch);
      assert |multiset(s.good)| == |multiset(s.sunk)| + |multiset(s.batch)|;
      assert |multiset(s.good)| == |s.good| && |multiset(s.sunk)| == |s.sunk| && |multiset(s.batch)| == |s.batch|;
    }
  }

  ghost predicate Reaches(c: Config, s: State, s': State) {
    exists run: seq<State> :: IsRun(c, run) && run[0] == s && run[|run| - 1] == s'
  }

  /** The exception is real: one FloodWait in a pool of one strands the queue below the limit. */
  lemma FloodCanStrandTheQueue(c: Config, a: Entity, b: Entity)
    requires c.maxChannels >= 1 && a.named && b.named && a.id != 0 && b.id != 0 && a.id != b.id
    ensures exists s :: Reaches(c, Start([a, b], 1), s) && AllGone(s) && s.queue != [] && s.processed < c.maxChannels
  {
    var s0 := Start([a, b], 1);
    assert [a, b][..1] == [a] && [a][..0] == [];
    assert EnqueueAll({}, [], []) == ({}, []);
    assert EnqueueAll({}, [], [a]) == ({} + {ChannelId(a.id)}, [] + [ChannelId(a.id)]);
    assert s0.queue == [ChannelId(a.id), ChannelId(b.id)];
    var s1 := Next(c, s0, Take(0));
    var s2 := Next(c, s1, Flood(0));
    var run := [s0, s1, s2];
    assert Steps(c, s0, s1) && Steps(c, s1, s2);
    assert StepAt(c, run, 0) && StepAt(c, run, 1);
    assert IsRun(c, run) && run[|run| - 1] == s2;
    assert s2.workers == [Gone] && Reaches(c, s0, s2);
  }

  // ----- the shared object -----

  /** The closure variables of `_crawl`, updated in place. */
  class Crawl {
    const config: Config
    var found: set<ChannelId>
    var queue: seq<ChannelId>
    var batch: seq<ChannelId>
    var processed: nat
    var done: nat
    var workers: seq<Worker>
    ghost var pushed: seq<ChannelId>
    ghost var good: seq<ChannelId>
    ghost var sunk: seq<ChannelId>
    ghost var dropped: seq<ChannelId>

    ghost function Now(): State
      reads this
    {
      State(found, queue, batch, processed, done, workers, pushed, good, sunk, dropped)
    }

    constructor (config: Config, n: nat)
      ensures this.config == config && Now() == Start([], n)
    {
      this.config := config;
      found, queue, batch, processed, done := {}, [], [], 0, 0;
      workers := seq(n, _ => Idle(0));
      pushed, good, sunk, dropped := [], [], [], [];
    }

    method EnqueueOne(e: Entity)
      modifies this`found, this`queue
      ensures (found, queue) == Enqueue(old(found), old(queue), e)
    {
      if e.id != 0 && ChannelId(e.id) !in found && e.named {
        found := found + {ChannelId(e.id)};
        queue := queue + [ChannelId(e.id)];
      }
    }

    method EnqueueEach(es: seq<Entity>)
      modifies this`found, this`queue
      ensures (found, queue) == EnqueueAll(old(found), old(queue), es)
    {
      for i := 0 to |es|
        invariant (found, queue) == EnqueueAll(old(found), old(queue), es[..i])
      {
        assert es[..i + 1][..i] == es[..i];
        EnqueueOne(es[i]);
      }
      assert es[..|es|] == es;
    }

    method TakeStep(w: nat)
      requires Enabled(Now(), Take(w))
      modifies this`queue, this`workers
      ensures Now() == Next(config, old(Now()), Take(w))
    {
      if processed >= config.maxChannels || queue == [] {
        var polls := workers[w].polls + 1;
        workers := workers[w := if polls >= MAX_POLLS then Gone else Idle(polls)];
      } else {
        workers := workers[w := Busy(queue[0])];
        queue := queue[1..];
      }
    }

    method PushStep(w: nat, isGood: bool, recs: seq<Entity>)
      requires Enabled(Now(), Push(w, isGood, recs))
      modifies this
      ensures Now() == Next(config, old(Now()), Push(w, isGood, recs))
    {
      var x := workers[w].channel;
      processed := processed + 1;
      pushed := pushed + [x];
      if isGood {
        batch := batch + [x];
        good := good + [x];
      }
      EnqueueEach(recs);
      if config.hasSink && |batch| >= BATCH {
        workers := workers[w := Sinking(batch)];
        batch := [];
      } else {
        workers := workers[w := Idle(0)];
      }
    }

    method DeliverStep(w: nat)
      requires Enabled(Now(), Deliver(w))
      modifies this`workers, this`sunk
      ensures Now() == Next(config, old(Now()), Deliver(w))
    {
      sunk := sunk + workers[w].items;
      workers := workers[w := Crediting(workers[w].items)];
    }

    method CreditStep(w: nat)
      requires Enabled(Now(), Credit(w))
      modifies this`workers, this`done
      ensures Now() == Next(config, old(Now()), Credit(w))
    {
      done := done + |workers[w].items|;
      workers := workers[w := Idle(0)];
    }

    method FloodStep(w: nat)
      requires Enabled(Now(), Flood(w))
      modifies this`workers, this`dropped
      ensures Now() == Next(config, old(Now()), Flood(w))
    {
      dropped := dropped + [workers[w].channel];
      workers := workers[w := Gone];
    }

    method FinishStep() returns (result: nat)
      modifies this
      ensures Now() == Finish(config, old(Now())) && result == Returned(config, Now())
    {
      if config.hasSink && batch != [] {
        sunk := sunk + batch;
        done := done + |batch|;
        batch := [];
      }
      result := if config.hasSink then done else processed;
    }
  }
}
