/** The order of a crawl: channels are taken as they were found, first in, first out. */
module CrawlOrder {
  import opened Crawler

  // ----- one step -----

  /** A worker that was idle is busy now: the channel it took. */
  ghost predicate TakesAt(s: State, s': State, w: nat) {
    w < |s.workers| && w < |s'.workers| && s.workers[w].Idle? && s'.workers[w].Busy?
  }

  ghost function Took(s: State, s': State): seq<ChannelId> {
    if exists w: nat :: TakesAt(s, s', w) then var w: nat :| TakesAt(s, s', w); [s'.workers[w].channel] else []
  }

  /** The ids stand for entities of the list, at these places, each with an id and a username. */
  ghost predicate Picks(es: seq<Entity>, ids: seq<ChannelId>, at: seq<nat>) {
    && |at| == |ids| && (forall a, b | 0 <= a < b < |at| :: at[a] < at[b])
    && forall a | 0 <= a < |at| :: at[a] < |es| && es[at[a]].named && es[at[a]].id != 0 && ids[a] == ChannelId(es[at[a]].id)
  }

  /** What is found goes to the end of the queue, in the order given. */
  lemma {:induction false} EnqueueAppends(found: set<ChannelId>, queue: seq<ChannelId>, es: seq<Entity>) returns (added: seq<ChannelId>, at: seq<nat>)
    ensures EnqueueAll(found, queue, es).1 == queue + added && Picks(es, added, at)
    ensures found <= EnqueueAll(found, queue, es).0
    ensures forall x <- added :: x !in found && x in EnqueueAll(found, queue, es).0
  {
    if es == [] {
      added, at := [], [];
    } else {
      var n := |es| - 1;
      added, at := EnqueueAppends(found, queue, es[..n]);
      var (f, q) := EnqueueAll(found, queue, es[..n]);
      var x := ChannelId(es[n].id);
      if es[n].id != 0 && x !in f && es[n].named {
        assert queue + added + [x] == queue + (added + [x]);
        added, at := added + [x], at + [n];
      }
    }
  }

  /** A step takes from the front of the queue and adds at its end. */
  ghost predicate Moves(s: State, s': State, added: seq<ChannelId>) {
    && s.queue + added == Took(s, s') + s'.queue && s.found <= s'.found
    && forall x <- added :: x !in s.found && x in s'.found
  }

  lemma OnlyTakesTake(c: Config, s: State, step: Step)
    requires Enabled(s, step)
    ensures var s' := Next(c, s, step);
      Took(s, s') == if step.Take? && s'.workers[step.w].Busy? then [s'.workers[step.w].channel] else []
  {
    var s' := Next(c, s, step);
    OnlyOneWorkerMoves(c, s, step);
    forall w: nat | TakesAt(s, s', w) ensures w == step.w && step.Take? {}
    if step.Take? && s'.workers[step.w].Busy? {
      assert TakesAt(s, s', step.w);
      assert Took(s, s') == [s'.workers[step.w].channel];
    }
  }

  lemma StepMovesQueue(c: Config, s: State, step: Step) returns (added: seq<ChannelId>)
    requires Enabled(s, step)
    ensures Moves(s, Next(c, s, step), added)
  {
    added := [];
    OnlyTakesTake(c, s, step);
    if step.Push? {
      var at;
      added, at := EnqueueAppends(s.found, s.queue, step.recs);
    } else if step.Take? && s.queue != [] {
      assert s.queue == [s.queue[0]] + s.queue[1..];
    }
  }

  // ----- whole runs -----

  /** The channels taken between two moments of a run, in the order they were taken. */
  ghost function Taken(run: seq<State>, i: nat, j: nat): seq<ChannelId>
    requires i <= j < |run|
  {
    if i == j then [] else Taken(run, i, j - 1) + Took(run[j - 1], run[j])
  }

  lemma Chain(q: seq<ChannelId>, a: seq<ChannelId>, t: seq<ChannelId>, q': seq<ChannelId>, b: seq<ChannelId>, u: seq<ChannelId>, q'': seq<ChannelId>)
    requires q + a == t + q' && q' + b == u + q''
    ensures q + (a + b) == (t + u) + q''
  {
    assert q + (a + b) == (q + a) + b == t + (q' + b);
  }

  /** First in, first out: the channels queued at one moment and those found later, in this order, are the channels
      taken by another moment and then those still queued. */
  lemma {:induction false} FirstInFirstOut(c: Config, run: seq<State>, i: nat, j: nat) returns (added: seq<ChannelId>)
    requires IsRun(c, run) && i <= j < |run|
    ensures run[i].queue + added == Taken(run, i, j) + run[j].queue && run[i].found <= run[j].found
    ensures forall x <- added :: x !in run[i].found && x in run[j].found
  {
    if i == j {
      added := [];
    } else {
      var before := FirstInFirstOut(c, run, i, j - 1);
      assert StepAt(c, run, j - 1);
      var step :| Enabled(run[j - 1], step) && Next(c, run[j - 1], step) == run[j];
      var more := StepMovesQueue(c, run[j - 1], step);
      Chain(run[i].queue, before, Taken(run, i, j - 1), run[j - 1].queue, more, Took(run[j - 1], run[j]), run[j].queue);
      added := before + more;
    }
  }

  /** Nobody is overtaken: of two queued channels the one behind is not taken while the one before it waits. */
  lemma NobodyIsOvertaken(c: Config, run: seq<State>, i: nat, j: nat, a: nat, b: nat)
    requires IsRun(c, run) && i <= j < |run| && a < b < |run[i].queue|
    ensures |Taken(run, i, j)| > b ==> Taken(run, i, j)[a] == run[i].queue[a] && Taken(run, i, j)[b] == run[i].queue[b]
    ensures |Taken(run, i, j)| <= a ==> exists k, l :: 0 <= k < l < |run[j].queue| && run[j].queue[k] == run[i].queue[a] && run[j].queue[l] == run[i].queue[b]
  {
    var added := FirstInFirstOut(c, run, i, j);
    var t, q := Taken(run, i, j), run[j].queue;
    var all := run[i].queue + added;
    assert all[a] == run[i].queue[a] && all[b] == run[i].queue[b];
    if |t| <= a {
      assert q[a - |t|] == (t + q)[a] && q[b - |t|] == (t + q)[b];
    }
  }
}
