/** What a crawl finds on a graph that does not change under it. */
module CrawlReach {
  import opened Crawler
  import Runs

  /** The recommendations of each channel, whichever worker asks and whenever. */
  type Graph = ChannelId -> seq<Entity>

  /** The entities a crawl can follow: those with an id and a username. */
  function Named(es: seq<Entity>): set<ChannelId> {
    set e | e in es && e.id != 0 && e.named :: ChannelId(e.id)
  }

  ghost predicate ClosedUnder(graph: Graph, s: iset<ChannelId>) {
    forall x <- s, y <- Named(graph(x)) :: y in s
  }

  ghost predicate Holds(seeds: seq<Entity>, s: iset<ChannelId>) {
    forall x <- Named(seeds) :: x in s
  }

  /** In every set that holds the seeds and the recommendations of its members: the least such set. */
  ghost predicate Reachable(graph: Graph, seeds: seq<Entity>, x: ChannelId) {
    forall s: iset<ChannelId> | Holds(seeds, s) && ClosedUnder(graph, s) :: x in s
  }

  // ----- a step on the graph -----

  ghost predicate Answers(graph: Graph, s: State, step: Step)
    requires Enabled(s, step)
  {
    step.Push? ==> step.recs == graph(s.workers[step.w].channel)
  }

  ghost predicate StepsOn(c: Config, graph: Graph, s: State, s': State) {
    exists step :: Enabled(s, step) && Answers(graph, s, step) && Next(c, s, step) == s'
  }

  /** All that is found can be reached, and what a pushed channel recommends is found. */
  ghost predicate Follows(graph: Graph, seeds: seq<Entity>, s: State) {
    && Named(seeds) <= s.found
    && (forall x <- s.found :: Reachable(graph, seeds, x))
    && forall x <- s.pushed :: Named(graph(x)) <= s.found
  }

  lemma {:induction false} EnqueueFinds(found: set<ChannelId>, queue: seq<ChannelId>, es: seq<Entity>)
    ensures EnqueueAll(found, queue, es).0 == found + Named(es)
  {
    if es != [] {
      var n := |es| - 1;
      EnqueueFinds(found, queue, es[..n]);
      assert es == es[..n] + [es[n]];
      assert Named(es) == Named(es[..n]) + Named([es[n]]);
    }
  }

  lemma RecommendedIsReachable(graph: Graph, seeds: seq<Entity>, x: ChannelId, y: ChannelId)
    requires Reachable(graph, seeds, x) && y in Named(graph(x))
    ensures Reachable(graph, seeds, y)
  {}

  lemma {:induction false} GatherHas(ws: seq<Worker>, w: nat, f: Worker -> Bag, x: ChannelId)
    requires w < |ws| && x in f(ws[w])
    ensures x in Gather(ws, f)
  {
    if w < |ws| - 1 { GatherHas(ws[..|ws| - 1], w, f, x); }
  }

  lemma InFlightIsFound(s: State, w: nat)
    requires EachIdOnce(s) && w < |s.workers| && s.workers[w].Busy?
    ensures s.workers[w].channel in s.found
  {
    GatherHas(s.workers, w, InFlightOf, s.workers[w].channel);
    NothingTwice(s, s.workers[w].channel);
  }

  lemma PushFollows(c: Config, graph: Graph, seeds: seq<Entity>, s: State, step: Step)
    requires EachIdOnce(s) && Follows(graph, seeds, s) && Enabled(s, step) && Answers(graph, s, step) && step.Push?
    ensures Follows(graph, seeds, Next(c, s, step))
  {
    var s', x := Next(c, s, step), s.workers[step.w].channel;
    EnqueueFinds(s.found, s.queue, step.recs);
    InFlightIsFound(s, step.w);
    forall y | y in s'.found ensures Reachable(graph, seeds, y) {
      if y !in s.found { RecommendedIsReachable(graph, seeds, x, y); }
    }
  }

  lemma OtherStepsFindNothing(c: Config, s: State, step: Step)
    requires Enabled(s, step) && !step.Push?
    ensures Next(c, s, step).found == s.found && Next(c, s, step).pushed == s.pushed
  {}

  lemma SameFindsFollow(graph: Graph, seeds: seq<Entity>, s: State, s': State)
    requires Follows(graph, seeds, s) && s'.found == s.found && s'.pushed == s.pushed
    ensures Follows(graph, seeds, s')
  {}

  lemma StepFollows(c: Config, graph: Graph, seeds: seq<Entity>, s: State, s': State)
    requires Inv(c, s) && Follows(graph, seeds, s) && StepsOn(c, graph, s, s')
    ensures Inv(c, s') && Follows(graph, seeds, s')
  {
    var step :| Enabled(s, step) && Answers(graph, s, step) && Next(c, s, step) == s';
    StepKeepsInv(c, s, step);
    if step.Push? {
      PushFollows(c, graph, seeds, s, step);
    } else {
      OtherStepsFindNothing(c, s, step);
      SameFindsFollow(graph, seeds, s, s');
    }
  }

  lemma StartFollows(c: Config, graph: Graph, seeds: seq<Entity>, n: nat)
    requires n >= 1
    ensures Inv(c, Start(seeds, n)) && Follows(graph, seeds, Start(seeds, n))
  {
    StartInv(c, seeds, n);
    EnqueueFinds({}, [], seeds);
  }

  // ----- whole crawls -----

  ghost predicate StepOnAt(c: Config, graph: Graph, run: seq<State>, i: nat)
    requires i + 1 < |run|
  {
    StepsOn(c, graph, run[i], run[i + 1])
  }

  ghost predicate IsCrawl(c: Config, graph: Graph, seeds: seq<Entity>, n: nat, run: seq<State>) {
    n >= 1 && run != [] && run[0] == Start(seeds, n) && forall i | 0 <= i < |run| - 1 :: StepOnAt(c, graph, run, i)
  }

  /** A crawl never leaves what can be reached, and is behind on the recommendations of no pushed channel. */
  lemma CrawlFollows(c: Config, graph: Graph, seeds: seq<Entity>, n: nat, run: seq<State>, i: nat)
    requires IsCrawl(c, graph, seeds, n, run) && i < |run|
    ensures Inv(c, run[i]) && Follows(graph, seeds, run[i])
  {
    var inv := (s: State) => Inv(c, s) && Follows(graph, seeds, s);
    StartFollows(c, graph, seeds, n);
    forall j | 0 <= j < |run| - 1 ensures Runs.KeptAt(run, inv, j) {
      assert StepOnAt(c, graph, run, j);
      if inv(run[j]) { StepFollows(c, graph, seeds, run[j], run[j + 1]); }
    }
    Runs.Always(run, inv, i);
  }

  lemma FoundIsPushedOrLeft(s: State, x: ChannelId)
    requires EachIdOnce(s) && AllGone(s)
    ensures x in s.found <==> x in s.pushed || x in s.queue || x in s.dropped
    ensures !(x in s.pushed && (x in s.queue || x in s.dropped))
  {
    BagSizes(s.workers);
    NothingTwice(s, x);
  }

  lemma FinishedHasAll(graph: Graph, seeds: seq<Entity>, s: State, x: ChannelId)
    requires EachIdOnce(s) && AllGone(s) && Follows(graph, seeds, s) && s.queue == [] && s.dropped == [] && Reachable(graph, seeds, x)
    ensures x in s.pushed
  {
    var pushed := iset y | y in s.pushed;
    forall y ensures y in s.found <==> y in pushed { FoundIsPushedOrLeft(s, y); }
    assert Holds(seeds, pushed) && ClosedUnder(graph, pushed);
  }

  /** A crawl that can go no further has pushed exactly the channels that can be reached, if and only if it left
      nothing in the queue and lost nothing to a FloodWait; short of the limit the queue is empty unless a
      FloodWait took a worker. */
  lemma CrawlFindsAllIff(c: Config, graph: Graph, seeds: seq<Entity>, n: nat, run: seq<State>)
    requires IsCrawl(c, graph, seeds, n, run) && Stuck(run[|run| - 1])
    ensures var s := run[|run| - 1];
      && ((forall x :: x in s.pushed <==> Reachable(graph, seeds, x)) <==> s.queue == [] && s.dropped == [])
      && (s.dropped == [] && s.processed < c.maxChannels ==> s.queue == [])
  {
    var s := run[|run| - 1];
    CrawlFollows(c, graph, seeds, n, run, |run| - 1);
    StuckMeansAllGone(s);
    CrawlKeepsWorkers(c, graph, seeds, n, run, |run| - 1);
    forall x ensures x in s.found <==> x in s.pushed || x in s.queue || x in s.dropped { FoundIsPushedOrLeft(s, x); }
    if s.queue == [] && s.dropped == [] {
      forall x | Reachable(graph, seeds, x) ensures x in s.pushed { FinishedHasAll(graph, seeds, s, x); }
    }
    if s.queue != [] { FoundIsPushedOrLeft(s, s.queue[0]); }
    if s.dropped != [] { FoundIsPushedOrLeft(s, s.dropped[0]); }
  }

  lemma {:induction false} CrawlKeepsWorkers(c: Config, graph: Graph, seeds: seq<Entity>, n: nat, run: seq<State>, i: nat)
    requires IsCrawl(c, graph, seeds, n, run) && i < |run|
    ensures |run[i].workers| == n
  {
    if i > 0 {
      CrawlKeepsWorkers(c, graph, seeds, n, run, i - 1);
      assert StepOnAt(c, graph, run, i - 1);
    }
  }
}
