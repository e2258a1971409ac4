/** `_cluster_to_canon` of the event pass: union the duplicate pairs and plan the merges. */
module EventClusters {
  import opened Ids
  import opened UnionFind
  import opened MergePlan

  /** The sort key of an event: how many sources it has, then how many occurrences, then its id. */
  datatype Rank = Rank(sources: nat, occurrences: nat)

  function RankOf(rank: map<EventId, Rank>, e: EventId): Rank {
    if e in rank then rank[e] else Rank(0, 0)
  }

  predicate Outranks(rank: map<EventId, Rank>, a: EventId, b: EventId) {
    var ra, rb := RankOf(rank, a), RankOf(rank, b);
    || ra.sources > rb.sources
    || (ra.sources == rb.sources && ra.occurrences > rb.occurrences)
    || (ra == rb && a.n >= b.n)
  }

  function ByRank(rank: map<EventId, Rank>): (wins: (EventId, EventId) -> bool)
    ensures TotalOrder(wins)
  {
    (a, b) => Outranks(rank, a, b)
  }

  method ClusterToCanon(pairs: seq<Pair<EventId>>, rank: map<EventId, Rank>) returns (merges: seq<Pair<EventId>>)
    ensures forall d, c :: (d, c) in merges <==> IsMerge(Edges(pairs), ByRank(rank), d, c)
    ensures MergesAre(merges, Edges(pairs), ByRank(rank), Nodes(Edges(pairs)))
  {
    var uf := new Forest();
    UnionAll(uf, pairs);
    var members := (set p | p in pairs :: p.0) + (set p | p in pairs :: p.1);
    assert members == Nodes(Edges(pairs));
    var groups := GroupByRoot(uf, members);
    merges := MergesOf(groups, ByRank(rank), uf.root, Edges(pairs));
  }
}
