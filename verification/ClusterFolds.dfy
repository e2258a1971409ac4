/** Folding the duplicates of a merge list into their canonical members, told by clusters instead of by
  list positions. */
module ClusterFolds {
  import opened UnionFind
  import opened MergePlan
  import opened Repoint

  /** A merge list made from strictly ordered keys is a plan. */
  lemma MergesArePlan<T(!new)>(merges: seq<Pair<T>>, edges: set<Pair<T>>, wins: (T, T) -> bool)
    requires TotalOrder(wins) && MergesAre(merges, edges, wins, Nodes(edges))
    ensures IsPlan(merges)
  {
    forall i, j | 0 <= i < |merges| && 0 <= j < |merges|
      ensures merges[i].0 != merges[j].1
    {
      var p, q := merges[i], merges[j];
      assert p in merges && q in merges;
      NoDuplicateIsCanonical(edges, wins, q.0, q.1, p.1);
    }
  }

  lemma MemberMergesIntoLeader<T(!new)>(edges: set<Pair<T>>, wins: (T, T) -> bool, merges: seq<Pair<T>>, e: T, d: T)
    requires TotalOrder(wins) && MergesAre(merges, edges, wins, Nodes(edges))
    requires Leads(edges, wins, e, e) && d in Nodes(edges) && Connected(edges, e, d) && d != e
    ensures (d, e) in merges
  {
    ConnectedSymmetric(edges, e, d);
    forall x | x in Nodes(edges) && Connected(edges, d, x)
      ensures wins(e, x)
    {
      ConnectedTransitive(edges, e, d, x);
    }
    assert IsMerge(edges, wins, d, e);
  }

  /** Every component has a best member. */
  lemma LeaderExists<T(!new)>(edges: set<Pair<T>>, wins: (T, T) -> bool, x: T) returns (c: T)
    requires TotalOrder(wins) && x in Nodes(edges)
    ensures Leads(edges, wins, c, x)
  {
    var component := set d | d in Nodes(edges) && Connected(edges, x, d);
    assert Connected(edges, x, x) && x in component;
    c := Maximum(component, wins);
  }

  lemma {:induction false} Maximum<T(!new)>(s: set<T>, wins: (T, T) -> bool) returns (c: T)
    requires TotalOrder(wins) && s != {}
    ensures c in s && forall d <- s :: wins(c, d)
    decreases s
  {
    c :| c in s;
    var rest := s - {c};
    assert forall x <- s :: x == c || x in rest;
    if rest != {} {
      var d := Maximum(rest, wins);
      if !wins(c, d) { c := d; }
    }
  }

  /** Whether a member has something, after the folds: a canonical member has what some member of its
      cluster had, a duplicate has nothing, and who is in no cluster has what it had. */
  lemma FoldIsByCluster<T(!new)>(edges: set<Pair<T>>, wins: (T, T) -> bool, merges: seq<Pair<T>>, e: T, has: T -> bool)
    requires TotalOrder(wins) && MergesAre(merges, edges, wins, Nodes(edges))
    ensures (!IsDuplicate(merges, e) && (has(e) || exists i :: 0 <= i < |merges| && merges[i].1 == e && has(merges[i].0))) <==>
      (e !in Nodes(edges) && has(e)) || (Leads(edges, wins, e, e) && exists d :: d in Nodes(edges) && Connected(edges, e, d) && has(d))
  {
    forall i | 0 <= i < |merges|
      ensures IsMerge(edges, wins, merges[i].0, merges[i].1)
    {
      assert merges[i] in merges;
    }
    if e in Nodes(edges) && Leads(edges, wins, e, e) {
      LeaderFolds(edges, wins, merges, e, has);
    } else if e in Nodes(edges) {
      var c := LeaderExists(edges, wins, e);
      EveryOtherMemberIsMerged(edges, wins, merges, e, c);
      var i :| 0 <= i < |merges| && merges[i] == (e, c);
      assert IsDuplicate(merges, e);
    }
  }

  lemma LeaderFolds<T(!new)>(edges: set<Pair<T>>, wins: (T, T) -> bool, merges: seq<Pair<T>>, e: T, has: T -> bool)
    requires TotalOrder(wins) && MergesAre(merges, edges, wins, Nodes(edges)) && e in Nodes(edges) && Leads(edges, wins, e, e)
    ensures !IsDuplicate(merges, e)
    ensures (has(e) || exists i :: 0 <= i < |merges| && merges[i].1 == e && has(merges[i].0)) <==>
      exists d :: d in Nodes(edges) && Connected(edges, e, d) && has(d)
  {
    EveryOtherMemberIsMerged(edges, wins, merges, e, e);
    forall d | d in Nodes(edges) && Connected(edges, e, d) && d != e && has(d)
      ensures exists i :: 0 <= i < |merges| && merges[i].1 == e && has(merges[i].0)
    {
      MemberMergesIntoLeader(edges, wins, merges, e, d);
      var i :| 0 <= i < |merges| && merges[i] == (d, e);
    }
    forall i | 0 <= i < |merges| && merges[i].1 == e
      ensures merges[i].0 in Nodes(edges) && Connected(edges, e, merges[i].0)
    {
      assert merges[i] in merges;
      ConnectedSymmetric(edges, merges[i].0, e);
    }
  }

  /** Of two linked members at least one is merged away. */
  lemma LinkedPairLosesOne<T(!new)>(edges: set<Pair<T>>, wins: (T, T) -> bool, merges: seq<Pair<T>>, p: Pair<T>) returns (d: T, c: T)
    requires TotalOrder(wins) && MergesAre(merges, edges, wins, Nodes(edges)) && p in edges && p.0 != p.1
    ensures (d, c) in merges && (d == p.0 || d == p.1)
  {
    EdgeConnects(edges, p);
    c := LeaderExists(edges, wins, p.0);
    if c == p.0 {
      d := p.1;
      MemberMergesIntoLeader(edges, wins, merges, c, d);
    } else {
      d := p.0;
      EveryOtherMemberIsMerged(edges, wins, merges, d, c);
    }
  }

  /** Every set of pairs has a merge list. */
  lemma {:induction false} MergesFor<T(!new)>(edges: set<Pair<T>>, wins: (T, T) -> bool, done: set<T>) returns (merges: seq<Pair<T>>)
    requires TotalOrder(wins) && done <= Nodes(edges)
    ensures MergesAre(merges, edges, wins, done)
    decreases done
  {
    merges := [];
    if done != {} {
      var d :| d in done;
      merges := MergesFor(edges, wins, done - {d});
      var c := LeaderExists(edges, wins, d);
      if c != d { merges := merges + [(d, c)]; }
      forall x, y | x in done && IsMerge(edges, wins, x, y) ensures (x, y) in merges {
        if x == d { LeaderIsUnique(edges, wins, c, y, d); }
      }
    }
  }
}
