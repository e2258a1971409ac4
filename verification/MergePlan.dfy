/** From the clusters of a forest to the list of (duplicate, canonical) merges.

  Both passes reduce a cluster the same way: the best member under a sort key stays and every other
  member is paired with it.  The list is specified by `Connected` alone, so it cannot depend on the
  order of the pairs, on the shape of the forest, or on the order in which members are walked. */
module MergePlan {
  import opened Collections
  import opened UnionFind

  /** `wins(a, b)`: the sort key of a is at least that of b.  Keys end in the id, so ties are equal ids. */
  ghost predicate TotalOrder<T(!new)>(wins: (T, T) -> bool) {
    && (forall a, b :: wins(a, b) || wins(b, a))
    && (forall a, b :: wins(a, b) && wins(b, a) ==> a == b)
    && (forall a, b, c :: wins(a, b) && wins(b, c) ==> wins(a, c))
  }

  /** c is the canonical member of the component of x. */
  ghost predicate Leads<T(!new)>(edges: set<Pair<T>>, wins: (T, T) -> bool, c: T, x: T) {
    && c in Nodes(edges) && Connected(edges, x, c)
    && forall m <- Nodes(edges) :: Connected(edges, x, m) ==> wins(c, m)
  }

  ghost predicate IsMerge<T(!new)>(edges: set<Pair<T>>, wins: (T, T) -> bool, d: T, c: T) {
    d in Nodes(edges) && d != c && Leads(edges, wins, c, d)
  }

  /** The list holds exactly the merges of the members in `done`, one for each. */
  ghost predicate MergesAre<T(!new)>(merges: seq<Pair<T>>, edges: set<Pair<T>>, wins: (T, T) -> bool, done: set<T>) {
    && (forall p <- merges :: p.0 in done && IsMerge(edges, wins, p.0, p.1))
    && (forall d, c :: d in done && IsMerge(edges, wins, d, c) ==> (d, c) in merges)
    && (forall i, j :: 0 <= i < j < |merges| ==> merges[i].0 != merges[j].0)
  }

  lemma LeaderIsUnique<T(!new)>(edges: set<Pair<T>>, wins: (T, T) -> bool, c: T, c': T, x: T)
    requires TotalOrder(wins)
    requires Leads(edges, wins, c, x) && Leads(edges, wins, c', x)
    ensures c == c'
  {}

  /** A merge target is never itself merged away. */
  lemma NoDuplicateIsCanonical<T(!new)>(edges: set<Pair<T>>, wins: (T, T) -> bool, d: T, c: T, c': T)
    requires TotalOrder(wins) && IsMerge(edges, wins, d, c)
    ensures !IsMerge(edges, wins, c, c')
  {
    if IsMerge(edges, wins, c, c') {
      ConnectedTransitive(edges, d, c, c');
    }
  }

  /** Every member that does not lead its component is merged away, exactly once. */
  lemma EveryOtherMemberIsMerged<T(!new)>(edges: set<Pair<T>>, wins: (T, T) -> bool, merges: seq<Pair<T>>, x: T, c: T)
    requires TotalOrder(wins) && MergesAre(merges, edges, wins, Nodes(edges))
    requires x in Nodes(edges) && Leads(edges, wins, c, x)
    ensures x != c ==> (x, c) in merges
    ensures forall i | 0 <= i < |merges| && merges[i].0 == x :: merges[i] == (x, c) && x != c
  {
    forall i | 0 <= i < |merges| && merges[i].0 == x
      ensures merges[i] == (x, c) && x != c
    {
      assert merges[i] in merges;
      LeaderIsUnique(edges, wins, c, merges[i].1, x);
    }
  }

  /** The same links, in either direction. */
  ghost predicate SameLinks<T(!new)>(edges: set<Pair<T>>, edges': set<Pair<T>>) {
    && (forall e <- edges :: e in edges' || (e.1, e.0) in edges')
    && (forall e <- edges' :: e in edges || (e.1, e.0) in edges)
  }

  lemma SameLinksSameMerges<T(!new)>(edges: set<Pair<T>>, edges': set<Pair<T>>, wins: (T, T) -> bool, d: T, c: T)
    requires SameLinks(edges, edges') && IsMerge(edges, wins, d, c)
    ensures IsMerge(edges', wins, d, c)
  {
    assert Nodes(edges) == Nodes(edges');
    forall x, y ensures Connected(edges, x, y) <==> Connected(edges', x, y) {
      forall s ensures Closed(edges, s) <==> Closed(edges', s) {}
    }
  }

  /** The merges do not depend on the order of the pairs, on how often one is listed, or on which of its
      two ids comes first. */
  lemma MergesDoNotDependOnOrder<T(!new)>(pairs: seq<Pair<T>>, pairs': seq<Pair<T>>, wins: (T, T) -> bool,
                                          merges: seq<Pair<T>>, merges': seq<Pair<T>>)
    requires SameLinks(Edges(pairs), Edges(pairs'))
    requires MergesAre(merges, Edges(pairs), wins, Nodes(Edges(pairs)))
    requires MergesAre(merges', Edges(pairs'), wins, Nodes(Edges(pairs')))
    ensures Elements(merges) == Elements(merges') && |merges| == |merges'|
  {
    forall p: Pair<T> ensures p in merges <==> p in merges' {
      if p in merges { SameLinksSameMerges(Edges(pairs), Edges(pairs'), wins, p.0, p.1); }
      if p in merges' { SameLinksSameMerges(Edges(pairs'), Edges(pairs), wins, p.0, p.1); }
    }
    assert Distinct(merges) && Distinct(merges');
    DistinctSize(merges);
    DistinctSize(merges');
  }

  // ----- the walk over the clusters -----

  method Best<T(!new)>(members: seq<T>, wins: (T, T) -> bool) returns (best: T)
    requires TotalOrder(wins) && members != []
    ensures best in members && forall m <- members :: wins(best, m)
  {
    best := members[0];
    for i := 1 to |members|
      invariant best in members && forall k | 0 <= k < i :: wins(best, members[k])
    {
      if !wins(best, members[i]) { best := members[i]; }
    }
  }

  /** All members of a cluster but its canonical one, each paired with it. */
  method PairsWith<T(==)>(members: seq<T>, canon: T) returns (out: seq<Pair<T>>)
    requires Distinct(members)
    ensures forall p <- out :: p.0 in members && p.0 != canon && p.1 == canon
    ensures forall d <- members :: d != canon ==> (d, canon) in out
    ensures forall i, j :: 0 <= i < j < |out| ==> out[i].0 != out[j].0
  {
    out := [];
    for i := 0 to |members|
      invariant forall p <- out :: p.0 in members[..i] && p.0 != canon && p.1 == canon
      invariant forall d <- members[..i] :: d != canon ==> (d, canon) in out
      invariant forall i, j :: 0 <= i < j < |out| ==> out[i].0 != out[j].0
    {
      if members[i] != canon { out := out + [(members[i], canon)]; }
    }
  }

  /** groups lists, under each label, exactly the members that carry it. */
  ghost predicate Grouped<T(!new)>(groups: map<T, seq<T>>, root: map<T, T>, members: set<T>) {
    && members <= root.Keys
    && (forall e <- members :: root[e] in groups)
    && (forall r <- groups :: groups[r] != [] && Distinct(groups[r]))
    && (forall r, e :: r in groups && e in groups[r] ==> e in members && root[e] == r)
    && (forall r, e :: r in groups && e in members && root[e] == r ==> e in groups[r])
  }

  lemma GroupedAdd<T(!new)>(groups: map<T, seq<T>>, root: map<T, T>, members: set<T>, e: T)
    requires Grouped(groups, root, members) && e in root && e !in members
    ensures Grouped(groups[root[e] := (if root[e] in groups then groups[root[e]] else []) + [e]], root, members + {e})
  {}

  /** Group the members by the root the forest gives them. */
  method GroupByRoot<T(==, !new)>(uf: Forest<T>, members: set<T>) returns (groups: map<T, seq<T>>)
    requires uf.Valid() && members <= uf.root.Keys
    modifies uf
    ensures uf.Valid() && uf.root == old(uf.root)
    ensures Grouped(groups, uf.root, members)
  {
    groups := map[];
    var rest := members;
    ghost var root := uf.root;
    while rest != {}
      invariant rest <= members && uf.Valid() && uf.root == root
      invariant Grouped(groups, root, members - rest)
      decreases rest
    {
      var e := Any(rest);
      GroupedAdd(groups, root, members - rest, e);
      var r := uf.Find(e);
      groups := groups[r := (if r in groups then groups[r] else []) + [e]];
      assert members - (rest - {e}) == members - rest + {e};
      rest := rest - {e};
    }
    assert members - rest == members;
  }

  method UnionAll<T(==, !new)>(uf: Forest<T>, pairs: seq<Pair<T>>)
    requires uf.Valid() && uf.root == map[]
    modifies uf
    ensures uf.Valid() && uf.root.Keys == Nodes(Edges(pairs)) && Represents(uf.root, Edges(pairs))
  {
    for i := 0 to |pairs|
      invariant uf.Valid() && uf.root.Keys == Nodes(Edges(pairs[..i])) && Represents(uf.root, Edges(pairs[..i]))
    {
      var (a, b) := pairs[i];
      ghost var edges := Edges(pairs[..i]);
      RepresentsUnion(uf.root, edges, a, b);
      uf.Union(a, b);
      assert Edges(pairs[..i + 1]) == edges + {(a, b)};
    }
    assert pairs[..|pairs|] == pairs;
  }

  lemma MergesOfOneGroup<T(!new)>(root: map<T, T>, edges: set<Pair<T>>, wins: (T, T) -> bool,
                                  group: seq<T>, canon: T, more: seq<Pair<T>>)
    requires TotalOrder(wins) && Nodes(edges) <= root.Keys && Represents(root, edges)
    requires canon in group && forall e <- group :: e in Nodes(edges)
    requires forall e <- Nodes(edges) :: e in group <==> SameLabel(root, e, canon)
    requires forall m <- group :: wins(canon, m)
    requires forall p <- more :: p.0 in group && p.0 != canon && p.1 == canon
    requires forall d <- group :: d != canon ==> (d, canon) in more
    requires forall i, j :: 0 <= i < j < |more| ==> more[i].0 != more[j].0
    ensures MergesAre(more, edges, wins, Elements(group))
  {
    forall d | d in group
      ensures Leads(edges, wins, canon, d)
    {
      forall m | m in Nodes(edges) && Connected(edges, d, m)
        ensures wins(canon, m)
      {
        assert SameLabel(root, d, m);
      }
    }
    forall d, c | d in group && IsMerge(edges, wins, d, c)
      ensures (d, c) in more
    {
      LeaderIsUnique(edges, wins, c, canon, d);
    }
  }

  /** One group: its best member stays, the others merge into it. */
  method MergesOfGroup<T(==, !new)>(group: seq<T>, wins: (T, T) -> bool, ghost root: map<T, T>, ghost edges: set<Pair<T>>)
      returns (more: seq<Pair<T>>)
    requires TotalOrder(wins) && Nodes(edges) <= root.Keys && Represents(root, edges)
    requires group != [] && Distinct(group)
    requires forall e <- group :: e in Nodes(edges)
    requires forall e <- Nodes(edges) :: e in group <==> SameLabel(root, e, group[0])
    ensures MergesAre(more, edges, wins, Elements(group))
  {
    var canon := Best(group, wins);
    more := PairsWith(group, canon);
    assert SameLabel(root, canon, group[0]);
    MergesOfOneGroup(root, edges, wins, group, canon, more);
  }

  /** The merge list so far answers for every group but those still to do. */
  ghost predicate Progress<T(!new)>(merges: seq<Pair<T>>, edges: set<Pair<T>>, wins: (T, T) -> bool,
                                    root: map<T, T>, todo: set<T>, done: set<T>) {
    && MergesAre(merges, edges, wins, done) && done <= Nodes(edges) <= root.Keys
    && forall e <- Nodes(edges) :: e in done <==> root[e] !in todo
  }

  lemma MergesConcat<T(!new)>(merges: seq<Pair<T>>, more: seq<Pair<T>>, edges: set<Pair<T>>, wins: (T, T) -> bool, done: set<T>, added: set<T>)
    requires MergesAre(merges, edges, wins, done) && MergesAre(more, edges, wins, added) && done !! added
    ensures MergesAre(merges + more, edges, wins, done + added)
  {}

  lemma NextGroup<T(!new)>(groups: map<T, seq<T>>, root: map<T, T>, edges: set<Pair<T>>, wins: (T, T) -> bool,
                           todo: set<T>, r: T, done: set<T>, merges: seq<Pair<T>>, more: seq<Pair<T>>)
    requires Grouped(groups, root, Nodes(edges)) && r in groups && r in todo
    requires Progress(merges, edges, wins, root, todo, done)
    requires MergesAre(more, edges, wins, Elements(groups[r]))
    ensures Progress(merges + more, edges, wins, root, todo - {r}, done + Elements(groups[r]))
  {
    var group := groups[r];
    var done' := done + Elements(group);
    forall e | e in Nodes(edges)
      ensures e in done' <==> root[e] !in todo - {r}
    {
      assert e in group <==> root[e] == r;
      assert e in done' <==> e in done || e in group;
    }
    MergesConcat(merges, more, edges, wins, done, Elements(group));
  }

  /** One canonical member per cluster; the rest of the cluster merges into it. */
  method MergesOf<T(==, !new)>(groups: map<T, seq<T>>, wins: (T, T) -> bool, ghost root: map<T, T>, ghost edges: set<Pair<T>>)
      returns (merges: seq<Pair<T>>)
    requires TotalOrder(wins) && Represents(root, edges) && Grouped(groups, root, Nodes(edges))
    ensures MergesAre(merges, edges, wins, Nodes(edges))
  {
    merges := [];
    var todo := groups.Keys;
    ghost var done: set<T> := {};
    while todo != {}
      invariant todo <= groups.Keys && Progress(merges, edges, wins, root, todo, done)
      decreases todo
    {
      var r := Any(todo);
      var more := MergesOfGroup(groups[r], wins, root, edges);
      NextGroup(groups, root, edges, wins, todo, r, done, merges, more);
      merges, todo, done := merges + more, todo - {r}, done + Elements(groups[r]);
    }
    assert done == Nodes(edges);
  }
}
