/** Clustering under a contrast guard: `_guarded_union` of the venue pass and the loop body of the
  resplit pass.

  A union is refused when it would put two clashing members into one cluster.  The guard has to be
  checked over whole clusters, because a clash between two members does not survive going through a
  third.  The result is greedy, and yet the final state can be described without the order of the
  requests: every requested pair is together, or its two clusters clash. */
module GuardedClusters {
  import opened UnionFind

  ghost predicate Symmetric<T(!new)>(clash: (T, T) -> bool) {
    forall x, y :: clash(x, y) ==> clash(y, x)
  }

  /** Some member of a's cluster clashes with some member of b's. */
  ghost predicate ClustersClash<T(!new)>(root: map<T, T>, clash: (T, T) -> bool, a: T, b: T)
    requires a in root && b in root
  {
    exists x, y :: x in root && y in root && SameLabel(root, x, a) && SameLabel(root, y, b) && clash(x, y)
  }

  /** No cluster holds two different clashing members. */
  ghost predicate Safe<T(!new)>(root: map<T, T>, clash: (T, T) -> bool) {
    forall x, y | x in root && y in root && SameLabel(root, x, y) && x != y :: !clash(x, y)
  }

  /** Every requested pair is together or kept apart by a clash between its clusters. */
  ghost predicate Maximal<T(!new)>(root: map<T, T>, clash: (T, T) -> bool, asked: set<Pair<T>>) {
    forall e <- asked :: e.0 in root && e.1 in root && (SameLabel(root, e.0, e.1) || ClustersClash(root, clash, e.0, e.1))
  }

  ghost function WithBoth<T(!new)>(root: map<T, T>, a: T, b: T): (r: map<T, T>)
    ensures a in r && b in r
  {
    WithDefault(WithDefault(root, a), b)
  }

  /** What one guarded request does to the labelling. */
  ghost function GuardedStep<T(!new)>(root: map<T, T>, clash: (T, T) -> bool, a: T, b: T): map<T, T> {
    var r := WithBoth(root, a, b);
    if SameLabel(r, a, b) || ClustersClash(r, clash, a, b) then r else Merged(r, a, b)
  }

  ghost function GuardedRun<T(!new)>(root: map<T, T>, clash: (T, T) -> bool, asked: seq<Pair<T>>): map<T, T> {
    if asked == [] then root
    else
      var last := asked[|asked| - 1];
      GuardedStep(GuardedRun(root, clash, asked[..|asked| - 1]), clash, last.0, last.1)
  }

  /** Labels name members of their own class. */
  ghost predicate Labelled<T(!new)>(root: map<T, T>) {
    forall x {:trigger At(root, x)} | x in root :: At(root, x) in root && At(root, At(root, x)) == At(root, x)
  }

  lemma DefaultKeeps<T(!new)>(root: map<T, T>, clash: (T, T) -> bool, asked: set<Pair<T>>, x: T)
    requires Labelled(root) && Safe(root, clash) && Maximal(root, clash, asked)
    ensures var r := WithDefault(root, x); Labelled(r) && Safe(r, clash) && Maximal(r, clash, asked)
  {
    var r := WithDefault(root, x);
    if x !in root {
      forall y {:trigger At(r, y)} | y in r
        ensures At(r, y) in r && At(r, At(r, y)) == At(r, y)
        ensures y != x ==> At(r, y) == At(root, y) && At(r, y) != x
      {
        if y != x { assert At(root, y) in root; assert At(r, y) == At(root, y); assert At(r, At(r, y)) == At(root, At(root, y)); }
      }
      forall y, z | y in root && z in root
        ensures SameLabel(r, y, z) <==> SameLabel(root, y, z)
      {}
      forall y | y in root
        ensures !SameLabel(r, x, y) && !SameLabel(r, y, x)
      {
        assert At(r, y) != x;
      }
      forall e | e in asked && !SameLabel(r, e.0, e.1)
        ensures ClustersClash(r, clash, e.0, e.1)
      {
        var u, v :| u in root && v in root && SameLabel(root, u, e.0) && SameLabel(root, v, e.1) && clash(u, v);
        assert SameLabel(r, u, e.0) && SameLabel(r, v, e.1);
      }
    }
  }

  /** An allowed union keeps the guard and settles its own pair; refusals stay justified as clusters grow. */
  lemma MergeKeeps<T(!new)>(root: map<T, T>, clash: (T, T) -> bool, asked: set<Pair<T>>, a: T, b: T)
    requires Symmetric(clash) && Labelled(root) && Safe(root, clash) && Maximal(root, clash, asked)
    requires a in root && b in root && !ClustersClash(root, clash, a, b)
    ensures var r := Merged(root, a, b); Labelled(r) && Safe(r, clash) && Maximal(r, clash, asked + {(a, b)})
  {
    var r := Merged(root, a, b);
    assert At(root, b) == root[b];
    forall x {:trigger At(r, x)} | x in r
      ensures At(r, x) in r && At(r, At(r, x)) == At(r, x)
    {
      assert At(root, x) in root && At(r, At(root, x)) == if At(root, x) == root[a] then root[b] else At(root, x);
    }
    forall x, y | x in root && y in root
      ensures SameLabel(root, x, y) ==> SameLabel(r, x, y)
      ensures SameLabel(r, x, y) ==>
        (SameLabel(root, x, y) || (SameLabel(root, x, a) && SameLabel(root, y, b)) || (SameLabel(root, x, b) && SameLabel(root, y, a)))
    {}
    forall x, y | x in r && y in r && SameLabel(r, x, y) && x != y
      ensures !clash(x, y)
    {
      assert clash(x, y) ==> clash(y, x);
    }
    forall e | e in asked && !SameLabel(r, e.0, e.1)
      ensures ClustersClash(r, clash, e.0, e.1)
    {
      var u, v :| u in root && v in root && SameLabel(root, u, e.0) && SameLabel(root, v, e.1) && clash(u, v);
      assert SameLabel(r, u, e.0) && SameLabel(r, v, e.1);
    }
    assert SameLabel(r, a, b);
  }

  lemma StepKeeps<T(!new)>(root: map<T, T>, clash: (T, T) -> bool, asked: set<Pair<T>>, a: T, b: T)
    requires Symmetric(clash) && Labelled(root) && Safe(root, clash) && Maximal(root, clash, asked)
    ensures var r := GuardedStep(root, clash, a, b); Labelled(r) && Safe(r, clash) && Maximal(r, clash, asked + {(a, b)})
  {
    DefaultKeeps(root, clash, asked, a);
    DefaultKeeps(WithDefault(root, a), clash, asked, b);
    var r := WithBoth(root, a, b);
    if !SameLabel(r, a, b) && !ClustersClash(r, clash, a, b) {
      MergeKeeps(r, clash, asked, a, b);
    }
  }

  /** Over any sequence of requests no cluster ever holds a clash, and nothing but a clash keeps a
      requested pair apart. */
  lemma {:induction false} GuardedRunIsSafeAndMaximal<T(!new)>(root: map<T, T>, clash: (T, T) -> bool, asked: seq<Pair<T>>)
    requires Symmetric(clash) && Labelled(root) && Safe(root, clash)
    ensures var r := GuardedRun(root, clash, asked);
      Labelled(r) && Safe(r, clash) && Maximal(r, clash, Edges(asked))
  {
    if asked != [] {
      var front, last := asked[..|asked| - 1], asked[|asked| - 1];
      GuardedRunIsSafeAndMaximal(root, clash, front);
      StepKeeps(GuardedRun(root, clash, front), clash, Edges(front), last.0, last.1);
      assert asked == front + [last];
      assert Edges(asked) == Edges(front) + {(last.0, last.1)};
    }
  }

  /** In a safe and maximal clustering a requested pair is apart exactly when its clusters clash
      across two different members. */
  lemma TogetherUnlessClash<T(!new)>(root: map<T, T>, clash: (T, T) -> bool, asked: set<Pair<T>>, e: Pair<T>)
    requires Safe(root, clash) && Maximal(root, clash, asked) && e in asked
    ensures SameLabel(root, e.0, e.1) <==>
      !exists x, y :: x in root && y in root && x != y && SameLabel(root, x, e.0) && SameLabel(root, y, e.1) && clash(x, y)
  {
    if SameLabel(root, e.0, e.1) {
      forall x, y | x in root && y in root && x != y && SameLabel(root, x, e.0) && SameLabel(root, y, e.1)
        ensures !clash(x, y)
      {
        assert SameLabel(root, x, y);
      }
    } else {
      var x, y :| x in root && y in root && SameLabel(root, x, e.0) && SameLabel(root, y, e.1) && clash(x, y);
      assert x != y;
    }
  }

  // ----- the mutable structure -----

  /** A granted request adds its pair to the closure of the merge list. */
  lemma GrantedJoins<T(!new)>(root: map<T, T>, clash: (T, T) -> bool, edges: set<Pair<T>>, a: T, b: T)
    requires Represents(root, edges)
    ensures var r := GuardedStep(root, clash, a, b);
      Represents(r, if SameLabel(r, a, b) then edges + {(a, b)} else edges)
  {
    RepresentsDefault(root, edges, a);
    RepresentsDefault(WithDefault(root, a), edges, b);
    var both := WithBoth(root, a, b);
    RepresentsMerged(both, edges, a, b);
    if SameLabel(both, a, b) {
      assert Merged(both, a, b) == both;
    } else if !ClustersClash(both, clash, a, b) {
      assert SameLabel(Merged(both, a, b), a, b);
    }
  }

  /** Nothing but requests joins: the labels are the closure of some of the requested pairs. */
  lemma {:induction false} GuardedRunRepresents<T(!new)>(root: map<T, T>, clash: (T, T) -> bool, asked: seq<Pair<T>>)
      returns (accepted: set<Pair<T>>)
    requires Represents(root, {})
    ensures accepted <= Edges(asked) && Represents(GuardedRun(root, clash, asked), accepted)
  {
    if asked == [] {
      accepted := {};
    } else {
      var n := |asked| - 1;
      var (a, b) := asked[n];
      var before := GuardedRunRepresents(root, clash, asked[..n]);
      var r := GuardedRun(root, clash, asked[..n]);
      GrantedJoins(r, clash, before, a, b);
      accepted := if SameLabel(GuardedStep(r, clash, a, b), a, b) then before + {(a, b)} else before;
      assert asked[n] in Edges(asked) && Edges(asked[..n]) <= Edges(asked);
    }
  }

  /** `comp` holds, under each root, exactly the members of its cluster. */
  ghost predicate Mirrors<T(!new)>(comp: map<T, set<T>>, root: map<T, T>) {
    && (forall x | x in root :: root[x] in comp && x in comp[root[x]])
    && (forall r, x | r in comp && x in comp[r] :: x in root && root[x] == r)
    && (forall r | r in comp :: comp[r] != {})
  }

  lemma RootedIsLabelled<T(!new)>(p: map<T, T>, root: map<T, T>, height: map<T, int>, top: int)
    requires Rooted(p, root, height, top)
    ensures Labelled(root)
  {}

  /** The cluster a root stands for, or the new node on its own. */
  lemma MirrorsFound<T(!new)>(comp: map<T, set<T>>, root: map<T, T>, x: T)
    requires Mirrors(comp, root) && Labelled(root)
    ensures var r := WithDefault(root, x);
      (x !in root ==> x !in comp) && Mirrors(if r[x] in comp then comp else comp[r[x] := {x}], r)
  {
    if x in comp {
      var y :| y in comp[x];
      assert At(root, y) == root[y];
    }
    if x !in root {
      forall y | y in root
        ensures root[y] != x
      {
        assert At(root, y) in root;
      }
    }
  }

  lemma MirrorsMerged<T(!new)>(comp: map<T, set<T>>, root: map<T, T>, a: T, b: T)
    requires Mirrors(comp, root) && a in root && b in root && root[a] != root[b]
    ensures root[a] in comp && root[b] in comp
    ensures Mirrors(comp[root[b] := comp[root[a]] + comp[root[b]]] - {root[a]}, Merged(root, a, b))
  {
    var comp' := comp[root[b] := comp[root[a]] + comp[root[b]]] - {root[a]};
    var root' := Merged(root, a, b);
    forall x | x in root'
      ensures root'[x] in comp' && x in comp'[root'[x]]
    {
      assert x in comp[root[x]];
    }
    forall r, x | r in comp' && x in comp'[r]
      ensures x in root' && root'[x] == r
    {
      if r == root[b] { assert x in comp[root[a]] || x in comp[root[b]]; } else { assert x in comp[r]; }
    }
    var y :| y in comp[root[b]];
  }

  lemma ClashAcross<T(!new)>(comp: map<T, set<T>>, root: map<T, T>, clash: (T, T) -> bool, a: T, b: T)
    requires Mirrors(comp, root) && a in root && b in root
    ensures root[a] in comp && root[b] in comp
    ensures (exists x, y :: x in comp[root[a]] && y in comp[root[b]] && clash(x, y)) <==> ClustersClash(root, clash, a, b)
  {
    if ClustersClash(root, clash, a, b) {
      var x, y :| x in root && y in root && SameLabel(root, x, a) && SameLabel(root, y, b) && clash(x, y);
      assert x in comp[root[x]] && y in comp[root[y]];
    }
    if x, y :| x in comp[root[a]] && y in comp[root[b]] && clash(x, y) {
      assert SameLabel(root, x, a) && SameLabel(root, y, b);
    }
  }

  class GuardedForest<T(==, !new)> {
    const uf: Forest<T>
    var comp: map<T, set<T>>

    ghost predicate Valid()
      reads this, uf
    {
      uf.Valid() && Labelled(uf.root) && Mirrors(comp, uf.root)
    }

    ghost function Root(): map<T, T>
      reads this, uf
    {
      uf.root
    }

    constructor ()
      ensures Valid() && fresh(uf) && Root() == map[]
    {
      uf := new Forest();
      comp := map[];
    }

    method Find(x: T) returns (r: T)
      requires Valid()
      modifies this, uf
      ensures Valid() && Root() == WithDefault(old(Root()), x) && r == Root()[x]
    {
      MirrorsFound(comp, uf.root, x);
      r := uf.Find(x);
      RootedIsLabelled(uf.p, uf.root, uf.height, uf.top);
      if r !in comp { comp := comp[r := {x}]; }
    }

    /** Union two clusters and let the surviving root stand for the members of both. */
    method Join(a: T, b: T)
      requires Valid() && a in Root() && b in Root() && !SameLabel(Root(), a, b)
      modifies this, uf
      ensures Valid() && Root() == Merged(old(Root()), a, b)
    {
      ghost var root := uf.root;
      MirrorsMerged(comp, root, a, b);
      var ra := uf.Find(a);
      var rb := uf.Find(b);
      uf.Union(a, b);
      RootedIsLabelled(uf.p, uf.root, uf.height, uf.top);
      var r := uf.Find(a);
      comp := comp[r := comp[ra] + comp[rb]] - {ra};
    }

    /** Union a and b unless that would put a clashing pair into one cluster.  Reports whether the two
        are together afterwards. */
    method GuardedUnion(clash: (T, T) -> bool, a: T, b: T) returns (together: bool)
      requires Valid()
      modifies this, uf
      ensures Valid() && Root() == GuardedStep(old(Root()), clash, a, b)
      ensures together <==> SameLabel(Root(), a, b)
    {
      var ra := Find(a);
      var rb := Find(b);
      if ra == rb {
        return true;
      }
      ClashAcross(comp, Root(), clash, a, b);
      var ma, mb := comp[ra], comp[rb];
      if exists x, y :: x in ma && y in mb && clash(x, y) {
        return false;
      }
      Join(a, b);
      return true;
    }
  }
}
