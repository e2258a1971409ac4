/** The path-halving union-find shared by the maintenance passes, and what a series of unions means.

  `Forest` is the `_UF` object of the event and venue passes: one dictionary of parents, updated in
  place.  Its meaning is the ghost labelling `root`.  `Connected` is a definition of the equivalence
  closure of a set of pairs that knows nothing of forests; `Represents` ties the two. */
module UnionFind {
  import opened Collections

  type Pair<T> = (T, T)

  // ----- the equivalence closure of a set of pairs -----

  ghost predicate Closed<T(!new)>(edges: set<Pair<T>>, s: set<T>) {
    forall e <- edges :: e.0 in s <==> e.1 in s
  }

  /** y lies in every set that holds x and is closed under the pairs: the least equivalence. */
  ghost predicate Connected<T(!new)>(edges: set<Pair<T>>, x: T, y: T) {
    forall s: set<T> | Closed(edges, s) && x in s :: y in s
  }

  ghost function Nodes<T(!new)>(edges: set<Pair<T>>): set<T> {
    (set e <- edges :: e.0) + (set e <- edges :: e.1)
  }

  ghost function Edges<T(!new)>(pairs: seq<Pair<T>>): set<Pair<T>> {
    set e | e in pairs
  }

  lemma ConnectedSymmetric<T(!new)>(edges: set<Pair<T>>, x: T, y: T)
    requires Connected(edges, x, y)
    ensures Connected(edges, y, x)
  {
    forall s: set<T> | Closed(edges, s) && y in s
      ensures x in s
    {
      var others := Nodes(edges) + {x} - s;
      if x !in s {
        assert Closed(edges, others);
        assert false;
      }
    }
  }

  lemma ConnectedTransitive<T(!new)>(edges: set<Pair<T>>, x: T, y: T, z: T)
    requires Connected(edges, x, y) && Connected(edges, y, z)
    ensures Connected(edges, x, z)
  {}

  lemma EdgeConnects<T(!new)>(edges: set<Pair<T>>, e: Pair<T>)
    requires e in edges
    ensures Connected(edges, e.0, e.1) && Connected(edges, e.1, e.0)
  {}

  /** Whatever is constant along every pair is constant over every class: the induction principle. */
  lemma ConnectedInvariant<T(!new), U(!new)>(edges: set<Pair<T>>, f: T -> U, x: T, y: T)
    requires forall e <- edges :: f(e.0) == f(e.1)
    requires Connected(edges, x, y)
    ensures f(x) == f(y)
  {
    var same := set z | z in Nodes(edges) + {x, y} && f(z) == f(x);
    assert Closed(edges, same);
  }

  // ----- labellings -----

  /** Lookup under a name of its own, so that the quantifiers below do not chase parents forever. */
  ghost function At<T, U>(m: map<T, U>, x: T): U
    requires x in m
  {
    m[x]
  }

  ghost predicate SameLabel<T>(root: map<T, T>, x: T, y: T)
    requires x in root && y in root
  {
    root[x] == root[y]
  }

  /** Equal labels mean exactly connected by the pairs. */
  ghost predicate Represents<T(!new)>(root: map<T, T>, edges: set<Pair<T>>) {
    && Nodes(edges) <= root.Keys
    && (forall x {:trigger At(root, x)} | x in root :: At(root, x) in root)
    && (forall x, y | x in root && y in root :: SameLabel(root, x, y) <==> Connected(edges, x, y))
  }

  ghost function WithDefault<T(!new)>(root: map<T, T>, x: T): map<T, T> {
    if x in root then root else root[x := x]
  }

  ghost function Merged<T(!new)>(root: map<T, T>, a: T, b: T): map<T, T>
    requires a in root && b in root
  {
    map x <- root :: if root[x] == root[a] then root[b] else root[x]
  }

  lemma LonerIsUnconnected<T(!new)>(edges: set<Pair<T>>, x: T, y: T)
    requires x !in Nodes(edges) && x != y
    ensures !Connected(edges, x, y) && !Connected(edges, y, x)
  {
    assert Closed(edges, {x});
    if Connected(edges, y, x) { ConnectedSymmetric(edges, y, x); }
  }

  /** A node no pair mentions joins as a class of its own. */
  lemma RepresentsDefault<T(!new)>(root: map<T, T>, edges: set<Pair<T>>, x: T)
    requires Represents(root, edges)
    ensures Represents(WithDefault(root, x), edges)
  {
    if x !in root {
      var root' := root[x := x];
      forall y {:trigger At(root', y)} | y in root' ensures At(root', y) in root' {
        if y != x { assert At(root, y) in root; }
      }
      forall y, z | y in root' && z in root'
        ensures SameLabel(root', y, z) <==> Connected(edges, y, z)
      {
        if y in root && z in root {
          assert SameLabel(root', y, z) == SameLabel(root, y, z);
        } else if y != z {
          LonerIsUnconnected(edges, x, if y == x then z else y);
          assert At(root, if y == x then z else y) in root;
        }
      }
    }
  }

  lemma MergedLabelsAreConnected<T(!new)>(root: map<T, T>, edges: set<Pair<T>>, a: T, b: T, x: T, y: T)
    requires Represents(root, edges) && a in root && b in root && x in root && y in root
    requires SameLabel(Merged(root, a, b), x, y)
    ensures Connected(edges + {(a, b)}, x, y)
  {
    var edges' := edges + {(a, b)};
    assert SameLabel(root, x, y) || (SameLabel(root, x, a) && SameLabel(root, b, y)) || (SameLabel(root, x, b) && SameLabel(root, a, y));
    forall s: set<T> | Closed(edges', s) && x in s
      ensures y in s
    {
      assert Closed(edges, s) by {
        forall e <- edges ensures e.0 in s <==> e.1 in s { assert e in edges'; }
      }
      assert (a, b) in edges';
      assert a in s <==> b in s;
    }
  }

  lemma ConnectedNodesShareMergedLabels<T(!new)>(root: map<T, T>, edges: set<Pair<T>>, a: T, b: T, x: T, y: T)
    requires Represents(root, edges) && a in root && b in root && x in root && y in root
    requires Connected(edges + {(a, b)}, x, y)
    ensures SameLabel(Merged(root, a, b), x, y)
  {
    var edges' := edges + {(a, b)};
    var root' := Merged(root, a, b);
    var same := set z | z in root && root'[z] == root'[x];
    forall e <- edges'
      ensures e.0 in same <==> e.1 in same
    {
      if e in edges {
        EdgeConnects(edges, e);
        assert SameLabel(root, e.0, e.1);
      }
    }
    assert Closed(edges', same);
  }

  /** Merging the labels of two nodes is adding the pair to the closure. */
  lemma RepresentsMerged<T(!new)>(root: map<T, T>, edges: set<Pair<T>>, a: T, b: T)
    requires Represents(root, edges) && a in root && b in root
    ensures Represents(Merged(root, a, b), edges + {(a, b)})
  {
    var root' := Merged(root, a, b);
    assert At(root, b) == root[b];
    forall x {:trigger At(root', x)} | x in root' ensures At(root', x) in root' { assert At(root, x) in root; }
    forall x, y | x in root' && y in root'
      ensures SameLabel(root', x, y) <==> Connected(edges + {(a, b)}, x, y)
    {
      if SameLabel(root', x, y) { MergedLabelsAreConnected(root, edges, a, b, x, y); }
      if Connected(edges + {(a, b)}, x, y) { ConnectedNodesShareMergedLabels(root, edges, a, b, x, y); }
    }
  }

  lemma RepresentsUnion<T(!new)>(root: map<T, T>, edges: set<Pair<T>>, a: T, b: T)
    requires Represents(root, edges) && root.Keys == Nodes(edges)
    ensures var root' := Merged(WithDefault(WithDefault(root, b), a), a, b);
      Represents(root', edges + {(a, b)}) && root'.Keys == Nodes(edges + {(a, b)})
  {
    RepresentsDefault(root, edges, b);
    RepresentsDefault(WithDefault(root, b), edges, a);
    RepresentsMerged(WithDefault(WithDefault(root, b), a), edges, a, b);
  }

  // ----- the forest -----

  /** What a parent map means: `root` is constant along parents and fixes the parentless nodes;
      `height` grows strictly towards the root, so following parents ends. */
  ghost predicate Rooted<T(!new)>(p: map<T, T>, root: map<T, T>, height: map<T, int>, top: int) {
    && p.Keys == root.Keys == height.Keys
    && (forall x {:trigger At(p, x)} | x in p ::
          At(p, x) in p && At(root, At(p, x)) == At(root, x) && (At(p, x) == x ==> At(root, x) == x))
    && (forall x {:trigger At(root, x)} | x in p ::
          At(root, x) in p && At(root, At(root, x)) == At(root, x) && At(p, At(root, x)) == At(root, x))
    && (forall x {:trigger At(p, x)} | x in p :: At(p, x) != x ==> At(height, x) < At(height, At(p, x)))
    && (forall x {:trigger At(height, x)} | x in p :: At(height, x) <= top)
  }

  ghost function Climb<T(!new)>(p: map<T, T>, x: T, n: nat): Option<T>
    decreases n
  {
    if x !in p then None else if n == 0 then Some(x) else Climb(p, p[x], n - 1)
  }

  /** The label of a node is where climbing the parents from it ends. */
  lemma {:induction false} RootIsWhereClimbingEnds<T(!new)>(p: map<T, T>, root: map<T, T>, height: map<T, int>, top: int, x: T)
      returns (n: nat)
    requires Rooted(p, root, height, top) && x in p
    ensures Climb(p, x, n) == Some(root[x]) && root[x] in p && p[root[x]] == root[x]
    decreases top - height[x]
  {
    n := 0;
    assert At(p, x) == p[x] && At(height, x) == height[x] && At(root, x) == root[x];
    if p[x] != x {
      assert At(height, p[x]) == height[p[x]] && At(root, p[x]) == root[p[x]];
      var m := RootIsWhereClimbingEnds(p, root, height, top, p[x]);
      n := m + 1;
    }
  }

  lemma NewNodeKeepsRooted<T(!new)>(p: map<T, T>, root: map<T, T>, height: map<T, int>, top: int, x: T)
    requires Rooted(p, root, height, top) && x !in p
    ensures Rooted(p[x := x], root[x := x], height[x := top], top)
  {
    var p', root', height' := p[x := x], root[x := x], height[x := top];
    forall u {:trigger At(p', u)} | u in p' ensures At(p', u) == if u == x then x else At(p, u) {}
    forall u {:trigger At(root', u)} | u in p' ensures At(root', u) == if u == x then x else At(root, u) {}
    forall u {:trigger At(height', u)} | u in p' ensures At(height', u) == if u == x then top else At(height, u) {}
  }

  /** Path halving moves a node to its grandparent, which lies in the same class and is no lower. */
  lemma HalvingKeepsRooted<T(!new)>(p: map<T, T>, root: map<T, T>, height: map<T, int>, top: int, x: T)
    requires Rooted(p, root, height, top) && x in p && p[x] != x
    ensures p[x] in p && p[p[x]] in p && root[p[p[x]]] == root[x]
    ensures height[x] < height[p[p[x]]] <= top
    ensures Rooted(p[x := p[p[x]]], root, height, top)
  {
    var y := At(p, x);
    var z := At(p, y);
    var p' := p[x := z];
    assert At(root, z) == At(root, x) && At(height, x) < At(height, z);
    forall u {:trigger At(p', u)} | u in p
      ensures At(p', u) == if u == x then z else At(p, u)
    {}
  }

  lemma LinkKeepsRooted<T(!new)>(p: map<T, T>, root: map<T, T>, height: map<T, int>, top: int, ra: T, rb: T)
      returns (height': map<T, int>, top': int)
    requires Rooted(p, root, height, top)
    requires ra in root && rb in root && root[ra] == ra && root[rb] == rb
    ensures Rooted(p[ra := rb], Merged(root, ra, rb), height', top')
  {
    var p', root' := p[ra := rb], Merged(root, ra, rb);
    var lift := ra != rb && height[rb] <= height[ra];
    height' := if lift then height[rb := height[ra] + 1] else height;
    top' := if lift then top + 1 else top;
    assert At(root, ra) == ra && At(root, rb) == rb;
    forall u {:trigger At(p', u)} | u in p
      ensures At(p', u) == if u == ra then rb else At(p, u)
    {}
    forall u {:trigger At(root', u)} | u in p
      ensures At(root', u) == if At(root, u) == ra then rb else At(root, u)
    {}
    forall u {:trigger At(height', u)} | u in p
      ensures At(height', u) == if lift && u == rb then At(height, ra) + 1 else At(height, u)
    {}
  }

  class Forest<T(==, !new)> {
    var p: map<T, T>
    ghost var root: map<T, T>
    ghost var height: map<T, int>
    ghost var top: int

    ghost predicate Valid() reads this { Rooted(p, root, height, top) }

    constructor ()
      ensures Valid() && root == map[]
    {
      p, root, height, top := map[], map[], map[], 0;
    }

    /** `setdefault` and then the path-halving walk: no class changes. */
    method Find(x: T) returns (r: T)
      requires Valid()
      modifies this
      ensures Valid() && root == WithDefault(old(root), x)
      ensures r == root[x] && r in root && root[r] == r
    {
      if x !in p {
        NewNodeKeepsRooted(p, root, height, top, x);
        p, root, height := p[x := x], root[x := x], height[x := top];
      }
      var y := x;
      while p[y] != y
        invariant Valid() && root == WithDefault(old(root), x)
        invariant y in p && root[y] == root[x]
        decreases top - height[y]
      {
        HalvingKeepsRooted(p, root, height, top, y);
        p := p[y := p[p[y]]];
        y := p[y];
      }
      assert At(p, y) == p[y] && At(root, y) == root[y];
      r := y;
    }

    /** Hang one root under another, as both `union` and the resplit loop do. */
    method Link(ra: T, rb: T)
      requires Valid() && ra in root && rb in root && root[ra] == ra && root[rb] == rb
      modifies this
      ensures Valid() && root == Merged(old(root), ra, rb)
    {
      ghost var height', top' := LinkKeepsRooted(p, root, height, top, ra, rb);
      p := p[ra := rb];
      root, height, top := Merged(root, ra, rb), height', top';
    }

    method Union(a: T, b: T)
      requires Valid()
      modifies this
      ensures Valid() && root == Merged(WithDefault(WithDefault(old(root), b), a), a, b)
    {
      var rb := Find(b);
      var ra := Find(a);
      Link(ra, rb);
    }
  }
}
