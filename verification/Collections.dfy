/** Small facts about sets and sequences that the passes share. */
module Collections {

  datatype Option<+T> = None | Some(value: T)

  ghost predicate Distinct<T>(s: seq<T>) {
    forall i, j :: 0 <= i < j < |s| ==> s[i] != s[j]
  }

  function Elements<T>(s: seq<T>): set<T> {
    set x | x in s
  }

  lemma {:induction false} DistinctSize<T>(s: seq<T>)
    requires Distinct(s)
    ensures |Elements(s)| == |s|
  {
    if s != [] {
      var front := s[..|s| - 1];
      DistinctSize(front);
      assert s == front + [s[|s| - 1]];
      assert Elements(s) == Elements(front) + {s[|s| - 1]};
    }
  }

  ghost predicate Injective<K, V>(f: map<K, V>) {
    forall s, t | s in f && t in f && f[s] == f[t] :: s == t
  }

  lemma {:induction false} InjectiveSize<K, V>(f: map<K, V>)
    requires Injective(f)
    ensures |f.Values| == |f.Keys|
    decreases |f.Keys|
  {
    if f.Keys == {} {
      assert f.Values == {};
    } else {
      var s :| s in f;
      var g := map t | t in f && t != s :: f[t];
      assert g.Keys == f.Keys - {s};
      assert Injective(g) by {
        forall t, u | t in g && u in g && g[t] == g[u] ensures t == u {}
      }
      InjectiveSize(g);
      forall v | v in f.Values ensures v in g.Values + {f[s]} {
        var t :| t in f && f[t] == v;
        if t != s { assert g[t] == v; }
      }
      assert f[s] !in g.Values;
      assert f.Values == g.Values + {f[s]};
    }
  }

  /** One more element of a walk is done. */
  lemma DoneGrows<T>(all: set<T>, rest: set<T>, x: T)
    requires rest <= all && x in rest
    ensures all - (rest - {x}) == all - rest + {x} && x !in all - rest
  {}

  /** The next element of a walk over a set, whichever the walk yields. */
  method Any<T>(s: set<T>) returns (x: T)
    requires s != {}
    ensures x in s
  {
    x :| x in s;
  }

  /** The elements of a set in the order some walk yields them. */
  method SeqOf<T(==)>(s: set<T>) returns (q: seq<T>)
    ensures Distinct(q) && Elements(q) == s
  {
    q := [];
    var rest := s;
    while rest != {}
      invariant rest <= s && Distinct(q) && Elements(q) == s - rest
      decreases rest
    {
      var x := Any(rest);
      DoneGrows(s, rest, x);
      assert Elements(q + [x]) == Elements(q) + {x};
      q, rest := q + [x], rest - {x};
    }
    assert s - rest == s;
  }

  function Least(s: seq<int>): (m: Option<int>)
    ensures m.None? <==> s == []
    ensures m.Some? ==> m.value in s && forall x <- s :: m.value <= x
  {
    if s == [] then None
    else
      var m := Least(s[..|s| - 1]);
      var x := s[|s| - 1];
      assert s == s[..|s| - 1] + [x];
      Some(if m.Some? && m.value <= x then m.value else x)
  }

  function Greatest(s: seq<int>): (m: Option<int>)
    ensures m.None? <==> s == []
    ensures m.Some? ==> m.value in s && forall x <- s :: x <= m.value
  {
    if s == [] then None
    else
      var m := Greatest(s[..|s| - 1]);
      var x := s[|s| - 1];
      assert s == s[..|s| - 1] + [x];
      Some(if m.Some? && m.value >= x then m.value else x)
  }

  lemma OneMore(a: nat, n: nat)
    ensures a * (n + 1) == a * n + a
  {}

  lemma {:induction false} SubsetSize<T>(a: set<T>, b: set<T>)
    requires a <= b
    ensures |a| <= |b|
    decreases |a|
  {
    if a != {} {
      var x :| x in a;
      SubsetSize(a - {x}, b - {x});
    }
  }

  /** An injective map that sends one set into another does not shrink it. */
  lemma Pigeonhole<K, V>(f: map<K, V>, s: set<K>, t: set<V>)
    requires Injective(f) && s <= f.Keys && forall x <- s :: f[x] in t
    ensures |s| <= |t|
  {
    var h := map x | x in s :: f[x];
    assert Injective(h) by { forall x, y | x in h && y in h && h[x] == h[y] ensures x == y {} }
    InjectiveSize(h);
    assert h.Keys == s && h.Values <= t;
    SubsetSize(h.Values, t);
  }

  lemma TwoKeys<K, V>(m: map<K, V>, k: K, l: K, v: V, w: V)
    requires k != l && v != w && m == map[k := v, l := w]
    ensures m.Keys == {k, l} && m.Values == {v, w} && Injective(m)
    ensures forall x <- m :: (x == k && m[x] == v) || (x == l && m[x] == w)
  {
    assert m[k] == v && m[l] == w;
  }

  /** Two keys sent to two members they are related to. */
  lemma PairMaps<T(!new)>(small: set<T>, big: set<T>, rel: (T, T) -> bool, s: T, t: T, u: T, v: T) returns (f: map<T, T>)
    requires small == {s, t} && s != t && u != v && u in big && v in big && rel(s, u) && rel(t, v)
    ensures f.Keys == small && f.Values == {u, v} && Injective(f) && forall x <- f :: f[x] in big && rel(x, f[x])
  {
    f := map[s := u, t := v];
    TwoKeys(f, s, t, u, v);
  }
}
