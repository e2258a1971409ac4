/** `_subset_extra` against the matchings it looks for: when some walk of the two word sets finds one, when
  some walk misses, which words a walk can leave over, and when no walk misses. */
module GreedyMatching {
  import opened Collections
  import opened TitleMatch

  function Partners(s: string, big: set<string>): set<string> { set u | u in big && StemEq(s, u) }

  /** Each partner of s can be taken by a small word of its own other than s. */
  ghost predicate StarvedBy(small: set<string>, big: set<string>, s: string, g: map<string, string>) {
    && s in small && g.Keys == Partners(s, big) && Injective(g)
    && forall u <- g :: g[u] in small && g[u] != s && StemEq(g[u], u)
  }

  ghost predicate Starvable(small: set<string>, big: set<string>) {
    exists s, g :: StarvedBy(small, big, s, g)
  }

  ghost predicate Matchable(small: set<string>, big: set<string>) {
    exists f: map<string, string> :: Covers(f, small, big)
  }

  ghost predicate Covers(f: map<string, string>, small: set<string>, big: set<string>) {
    f.Keys == small && Injective(f) && forall s <- f :: f[s] in big && StemEq(s, f[s])
  }

  ghost predicate SomeWalkFinds(small: set<string>, big: set<string>) {
    exists p, q :: Lists(p, small) && Lists(q, big) && SubsetExtra(p, q).Some?
  }

  ghost predicate SomeWalkMisses(small: set<string>, big: set<string>) {
    exists p, q :: Lists(p, small) && Lists(q, big) && SubsetExtra(p, q).None?
  }

  ghost predicate SomeWalkLeaves(small: set<string>, big: set<string>, extra: set<string>) {
    exists p, q :: Lists(p, small) && Lists(q, big) && SubsetExtra(p, q) == Some(extra)
  }

  /** Some matching leaves exactly these words of the bigger set. */
  ghost predicate Leaves(small: set<string>, big: set<string>, extra: set<string>) {
    exists f: map<string, string> :: Covers(f, small, big) && extra == big - f.Values
  }

  // ----- a walk that misses -----

  /** Who took what so far. */
  ghost predicate Taken(h: map<string, string>, matched: set<string>, rest: seq<string>, small: set<string>) {
    h.Keys == matched && Injective(h) && forall u <- h :: h[u] in small && h[u] !in rest && StemEq(h[u], u)
  }

  lemma {:induction false} MissMeansStarved(rest: seq<string>, big: seq<string>, matched: set<string>, h: map<string, string>, small: set<string>)
    requires Distinct(rest) && Elements(rest) <= small && Taken(h, matched, rest, small)
    requires Greedy(rest, big, matched).None?
    ensures Starvable(small, Elements(big))
  {
    var s := rest[0];
    assert s in Elements(rest);
    var r := FirstFree(s, big, matched);
    if r.None? {
      var g := map u | u in Partners(s, Elements(big)) :: h[u];
      assert Injective(g) by { forall u, v | u in g && v in g && g[u] == g[v] ensures u == v {} }
      assert StarvedBy(small, Elements(big), s, g);
    } else {
      var tail := rest[1..];
      assert forall x <- tail :: x in rest && x != s;
      var h' := h[r.value := s];
      forall u, v | u in h' && v in h' && h'[u] == h'[v] ensures u == v {
        assert u != r.value ==> h[u] != s;
        assert v != r.value ==> h[v] != s;
      }
      MissMeansStarved(tail, big, matched + {r.value}, h', small);
    }
  }

  // ----- walks made to order -----

  lemma {:induction false} FirstFreeSkips(s: string, pre: seq<string>, post: seq<string>, matched: set<string>)
    requires forall u <- pre :: u in matched
    ensures FirstFree(s, pre + post, matched) == FirstFree(s, post, matched)
  {
    if pre == [] {
      assert pre + post == post;
    } else {
      assert pre[0] in pre;
      assert (pre + post)[1..] == pre[1..] + post;
      assert forall u <- pre[1..] :: u in pre;
      FirstFreeSkips(s, pre[1..], post, matched);
    }
  }

  /** Walking the i-th taker when the i-th partner comes first among those left. */
  ghost predicate InStep(takers: seq<string>, us: seq<string>) {
    |takers| == |us| && Distinct(us) && forall i | 0 <= i < |us| :: StemEq(takers[i], us[i])
  }

  lemma {:induction false} GreedyInStep(takers: seq<string>, us: seq<string>, tail: seq<string>, more: seq<string>, i: nat)
    requires InStep(takers, us) && i <= |us|
    ensures Greedy(takers[i..] + tail, us + more, Elements(us[..i])) == Greedy(tail, us + more, Elements(us))
    decreases |us| - i
  {
    if i == |us| {
      assert takers[i..] + tail == tail && us[..i] == us;
    } else {
      var p := takers[i..] + tail;
      assert p[0] == takers[i] && p[1..] == takers[i + 1..] + tail;
      FirstFreeSkips(takers[i], us[..i], us[i..] + more, Elements(us[..i]));
      assert us[..i] + (us[i..] + more) == us + more;
      assert (us[i..] + more)[0] == us[i];
      assert us[..i + 1] == us[..i] + [us[i]];
      assert Elements(us[..i + 1]) == Elements(us[..i]) + {us[i]};
      GreedyInStep(takers, us, tail, more, i + 1);
    }
  }

  lemma {:induction false} ListOf(s: set<string>) returns (q: seq<string>)
    ensures Lists(q, s)
  {
    if s == {} {
      q := [];
    } else {
      var x :| x in s;
      var r := ListOf(s - {x});
      q := [x] + r;
      assert x !in Elements(r);
      assert forall y :: y in q <==> y == x || y in r;
      assert Elements(q) == Elements(r) + {x};
    }
  }

  /** A list, then the rest of the set. */
  lemma Completed(first: seq<string>, s: set<string>) returns (rest: seq<string>)
    requires Distinct(first) && Elements(first) <= s
    ensures Lists(first + rest, s)
  {
    rest := ListOf(s - Elements(first));
    forall i, j | 0 <= i < j < |first + rest| ensures (first + rest)[i] != (first + rest)[j] {
      if i < |first| <= j { assert first[i] in Elements(first) && rest[j - |first|] in Elements(rest); }
    }
    assert Elements(first + rest) == Elements(first) + Elements(rest);
  }

  function Images(p: seq<string>, f: map<string, string>): (q: seq<string>)
    requires forall x <- p :: x in f
    ensures |q| == |p| && forall i | 0 <= i < |p| :: q[i] == f[p[i]]
  {
    seq(|p|, i requires 0 <= i < |p| => assert p[i] in p; f[p[i]])
  }

  lemma ImagesDistinct(p: seq<string>, f: map<string, string>)
    requires (forall x <- p :: x in f) && Distinct(p) && Injective(f)
    ensures Distinct(Images(p, f))
  {
    var q := Images(p, f);
    forall i, j | 0 <= i < j < |q| ensures q[i] != q[j] { assert p[i] in f && p[j] in f; }
  }

  lemma StarvedMisses(s: string, tail: seq<string>, q: seq<string>, matched: set<string>)
    requires forall v <- q :: v in matched || !StemEq(s, v)
    ensures Greedy([s] + tail, q, matched).None?
  {
    assert ([s] + tail)[0] == s;
  }

  lemma TakersAreSmall(small: set<string>, big: set<string>, s: string, g: map<string, string>, us: seq<string>) returns (takers: seq<string>)
    requires StarvedBy(small, big, s, g) && Lists(us, Partners(s, big))
    ensures InStep(takers, us) && Distinct(takers + [s]) && Elements(takers + [s]) <= small
  {
    assert forall u <- us :: u in Elements(us) && u in g;
    takers := Images(us, g);
    ImagesDistinct(us, g);
    forall i | 0 <= i < |us| ensures takers[i] in small && takers[i] != s && StemEq(takers[i], us[i]) { assert us[i] in g; }
  }

  lemma WalkInStepMisses(takers: seq<string>, us: seq<string>, s: string, tail: seq<string>, more: seq<string>)
    requires InStep(takers, us) && forall v <- us + more :: v in us || !StemEq(s, v)
    ensures SubsetExtra(takers + [s] + tail, us + more).None?
  {
    GreedyInStep(takers, us, [s] + tail, more, 0);
    assert takers[0..] + ([s] + tail) == takers + [s] + tail;
    assert us[..0] == [] && Elements(us[..0]) == {};
    StarvedMisses(s, tail, us + more, Elements(us));
  }

  lemma StarvingWalk(small: set<string>, big: set<string>, s: string, g: map<string, string>)
    requires StarvedBy(small, big, s, g)
    ensures SomeWalkMisses(small, big)
  {
    var us := ListOf(Partners(s, big));
    var takers := TakersAreSmall(small, big, s, g, us);
    var tail := Completed(takers + [s], small);
    var more := Completed(us, big);
    forall v | v in us + more ensures v in us || !StemEq(s, v) {
      assert v in Elements(us + more);
      assert v in Partners(s, big) ==> v in Elements(us);
    }
    WalkInStepMisses(takers, us, s, tail, more);
  }

  lemma ImagesAreValues(p: seq<string>, f: map<string, string>)
    requires Elements(p) == f.Keys && forall x <- p :: x in f
    ensures Elements(Images(p, f)) == f.Values
  {
    var q := Images(p, f);
    forall u | u in f.Values ensures u in q {
      var s :| s in f && f[s] == u;
      assert s in Elements(p);
      var i :| 0 <= i < |p| && p[i] == s;
      assert q[i] == u;
    }
    forall u | u in q ensures u in f.Values {
      var i :| 0 <= i < |q| && q[i] == u;
      assert p[i] in f && f[p[i]] == u;
    }
  }

  lemma WalkInStepFinds(p: seq<string>, us: seq<string>, more: seq<string>)
    requires InStep(p, us)
    ensures SubsetExtra(p, us + more) == Some(Elements(us + more) - Elements(us))
  {
    GreedyInStep(p, us, [], more, 0);
    assert p[0..] + [] == p && us[..0] == [] && Elements(us[..0]) == {};
  }

  lemma FindingWalk(small: set<string>, big: set<string>, f: map<string, string>)
    requires Covers(f, small, big)
    ensures SomeWalkLeaves(small, big, big - f.Values)
  {
    var p := ListOf(small);
    assert forall s <- p :: s in Elements(p) && s in f;
    var us := Images(p, f);
    ImagesDistinct(p, f);
    ImagesAreValues(p, f);
    forall i | 0 <= i < |p| ensures us[i] in big && StemEq(p[i], us[i]) { assert p[i] in f; }
    var more := Completed(us, big);
    WalkInStepFinds(p, us, more);
  }

  // ----- the exact conditions -----

  /** A walk can leave over exactly the words that some matching leaves over. */
  lemma WalkLeavesIff(small: set<string>, big: set<string>, extra: set<string>)
    ensures SomeWalkLeaves(small, big, extra) <==> Leaves(small, big, extra)
  {
    if SomeWalkLeaves(small, big, extra) {
      var p, q :| Lists(p, small) && Lists(q, big) && SubsetExtra(p, q) == Some(extra);
      var f := SubsetExtraIsSound(p, q);
      forall s | s in f ensures f[s] in big { assert f[s] in Elements(q); }
      assert Covers(f, small, big);
    }
    if Leaves(small, big, extra) {
      var f: map<string, string> :| Covers(f, small, big) && extra == big - f.Values;
      FindingWalk(small, big, f);
    }
  }

  /** Some walk finds a match exactly when there is one; some walk misses exactly when a word can be starved.
      So whether one is found depends on the walk if and only if both hold. */
  lemma WalkDecidesIff(small: set<string>, big: set<string>)
    ensures SomeWalkFinds(small, big) <==> Matchable(small, big)
    ensures SomeWalkMisses(small, big) <==> Starvable(small, big)
  {
    if SomeWalkFinds(small, big) {
      var p, q :| Lists(p, small) && Lists(q, big) && SubsetExtra(p, q).Some?;
      WalkLeavesIff(small, big, SubsetExtra(p, q).value);
    }
    if Matchable(small, big) {
      var f: map<string, string> :| Covers(f, small, big);
      FindingWalk(small, big, f);
    }
    if SomeWalkMisses(small, big) {
      var p, q :| Lists(p, small) && Lists(q, big) && SubsetExtra(p, q).None?;
      MissMeansStarved(p, q, {}, map[], small);
    }
    if Starvable(small, big) {
      var s, g :| StarvedBy(small, big, s, g);
      StarvingWalk(small, big, s, g);
    }
  }

  /** Stem matching sorts the small words into classes: two that share a partner share all. */
  ghost predicate StemClasses(small: set<string>, big: set<string>) {
    forall s, t, u, v | s in small && t in small && u in big && v in big && StemEq(s, u) && StemEq(t, u) && StemEq(s, v) :: StemEq(t, v)
  }

  /** A small word that shares a partner with s is sent to a partner of s. */
  lemma ClassMatesStayHome(small: set<string>, big: set<string>, f: map<string, string>, s: string, g: map<string, string>, t: string)
    requires StemClasses(small, big) && Covers(f, small, big) && StarvedBy(small, big, s, g)
    requires t in g.Values + {s}
    ensures t in f && f[t] in g.Keys
  {
    assert f[t] in big && StemEq(t, f[t]);
    if t != s {
      var u :| u in g && g[u] == t;
      assert u in big && StemEq(s, u) && StemEq(t, u);
    }
  }

  /** One more key than partners cannot be sent to the partners without sharing. */
  lemma OneTooMany<T>(f: map<T, T>, g: map<T, T>, s: T)
    requires Injective(f) && Injective(g) && s !in g.Values
    ensures exists t :: t in g.Values + {s} && (t !in f || f[t] !in g.Keys)
  {
    var mates := g.Values + {s};
    InjectiveSize(g);
    if forall t <- mates :: t in f && f[t] in g.Keys {
      Pigeonhole(f, mates, g.Keys);
      assert false;
    }
  }

  lemma ClassesCannotStarve(small: set<string>, big: set<string>, f: map<string, string>, s: string, g: map<string, string>)
    requires StemClasses(small, big) && Covers(f, small, big)
    ensures !StarvedBy(small, big, s, g)
  {
    if StarvedBy(small, big, s, g) {
      OneTooMany(f, g, s);
      var t :| t in g.Values + {s} && (t !in f || f[t] !in g.Keys);
      ClassMatesStayHome(small, big, f, s, g, t);
      assert false;
    }
  }

  /** On stem classes greedy is complete: every walk finds a match if there is one. */
  lemma GreedyIsCompleteOnClasses(small: seq<string>, big: seq<string>)
    requires Distinct(small) && Distinct(big) && StemClasses(Elements(small), Elements(big))
    ensures SubsetExtra(small, big).Some? <==> Matchable(Elements(small), Elements(big))
  {
    var s, b := Elements(small), Elements(big);
    WalkDecidesIff(s, b);
    assert Lists(small, s) && Lists(big, b);
    if Matchable(s, b) && SubsetExtra(small, big).None? {
      var f: map<string, string> :| Covers(f, s, b);
      var t, g :| StarvedBy(s, b, t, g);
      ClassesCannotStarve(s, b, f, t, g);
    }
  }

  // ----- two words against two or three -----

  lemma PairCovers(small: set<string>, big: set<string>, s: string, t: string, u: string, v: string) returns (f: map<string, string>)
    requires small == {s, t} && s != t && u != v && u in big && v in big && StemEq(s, u) && StemEq(t, v)
    ensures Covers(f, small, big) && f.Values == {u, v}
  {
    f := PairMaps(small, big, (x: string, y: string) => StemEq(x, y), s, t, u, v);
  }

  lemma PairMatches(small: set<string>, big: set<string>, s: string, t: string, u: string, v: string)
    requires small == {s, t} && s != t && u != v && u in big && v in big && StemEq(s, u) && StemEq(t, v)
    ensures Leaves(small, big, big - {u, v}) && Matchable(small, big)
  {
    var f := PairCovers(small, big, s, t, u, v);
  }

  lemma OnePartnerStarves(small: set<string>, big: set<string>, s: string, t: string, u: string)
    requires s in small && t in small && s != t && Partners(t, big) == {u} && StemEq(s, u)
    ensures Starvable(small, big)
  {
    var g := map[u := s];
    assert StarvedBy(small, big, t, g);
  }

  /** The two small words are sent across. */
  lemma CrossMatches(small: set<string>, big: set<string>, s: string, t: string, u: string, v: string)
    requires small == {s, t} && big == {u, v} && s != t && u != v && StemEq(s, v) && StemEq(t, u)
    ensures Matchable(small, big)
  {
    PairMatches(small, big, s, t, v, u);
  }

  /** The second small word has one partner, and the first can take it. */
  lemma SecondStarves(small: set<string>, big: set<string>, s: string, t: string, u: string, v: string)
    requires small == {s, t} && big == {u, v} && s != t && u != v && StemEq(s, u) && StemEq(t, u) && !StemEq(t, v)
    ensures Starvable(small, big)
  {
    assert Partners(t, big) == {u};
    OnePartnerStarves(small, big, s, t, u);
  }

  lemma OneOfThree<T>(s: T, t: T, u: T)
    requires s != t && s != u && t != u
    ensures {s, t, u} - {s, t} == {u} && {s, t, u} - {s, u} == {t}
  {}

  /** Words that stay are their own partners. */
  lemma StayingHome(small: set<string>, big: set<string>, extra: set<string>)
    requires small <= big && extra == big - small
    ensures Leaves(small, big, extra)
  {
    var f := map x | x in small :: x;
    forall x <- small ensures StemEq(x, x) { StemEqReflexive(x); }
    assert f.Values == small by {
      forall x <- small ensures x in f.Values { assert f[x] == x; }
    }
    assert Covers(f, small, big);
  }

  lemma StemEqReflexive(s: string)
    ensures StemEq(s, s)
  {}

  /** A word and its echo: the echo may be left over. */
  lemma EchoIsLeft(small: set<string>, big: set<string>, s: string, t: string, u: string)
    requires small == {s, t} && big == {s, t, u} && s != t && s != u && t != u
    ensures Leaves(small, big, {u})
  {
    OneOfThree(s, t, u);
    StayingHome(small, big, {u});
  }

  /** Or the word itself. */
  lemma WordIsLeft(small: set<string>, big: set<string>, s: string, t: string, u: string)
    requires small == {s, t} && big == {s, t, u} && s != t && s != u && t != u && StemEq(t, u)
    ensures Leaves(small, big, {t})
  {
    PairMatches(small, big, s, t, s, u);
    OneOfThree(s, t, u);
  }

  lemma TwoApart<T(!new)>(small: set<T>, big: set<T>, rel: (T, T) -> bool, s: T, t: T, u: T)
    requires small == {s, t} && big == {s, t, u} && !rel(s, t) && !rel(t, s) && !rel(s, u)
    ensures forall x, y, v | x in small && y in small && v in big && rel(x, v) && rel(y, v) :: x == y
  {}

  /** And yet words that share a partner share all. */
  lemma EchoHasClasses(small: set<string>, big: set<string>, s: string, t: string, u: string)
    requires small == {s, t} && big == {s, t, u} && !StemEq(s, t) && !StemEq(s, u)
    ensures StemClasses(small, big)
  {
    var rel := (x: string, y: string) => StemEq(x, y);
    StemEqSymmetric(s, t);
    TwoApart(small, big, rel, s, t, u);
    assert forall x, y :: rel(x, y) == StemEq(x, y);
  }
}
