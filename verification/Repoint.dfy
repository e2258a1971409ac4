/** Folding the rows of one owner into another under a unique key (owner, tag).

  Both merge passes do the same thing to the occurrence table: drop the rows of the duplicate that the
  canonical owner already has, then repoint the rest.  The event pass owns by event and tags by (venue,
  start); the venue pass owns by venue and tags by (event, start). */
module Repoint {

  datatype Cell<O, T> = Cell(owner: O, tag: T)

  /** The unique key: no two rows share an (owner, tag). */
  ghost predicate Keyed<O, T>(t: map<nat, Cell<O, T>>) {
    forall i, j | i in t && j in t && t[i] == t[j] :: i == j
  }

  ghost predicate Shows<O, T>(t: map<nat, Cell<O, T>>, o: O, g: T) {
    exists i :: i in t && t[i] == Cell(o, g)
  }

  /** The delete and the update for one duplicate d and canonical owner c. */
  ghost function Fold<O, T>(t: map<nat, Cell<O, T>>, d: O, c: O): map<nat, Cell<O, T>> {
    map i | i in t && !(t[i].owner == d && Shows(t, c, t[i].tag)) :: if t[i].owner == d then Cell(c, t[i].tag) else t[i]
  }

  ghost function FoldAll<O, T>(t: map<nat, Cell<O, T>>, pairs: seq<(O, O)>): map<nat, Cell<O, T>> {
    if pairs == [] then t
    else
      var last := pairs[|pairs| - 1];
      Fold(FoldAll(t, pairs[..|pairs| - 1]), last.0, last.1)
  }

  /** A merge list: every duplicate once, and no duplicate is anyone's target. */
  ghost predicate IsPlan<O>(pairs: seq<(O, O)>) {
    && (forall i, j | 0 <= i < j < |pairs| :: pairs[i].0 != pairs[j].0)
    && (forall i, j | 0 <= i < |pairs| && 0 <= j < |pairs| :: pairs[i].0 != pairs[j].1)
  }

  ghost predicate IsDuplicate<O>(pairs: seq<(O, O)>, o: O) {
    exists i :: 0 <= i < |pairs| && pairs[i].0 == o
  }

  lemma FoldKeepsKey<O, T>(t: map<nat, Cell<O, T>>, d: O, c: O)
    requires Keyed(t) && d != c
    ensures Keyed(Fold(t, d, c))
  {
    var t' := Fold(t, d, c);
    forall i, j | i in t' && j in t' && t'[i] == t'[j]
      ensures i == j
    {}
  }

  lemma FoldShows<O, T>(t: map<nat, Cell<O, T>>, d: O, c: O, o: O, g: T)
    requires d != c
    ensures Shows(Fold(t, d, c), o, g) <==> o != d && (Shows(t, o, g) || (o == c && Shows(t, d, g)))
  {
    var t' := Fold(t, d, c);
    if Shows(t', o, g) {
      var i :| i in t' && t'[i] == Cell(o, g);
      assert t[i] == Cell(o, g) || (o == c && t[i] == Cell(d, g));
    }
    if o != d && Shows(t, o, g) {
      var i :| i in t && t[i] == Cell(o, g);
      assert t'[i] == Cell(o, g);
    }
    if o == c && Shows(t, d, g) && !Shows(t, c, g) {
      var i :| i in t && t[i] == Cell(d, g);
      assert t'[i] == Cell(c, g);
    }
  }

  lemma {:induction false} FoldAllKeepsKey<O, T>(t: map<nat, Cell<O, T>>, pairs: seq<(O, O)>)
    requires Keyed(t) && IsPlan(pairs)
    ensures Keyed(FoldAll(t, pairs))
  {
    if pairs != [] {
      var front, last := pairs[..|pairs| - 1], pairs[|pairs| - 1];
      FoldAllKeepsKey(t, front);
      FoldKeepsKey(FoldAll(t, front), last.0, last.1);
    }
  }

  /** After a whole plan a duplicate owns nothing, and every other owner owns exactly its own tags and
      those of the duplicates folded into it. */
  lemma {:induction false} FoldAllShows<O, T>(t: map<nat, Cell<O, T>>, pairs: seq<(O, O)>, o: O, g: T)
    requires IsPlan(pairs)
    ensures Shows(FoldAll(t, pairs), o, g) <==>
      !IsDuplicate(pairs, o) && (Shows(t, o, g) || exists i :: 0 <= i < |pairs| && pairs[i].1 == o && Shows(t, pairs[i].0, g))
  {
    if pairs != [] {
      var n := |pairs| - 1;
      var front, last := pairs[..n], pairs[n];
      FoldAllShows(t, front, o, g);
      FoldAllShows(t, front, last.0, g);
      FoldShows(FoldAll(t, front), last.0, last.1, o, g);
      assert IsDuplicate(pairs, o) <==> IsDuplicate(front, o) || o == last.0 by {
        if IsDuplicate(front, o) { var i :| 0 <= i < n && front[i].0 == o; assert pairs[i].0 == o; }
        if i :| 0 <= i < n && pairs[i].0 == o { assert front[i].0 == o; }
        assert pairs[n].0 == last.0;
      }
      assert (exists i :: 0 <= i < |pairs| && pairs[i].1 == o && Shows(t, pairs[i].0, g)) <==>
             (exists i :: 0 <= i < n && front[i].1 == o && Shows(t, front[i].0, g)) || (last.1 == o && Shows(t, last.0, g)) by {
        if i :| 0 <= i < n && front[i].1 == o && Shows(t, front[i].0, g) { assert pairs[i] == front[i]; }
        if i :| 0 <= i < n && pairs[i].1 == o && Shows(t, pairs[i].0, g) { assert pairs[i] == front[i]; }
        assert pairs[n] == last;
      }
      assert !IsDuplicate(front, last.0);
      assert forall i | 0 <= i < n :: front[i].1 != last.0;
    }
  }

  /** A row of an owner that is no duplicate is left alone: it keeps its number and its content. */
  lemma {:induction false} FoldAllKeepsRows<O, T>(t: map<nat, Cell<O, T>>, pairs: seq<(O, O)>, i: nat)
    requires IsPlan(pairs) && i in t && !IsDuplicate(pairs, t[i].owner)
    ensures i in FoldAll(t, pairs) && FoldAll(t, pairs)[i] == t[i]
  {
    if pairs != [] {
      var n := |pairs| - 1;
      assert pairs[n].0 != t[i].owner;
      assert forall k | 0 <= k < n :: pairs[..n][k] == pairs[k];
      assert !IsDuplicate(pairs[..n], t[i].owner);
      FoldAllKeepsRows(t, pairs[..n], i);
    }
  }
}
