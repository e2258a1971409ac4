/** `_cluster` of the resplit pass: group an event's venues into physical places. */
module PlaceClusters {
  import opened Collections
  import opened Ids
  import opened UnionFind
  import opened GuardedClusters
  import opened MergePlan
  import opened VenueMatch

  function NameIn(names: map<VenueId, string>, v: VenueId): string {
    if v in names then names[v] else ""
  }

  function NamesClash(names: map<VenueId, string>): (clash: (VenueId, VenueId) -> bool)
    ensures Symmetric(clash)
  {
    (x, y) => Contrasts(NameIn(names, x), NameIn(names, y))
  }

  /** Within 200 m of each other, or matching names.  `near` is the distance test. */
  function OnePlace(near: (VenueId, VenueId) -> bool, ratio: (string, string) -> real, names: map<VenueId, string>): (VenueId, VenueId) -> bool {
    (a, b) => near(a, b) || NameMatchScore(ratio, NameIn(names, a), NameIn(names, b)).Some?
  }

  ghost function Alone<T>(ids: set<T>): map<T, T> {
    map v | v in ids :: v
  }

  /** The request between members i and j, if they are `same`. */
  ghost predicate PairAt<T(!new)>(ids: seq<T>, i: int, j: int, same: (T, T) -> bool, p: Pair<T>) {
    0 <= i < j < |ids| && p == (ids[i], ids[j]) && same(ids[i], ids[j])
  }

  /** The requests of the first rows of the double loop: each listed member with each later one that is
      `same`, and no others. */
  ghost predicate SamePairs<T(!new)>(asked: seq<Pair<T>>, ids: seq<T>, rows: nat, same: (T, T) -> bool) {
    && (forall p <- asked :: exists i, j :: i < rows && PairAt(ids, i, j, same, p))
    && (forall i, j, p | i < rows && PairAt(ids, i, j, same, p) :: p in asked)
  }

  /** The labelling is the guarded closure of all `same` pairs. */
  ghost predicate ArePlaces<T(!new)>(root: map<T, T>, ids: seq<T>, same: (T, T) -> bool, clash: (T, T) -> bool) {
    exists asked :: SamePairs(asked, ids, |ids|, same) && root == GuardedRun(Alone(Elements(ids)), clash, asked)
  }

  method Populate<T(==, !new)>(gf: GuardedForest<T>, ids: seq<T>)
    requires gf.Valid() && gf.Root() == map[]
    modifies gf, gf.uf
    ensures gf.Valid() && gf.Root() == Alone(Elements(ids))
  {
    for i := 0 to |ids|
      invariant gf.Valid() && gf.Root() == Alone(Elements(ids[..i]))
    {
      AloneGrows(ids, i);
      var _ := gf.Find(ids[i]);
    }
    assert ids[..|ids|] == ids;
  }

  lemma AloneGrows<T(!new)>(ids: seq<T>, i: nat)
    requires i < |ids|
    ensures Alone(Elements(ids[..i + 1])) == WithDefault(Alone(Elements(ids[..i])), ids[i])
  {
    assert Elements(ids[..i + 1]) == Elements(ids[..i]) + {ids[i]};
  }

  /** One guarded union, recorded. */
  method Ask<T(==, !new)>(gf: GuardedForest<T>, clash: (T, T) -> bool, a: T, b: T, ghost start: map<T, T>, ghost asked: seq<Pair<T>>)
    requires gf.Valid() && gf.Root() == GuardedRun(start, clash, asked)
    modifies gf, gf.uf
    ensures gf.Valid() && gf.Root() == GuardedRun(start, clash, asked + [(a, b)])
  {
    ghost var asked' := asked + [(a, b)];
    assert asked'[..|asked'| - 1] == asked;
    var _ := gf.GuardedUnion(clash, a, b);
  }

  /** The requests of row i up to column `upTo`, after those of the rows before. */
  ghost predicate RowAsked<T(!new)>(asked: seq<Pair<T>>, before: seq<Pair<T>>, ids: seq<T>, i: nat, upTo: int, same: (T, T) -> bool) {
    && (forall p <- before :: p in asked)
    && (forall p <- asked :: p in before || exists j :: j < upTo && PairAt(ids, i, j, same, p))
    && (forall j, p | j < upTo && PairAt(ids, i, j, same, p) :: p in asked)
  }

  lemma RowGrows<T(!new)>(asked: seq<Pair<T>>, before: seq<Pair<T>>, ids: seq<T>, i: nat, j: nat, same: (T, T) -> bool)
    requires i < j < |ids| && RowAsked(asked, before, ids, i, j, same)
    ensures RowAsked(if same(ids[i], ids[j]) then asked + [(ids[i], ids[j])] else asked, before, ids, i, j + 1, same)
  {
    var p := (ids[i], ids[j]);
    if same(ids[i], ids[j]) { assert PairAt(ids, i, j, same, p); }
  }

  lemma RowsGrow<T(!new)>(asked: seq<Pair<T>>, before: seq<Pair<T>>, ids: seq<T>, i: nat, same: (T, T) -> bool)
    requires i < |ids| && SamePairs(before, ids, i, same) && RowAsked(asked, before, ids, i, |ids|, same)
    ensures SamePairs(asked, ids, i + 1, same)
  {}

  /** One row of the double loop: ids[i] against everything after it. */
  method ClusterRow<T(==, !new)>(gf: GuardedForest<T>, ids: seq<T>, i: nat, same: (T, T) -> bool, clash: (T, T) -> bool,
                                 ghost start: map<T, T>, ghost before: seq<Pair<T>>)
      returns (ghost asked: seq<Pair<T>>)
    requires i < |ids| && gf.Valid() && gf.Root() == GuardedRun(start, clash, before)
    modifies gf, gf.uf
    ensures gf.Valid() && gf.Root() == GuardedRun(start, clash, asked)
    ensures RowAsked(asked, before, ids, i, |ids|, same)
  {
    asked := before;
    for j := i + 1 to |ids|
      invariant gf.Valid() && gf.Root() == GuardedRun(start, clash, asked)
      invariant RowAsked(asked, before, ids, i, j, same)
    {
      RowGrows(asked, before, ids, i, j, same);
      if same(ids[i], ids[j]) {
        Ask(gf, clash, ids[i], ids[j], start, asked);
        asked := asked + [(ids[i], ids[j])];
      }
    }
  }

  lemma {:induction false} RunKeepsKeys<T(!new)>(start: map<T, T>, clash: (T, T) -> bool, asked: seq<Pair<T>>, ids: seq<T>)
    requires start.Keys == Elements(ids) && forall p <- asked :: p.0 in ids && p.1 in ids
    ensures GuardedRun(start, clash, asked).Keys == Elements(ids)
  {
    if asked != [] {
      var n := |asked| - 1;
      RunKeepsKeys(start, clash, asked[..n], ids);
      assert asked[n].0 in Elements(ids) && asked[n].1 in Elements(ids);
    }
  }

  lemma AloneRepresentsNothing<T(!new)>(ids: set<T>)
    ensures Represents(Alone(ids), {})
  {
    forall x, y | x in ids && y in ids ensures SameLabel(Alone(ids), x, y) <==> Connected({}, x, y) {
      if x != y { LonerIsUnconnected({}, x, y); }
    }
  }

  lemma SamePairsAreListed<T(!new)>(asked: seq<Pair<T>>, ids: seq<T>, same: (T, T) -> bool)
    requires SamePairs(asked, ids, |ids|, same)
    ensures forall p <- asked :: p.0 in ids && p.1 in ids
    ensures forall i, j | 0 <= i < j < |ids| && same(ids[i], ids[j]) :: (ids[i], ids[j]) in Edges(asked)
  {
    forall i, j | 0 <= i < j < |ids| && same(ids[i], ids[j])
      ensures (ids[i], ids[j]) in Edges(asked)
    {
      assert PairAt(ids, i, j, same, (ids[i], ids[j]));
    }
  }

  /** The places keep clashing members apart, even through a bridge, and two members that are `same` share
      a place unless their places clash. */
  lemma PlacesAreSafeAndMaximal<T(!new)>(root: map<T, T>, ids: seq<T>, same: (T, T) -> bool, clash: (T, T) -> bool)
    requires Symmetric(clash) && ArePlaces(root, ids, same, clash)
    ensures root.Keys == Elements(ids) && Labelled(root) && Safe(root, clash)
    ensures forall i, j | 0 <= i < j < |ids| && same(ids[i], ids[j]) ::
      SameLabel(root, ids[i], ids[j]) || ClustersClash(root, clash, ids[i], ids[j])
  {
    var start := Alone(Elements(ids));
    var asked: seq<Pair<T>> :| SamePairs(asked, ids, |ids|, same) && root == GuardedRun(start, clash, asked);
    SamePairsAreListed(asked, ids, same);
    GuardedRunIsSafeAndMaximal(start, clash, asked);
    RunKeepsKeys(start, clash, asked, ids);
  }

  /** Only a chain of `same` pairs brings members together. */
  lemma OnlySamePairsJoin<T(!new)>(root: map<T, T>, ids: seq<T>, same: (T, T) -> bool, clash: (T, T) -> bool)
      returns (links: set<Pair<T>>)
    requires ArePlaces(root, ids, same, clash)
    ensures forall e <- links :: exists i, j :: PairAt(ids, i, j, same, e)
    ensures Represents(root, links)
  {
    var start := Alone(Elements(ids));
    var asked: seq<Pair<T>> :| SamePairs(asked, ids, |ids|, same) && root == GuardedRun(start, clash, asked);
    AloneRepresentsNothing(Elements(ids));
    links := GuardedRunRepresents(start, clash, asked);
    forall e | e in links ensures exists i, j :: PairAt(ids, i, j, same, e) { assert e in asked; }
  }

  /** The members, grouped by place. */
  ghost predicate GroupsPlaces<T(!new)>(clusters: map<T, seq<T>>, root: map<T, T>, ids: seq<T>, same: (T, T) -> bool, clash: (T, T) -> bool) {
    root.Keys == Elements(ids) && ArePlaces(root, ids, same, clash) && Grouped(clusters, root, Elements(ids))
  }

  method ClusterBy<T(==, !new)>(ids: seq<T>, same: (T, T) -> bool, clash: (T, T) -> bool)
      returns (clusters: map<T, seq<T>>)
    requires Symmetric(clash)
    ensures exists root :: GroupsPlaces(clusters, root, ids, same, clash)
  {
    var gf := new GuardedForest();
    Populate(gf, ids);
    ghost var start := gf.Root();
    ghost var asked: seq<Pair<T>> := [];
    for i := 0 to |ids|
      invariant gf.Valid() && gf.Root() == GuardedRun(start, clash, asked)
      invariant SamePairs(asked, ids, i, same)
    {
      ghost var before := asked;
      asked := ClusterRow(gf, ids, i, same, clash, start, before);
      RowsGrow(asked, before, ids, i, same);
    }
    ghost var root := gf.Root();
    assert ArePlaces(root, ids, same, clash);
    PlacesAreSafeAndMaximal(root, ids, same, clash);
    var members := set v | v in ids;
    clusters := GroupByRoot(gf.uf, members);
    assert GroupsPlaces(clusters, root, ids, same, clash);
  }
}
