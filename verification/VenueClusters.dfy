/** The clustering half of `merge_fuzzy_venues`: which venues are one place, and which of them stays. */
module VenueClusters {
  import opened Ids
  import opened UnionFind
  import opened GuardedClusters
  import opened MergePlan
  import opened VenueMatch

  const SHOW_RADIUS_M := 30.0

  datatype Venue = Venue(name: string, address: string, occurrences: nat)

  /** A venue pair the candidate query yields, with what the database says about it.  `sharesShow` is
      the answer of `_share_same_show`. */
  datatype Candidate = Candidate(a: VenueId, b: VenueId, dist: real, coHost: bool, sharesShow: bool)

  function NameOf(venues: map<VenueId, Venue>, v: VenueId): string {
    if v in venues then venues[v].name else ""
  }

  function Clash(venues: map<VenueId, Venue>): (clash: (VenueId, VenueId) -> bool)
    ensures Symmetric(clash)
  {
    (x, y) => Contrasts(NameOf(venues, x), NameOf(venues, y))
  }

  /** Does the pair carry merge evidence: a matching name, or the same show on the same spot? */
  predicate Evidence(venues: map<VenueId, Venue>, ratio: (string, string) -> real, c: Candidate)
    requires c.a in venues && c.b in venues
  {
    var (va, vb) := (venues[c.a], venues[c.b]);
    var score := NameMatchScore(ratio, va.name, vb.name, c.coHost, va.address, vb.address);
    score.Some? || (c.dist <= SHOW_RADIUS_M && !Contrasts(va.name, vb.name) && c.sharesShow)
  }

  ghost function Asked(venues: map<VenueId, Venue>, ratio: (string, string) -> real, rows: seq<Candidate>): seq<Pair<VenueId>>
    requires forall c <- rows :: c.a in venues && c.b in venues
  {
    if rows == [] then []
    else
      var front, last := rows[..|rows| - 1], rows[|rows| - 1];
      Asked(venues, ratio, front) + if Evidence(venues, ratio, last) then [(last.a, last.b)] else []
  }

  /** Canonical is the venue with most occurrences, then the lowest id. */
  predicate Busier(venues: map<VenueId, Venue>, a: VenueId, b: VenueId) {
    var na := if a in venues then venues[a].occurrences else 0;
    var nb := if b in venues then venues[b].occurrences else 0;
    na > nb || (na == nb && a.n <= b.n)
  }

  function ByOccurrences(venues: map<VenueId, Venue>): (wins: (VenueId, VenueId) -> bool)
    ensures TotalOrder(wins)
  {
    (a, b) => Busier(venues, a, b)
  }

  /** One guarded request; a granted pair goes on the merge list. */
  method Request(gf: GuardedForest<VenueId>, clash: (VenueId, VenueId) -> bool, a: VenueId, b: VenueId, merges: seq<Pair<VenueId>>)
      returns (merges': seq<Pair<VenueId>>)
    requires gf.Valid() && Represents(gf.Root(), Edges(merges))
    modifies gf, gf.uf
    ensures gf.Valid() && gf.Root() == GuardedStep(old(gf.Root()), clash, a, b)
    ensures Represents(gf.Root(), Edges(merges')) && Edges(merges') <= Edges(merges) + {(a, b)}
  {
    GrantedJoins(gf.Root(), clash, Edges(merges), a, b);
    var together := gf.GuardedUnion(clash, a, b);
    merges' := if together then merges + [(a, b)] else merges;
    assert Edges(merges + [(a, b)]) == Edges(merges) + {(a, b)};
  }

  lemma AskedGrows(venues: map<VenueId, Venue>, ratio: (string, string) -> real, rows: seq<Candidate>, i: nat, clash: (VenueId, VenueId) -> bool)
    requires forall c <- rows :: c.a in venues && c.b in venues
    requires i < |rows|
    ensures var asked, asked' := Asked(venues, ratio, rows[..i]), Asked(venues, ratio, rows[..i + 1]);
      if Evidence(venues, ratio, rows[i])
      then Edges(asked') == Edges(asked) + {(rows[i].a, rows[i].b)}
        && GuardedRun(map[], clash, asked') == GuardedStep(GuardedRun(map[], clash, asked), clash, rows[i].a, rows[i].b)
      else asked' == asked
  {
    assert rows[..i + 1][..i] == rows[..i];
    var asked := Asked(venues, ratio, rows[..i]);
    var asked' := asked + [(rows[i].a, rows[i].b)];
    assert asked'[..|asked'| - 1] == asked;
    assert Edges(asked') == Edges(asked) + {(rows[i].a, rows[i].b)};
  }

  method ClusterVenues(gf: GuardedForest<VenueId>, venues: map<VenueId, Venue>, ratio: (string, string) -> real, rows: seq<Candidate>)
      returns (merges: seq<Pair<VenueId>>)
    requires gf.Valid() && gf.Root() == map[]
    requires forall c <- rows :: c.a in venues && c.b in venues
    modifies gf, gf.uf
    ensures gf.Valid() && gf.Root() == GuardedRun(map[], Clash(venues), Asked(venues, ratio, rows))
    ensures Represents(gf.Root(), Edges(merges)) && Edges(merges) <= Edges(Asked(venues, ratio, rows))
  {
    merges := [];
    var clash := Clash(venues);
    for i := 0 to |rows|
      invariant gf.Valid() && gf.Root() == GuardedRun(map[], clash, Asked(venues, ratio, rows[..i]))
      invariant Represents(gf.Root(), Edges(merges)) && Edges(merges) <= Edges(Asked(venues, ratio, rows[..i]))
    {
      var c := rows[i];
      var va, vb := venues[c.a], venues[c.b];
      var score := NameMatchScore(ratio, va.name, vb.name, c.coHost, va.address, vb.address);
      AskedGrows(venues, ratio, rows, i, clash);
      if score.Some? || (c.dist <= SHOW_RADIUS_M && !Contrasts(va.name, vb.name) && c.sharesShow) {
        merges := Request(gf, clash, c.a, c.b, merges);
      }
    }
    assert rows[..|rows|] == rows;
  }

  /** The pairs accepted by the guard, and the merges they call for. */
  ghost predicate IsVenuePlan(venues: map<VenueId, Venue>, ratio: (string, string) -> real, rows: seq<Candidate>,
                              accepted: set<Pair<VenueId>>, pairs: seq<Pair<VenueId>>)
    requires forall c <- rows :: c.a in venues && c.b in venues
  {
    && Represents(GuardedRun(map[], Clash(venues), Asked(venues, ratio, rows)), accepted)
    && accepted <= Edges(Asked(venues, ratio, rows))
    && MergesAre(pairs, accepted, ByOccurrences(venues), Nodes(accepted))
  }

  /** The plan: the merge list of the clusters of the accepted pairs. */
  method PlanVenueMerges(venues: map<VenueId, Venue>, ratio: (string, string) -> real, rows: seq<Candidate>)
      returns (pairs: seq<Pair<VenueId>>)
    requires forall c <- rows :: c.a in venues && c.b in venues
    ensures exists accepted :: IsVenuePlan(venues, ratio, rows, accepted, pairs)
  {
    var gf := new GuardedForest();
    var merges := ClusterVenues(gf, venues, ratio, rows);
    ghost var accepted := Edges(merges);
    var members := (set p | p in merges :: p.0) + (set p | p in merges :: p.1);
    assert members == Nodes(accepted);
    var groups := GroupByRoot(gf.uf, members);
    pairs := MergesOf(groups, ByOccurrences(venues), gf.Root(), accepted);
    assert IsVenuePlan(venues, ratio, rows, accepted, pairs);
  }

  /** No two venues the plan folds into one place, nor either of them and that place, take opposite
      sides; and a pair with evidence ends at one place unless the clusters it ended in clash. */
  lemma PlanIsSafeAndMaximal(venues: map<VenueId, Venue>, ratio: (string, string) -> real, rows: seq<Candidate>,
                             root: map<VenueId, VenueId>, accepted: set<Pair<VenueId>>, pairs: seq<Pair<VenueId>>)
    requires (forall c <- rows :: c.a in venues && c.b in venues) && IsVenuePlan(venues, ratio, rows, accepted, pairs)
    requires root == GuardedRun(map[], Clash(venues), Asked(venues, ratio, rows))
    ensures forall p <- pairs :: !Contrasts(NameOf(venues, p.0), NameOf(venues, p.1))
    ensures forall p <- pairs, q <- pairs | p.1 == q.1 && p.0 != q.0 :: !Contrasts(NameOf(venues, p.0), NameOf(venues, q.0))
    ensures forall c <- rows | Evidence(venues, ratio, c) ::
      c.a in root && c.b in root && (Connected(accepted, c.a, c.b) || ClustersClash(root, Clash(venues), c.a, c.b))
  {
    var clash := Clash(venues);
    var asked := Asked(venues, ratio, rows);
    GuardedRunIsSafeAndMaximal(map[], clash, asked);
    forall p | p in pairs
      ensures p.0 in root && p.1 in root && p.0 != p.1 && SameLabel(root, p.0, p.1) && !clash(p.0, p.1)
    {}
    forall p, q | p in pairs && q in pairs && p.1 == q.1 && p.0 != q.0
      ensures !clash(p.0, q.0)
    {
      assert SameLabel(root, p.0, q.0);
    }
    forall c | c in rows && Evidence(venues, ratio, c)
      ensures c.a in root && c.b in root && (Connected(accepted, c.a, c.b) || ClustersClash(root, clash, c.a, c.b))
    {
      EvidenceIsAsked(venues, ratio, rows, c);
      assert (c.a, c.b) in Edges(asked);
    }
  }

  lemma {:induction false} EvidenceIsAsked(venues: map<VenueId, Venue>, ratio: (string, string) -> real, rows: seq<Candidate>, c: Candidate)
    requires forall c <- rows :: c.a in venues && c.b in venues
    requires c in rows && Evidence(venues, ratio, c)
    ensures (c.a, c.b) in Asked(venues, ratio, rows)
  {
    if c != rows[|rows| - 1] {
      EvidenceIsAsked(venues, ratio, rows[..|rows| - 1], c);
    }
  }

  lemma {:induction false} AskedAreVenues(venues: map<VenueId, Venue>, ratio: (string, string) -> real, rows: seq<Candidate>, e: Pair<VenueId>)
    requires (forall c <- rows :: c.a in venues && c.b in venues) && e in Asked(venues, ratio, rows)
    ensures e.0 in venues && e.1 in venues
  {
    var n := |rows| - 1;
    assert rows[n] in rows;
    if e in Asked(venues, ratio, rows[..n]) { AskedAreVenues(venues, ratio, rows[..n], e); }
  }
}
