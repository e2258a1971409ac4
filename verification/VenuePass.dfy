/** `merge_fuzzy_venues`: plan the merges, commit them, and what the pass conserves. */
module VenuePass {
  import opened Collections
  import opened Ids
  import opened UnionFind
  import opened MergePlan
  import opened GuardedClusters
  import opened VenueClusters
  import opened Repoint
  import opened ClusterFolds
  import opened Tables
  import opened VenueMerge

  method MergeFuzzyVenues(db: Db, venues: map<VenueId, Venue>, ratio: (string, string) -> real, rows: seq<Candidate>, apply: bool)
      returns (ghost accepted: set<Pair<VenueId>>, ghost pairs: seq<Pair<VenueId>>)
    requires UniqueKey(db.occs) && forall c <- rows :: c.a in venues && c.b in venues
    modifies db`occs, db`candidates, db`venues
    ensures UniqueKey(db.occs) && IsVenuePlan(venues, ratio, rows, accepted, pairs)
    ensures apply ==> db.occs == OccsFolded(old(db.occs), pairs) && db.candidates == CandidatesFolded(old(db.candidates), pairs)
    ensures apply ==> db.venues == old(db.venues) - Duplicates(pairs)
    ensures !apply ==> db.occs == old(db.occs) && db.candidates == old(db.candidates) && db.venues == old(db.venues)
  {
    var plan := PlanVenueMerges(venues, ratio, rows);
    pairs := plan;
    accepted :| IsVenuePlan(venues, ratio, rows, accepted, plan);
    MergesArePlan(plan, accepted, ByOccurrences(venues));
    CommitVenueMerges(db, plan, apply);
  }

  /** A venue ends the pass showing exactly what its whole cluster showed, and only canonical venues show
      anything: stated over the accepted pairs alone.  Rows without a venue stay. */
  lemma PassConservesBookings(venues: map<VenueId, Venue>, ratio: (string, string) -> real, rows: seq<Candidate>, accepted: set<Pair<VenueId>>,
                              pairs: seq<Pair<VenueId>>, occs: map<nat, Occ>, v: VenueId, b: Booking)
    requires (forall c <- rows :: c.a in venues && c.b in venues) && IsVenuePlan(venues, ratio, rows, accepted, pairs)
    ensures var wins := ByOccurrences(venues);
      HasBooking(OccsFolded(occs, pairs), Some(v), b) <==>
        (v !in Nodes(accepted) && HasBooking(occs, Some(v), b))
        || (Leads(accepted, wins, v, v) && exists d :: d in Nodes(accepted) && Connected(accepted, v, d) && HasBooking(occs, Some(d), b))
    ensures HasBooking(OccsFolded(occs, pairs), None, b) <==> HasBooking(occs, None, b)
  {
    MergesArePlan(pairs, accepted, ByOccurrences(venues));
    CoverageConserved(occs, pairs, v, b);
    FoldIsByCluster(accepted, ByOccurrences(venues), pairs, v, d => HasBooking(occs, Some(d), b));
    assert v in Duplicates(pairs) <==> IsDuplicate(pairs, v);
  }

  lemma {:induction false} AskedHasEvidence(venues: map<VenueId, Venue>, ratio: (string, string) -> real, rows: seq<Candidate>) returns (c: Candidate)
    requires (forall c <- rows :: c.a in venues && c.b in venues) && Asked(venues, ratio, rows) != []
    ensures c in rows && Evidence(venues, ratio, c)
  {
    c := rows[|rows| - 1];
    assert c in rows;
    if !Evidence(venues, ratio, c) { c := AskedHasEvidence(venues, ratio, rows[..|rows| - 1]); }
  }

  lemma {:induction false} AskedAreDifferent(venues: map<VenueId, Venue>, ratio: (string, string) -> real, rows: seq<Candidate>, e: Pair<VenueId>)
    requires (forall c <- rows :: c.a in venues && c.b in venues && c.a != c.b) && e in Asked(venues, ratio, rows)
    ensures e.0 != e.1
  {
    var n := |rows| - 1;
    assert rows[n] in rows;
    if e in Asked(venues, ratio, rows[..n]) { AskedAreDifferent(venues, ratio, rows[..n], e); }
  }

  /** With nothing accepted every venue stands alone, and evidence never contradicts a clash of two names. */
  lemma NothingAccepted(venues: map<VenueId, Venue>, ratio: (string, string) -> real, root: map<VenueId, VenueId>, c: Candidate)
    requires c.a in venues && c.b in venues && c.a != c.b && c.a in root && c.b in root && Represents(root, {})
    requires Connected({}, c.a, c.b) || ClustersClash(root, Clash(venues), c.a, c.b)
    ensures !Evidence(venues, ratio, c)
  {
    forall x, y | x in root && y in root && SameLabel(root, x, y) ensures x == y { assert Closed({}, {x}); }
    assert Closed({}, {c.a});
  }

  lemma AcceptedAreMerged(venues: map<VenueId, Venue>, ratio: (string, string) -> real, rows: seq<Candidate>,
                          accepted: set<Pair<VenueId>>, pairs: seq<Pair<VenueId>>)
    requires (forall c <- rows :: c.a in venues && c.b in venues && c.a != c.b) && IsVenuePlan(venues, ratio, rows, accepted, pairs)
    ensures pairs == [] <==> accepted == {}
  {
    if pairs != [] { assert pairs[0] in pairs; }
    if e: Pair<VenueId> :| e in accepted {
      AskedAreDifferent(venues, ratio, rows, e);
      var d, c := LinkedPairLosesOne(accepted, ByOccurrences(venues), pairs, e);
    }
  }

  /** The pass merges something exactly when some candidate pair carries evidence: the guard can postpone a
      pair for the sake of others but never refuses all. */
  lemma MergesIffEvidence(venues: map<VenueId, Venue>, ratio: (string, string) -> real, rows: seq<Candidate>,
                          accepted: set<Pair<VenueId>>, pairs: seq<Pair<VenueId>>)
    requires (forall c <- rows :: c.a in venues && c.b in venues && c.a != c.b) && IsVenuePlan(venues, ratio, rows, accepted, pairs)
    ensures pairs != [] <==> exists c <- rows :: Evidence(venues, ratio, c)
  {
    AcceptedAreMerged(venues, ratio, rows, accepted, pairs);
    if pairs == [] {
      var root := GuardedRun(map[], Clash(venues), Asked(venues, ratio, rows));
      PlanIsSafeAndMaximal(venues, ratio, rows, root, accepted, pairs);
      forall c | c in rows ensures !Evidence(venues, ratio, c) {
        if Evidence(venues, ratio, c) { NothingAccepted(venues, ratio, root, c); }
      }
    } else {
      var e :| e in accepted;
      var c := AskedHasEvidence(venues, ratio, rows);
    }
  }
}
