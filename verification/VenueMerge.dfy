/** The repoint half of `merge_fuzzy_venues`: carry out a venue merge plan on the tables. */
module VenueMerge {
  import opened Collections
  import opened Ids
  import opened UnionFind
  import opened Repoint
  import opened Tables

  ghost function OccsFolded(occs: map<nat, Occ>, pairs: seq<Pair<VenueId>>): map<nat, Occ> {
    if pairs == [] then occs
    else
      var (d, c) := pairs[|pairs| - 1];
      VenueRepointed(WithoutVenueCollisions(OccsFolded(occs, pairs[..|pairs| - 1]), d, c), d, c)
  }

  ghost function CandidatesFolded(cands: map<nat, Option<VenueId>>, pairs: seq<Pair<VenueId>>): map<nat, Option<VenueId>> {
    if pairs == [] then cands
    else
      var (d, c) := pairs[|pairs| - 1];
      CandidatesRepointed(CandidatesFolded(cands, pairs[..|pairs| - 1]), d, c)
  }

  ghost function Duplicates(pairs: seq<Pair<VenueId>>): set<VenueId> { set p | p in pairs :: p.0 }

  /** The plan over owners of occurrence rows, some of which have no venue. */
  ghost function Owners(pairs: seq<Pair<VenueId>>): seq<(Option<VenueId>, Option<VenueId>)> {
    seq(|pairs|, i requires 0 <= i < |pairs| => (Some(pairs[i].0), Some(pairs[i].1)))
  }

  lemma OwnersPlan(pairs: seq<Pair<VenueId>>)
    requires IsPlan(pairs)
    ensures IsPlan(Owners(pairs))
    ensures forall v :: v in Duplicates(pairs) <==> IsDuplicate(Owners(pairs), Some(v))
    ensures !IsDuplicate(Owners(pairs), None)
  {
    var o := Owners(pairs);
    forall v
      ensures v in Duplicates(pairs) <==> IsDuplicate(o, Some(v))
    {
      if v in Duplicates(pairs) {
        var k :| 0 <= k < |pairs| && pairs[k].0 == v;
        assert o[k].0 == Some(v);
      }
      if k :| 0 <= k < |o| && o[k].0 == Some(v) { assert pairs[k] in pairs; }
    }
  }

  /** Some row shows this event and start at this venue (or at none). */
  ghost predicate HasBooking(occs: map<nat, Occ>, v: Option<VenueId>, b: Booking) {
    exists i :: i in occs && occs[i].venue == v && occs[i].event == b.event && occs[i].start == b.start
  }

  lemma BookingInView(occs: map<nat, Occ>, v: Option<VenueId>, b: Booking)
    ensures HasBooking(occs, v, b) <==> Shows(ByVenue(occs), v, b)
  {
    var t := ByVenue(occs);
    if HasBooking(occs, v, b) {
      var i :| i in occs && occs[i].venue == v && occs[i].event == b.event && occs[i].start == b.start;
      assert t[i] == Cell(v, b);
    }
    if i :| i in t && t[i] == Cell(v, b) { assert occs[i].venue == v; }
  }

  lemma StepView(occs: map<nat, Occ>, d: VenueId, c: VenueId)
    requires d != c
    ensures ByVenue(VenueRepointed(WithoutVenueCollisions(occs, d, c), d, c)) == Fold(ByVenue(occs), Some(d), Some(c))
  {
    var t := ByVenue(occs);
    var l, r := ByVenue(VenueRepointed(WithoutVenueCollisions(occs, d, c), d, c)), Fold(t, Some(d), Some(c));
    forall i | i in occs
      ensures i in l <==> i in r
      ensures i in l ==> l[i] == r[i]
    {
      BookingInView(occs, Some(c), t[i].tag);
      assert HasBooking(occs, Some(c), t[i].tag) <==> VenueCollides(occs, occs[i], c);
    }
  }

  lemma {:induction false} FoldedView(occs: map<nat, Occ>, pairs: seq<Pair<VenueId>>)
    requires IsPlan(pairs)
    ensures ByVenue(OccsFolded(occs, pairs)) == FoldAll(ByVenue(occs), Owners(pairs))
  {
    if pairs != [] {
      var front := pairs[..|pairs| - 1];
      var (d, c) := pairs[|pairs| - 1];
      FoldedView(occs, front);
      StepView(OccsFolded(occs, front), d, c);
      assert Owners(pairs)[..|pairs| - 1] == Owners(front);
    }
  }

  /** Coverage is conserved: what was shown at any venue of a cluster is shown at its canonical venue and
      nothing else is; merged venues show nothing; rows without a venue stay as they were. */
  lemma CoverageConserved(occs: map<nat, Occ>, pairs: seq<Pair<VenueId>>, v: VenueId, b: Booking)
    requires IsPlan(pairs)
    ensures HasBooking(OccsFolded(occs, pairs), Some(v), b) <==>
      v !in Duplicates(pairs) && (HasBooking(occs, Some(v), b) || exists i :: 0 <= i < |pairs| && pairs[i].1 == v && HasBooking(occs, Some(pairs[i].0), b))
    ensures HasBooking(OccsFolded(occs, pairs), None, b) <==> HasBooking(occs, None, b)
  {
    var t, o := ByVenue(occs), Owners(pairs);
    OwnersPlan(pairs);
    FoldedView(occs, pairs);
    forall w: Option<VenueId>
      ensures HasBooking(OccsFolded(occs, pairs), w, b) <==> Shows(FoldAll(t, o), w, b)
      ensures HasBooking(occs, w, b) <==> Shows(t, w, b)
    {
      BookingInView(OccsFolded(occs, pairs), w, b);
      BookingInView(occs, w, b);
    }
    FoldAllShows(t, o, Some(v), b);
    FoldAllShows(t, o, None, b);
    assert forall i | 0 <= i < |pairs| :: o[i] == (Some(pairs[i].0), Some(pairs[i].1));
  }

  /** Where a plan sends a value. */
  ghost predicate Sends<O>(plan: seq<(O, O)>, v: O, v': O) {
    if IsDuplicate(plan, v) then (v, v') in plan else v' == v
  }

  /** One more merge sends a value on unless an earlier one already did. */
  lemma SendsOn<O>(plan: seq<(O, O)>, v: O, v': O)
    requires IsPlan(plan) && plan != []
    requires var front := plan[..|plan| - 1]; Sends(front, v, v') && !IsDuplicate(front, v')
    ensures var last := plan[|plan| - 1]; var v'' := if v' == last.0 then last.1 else v';
      Sends(plan, v, v'') && !IsDuplicate(plan, v'')
  {
    var n := |plan| - 1;
    assert plan == plan[..n] + [plan[n]];
    if IsDuplicate(plan[..n], v) {
      var k :| 0 <= k < n && plan[k] == (v, v');
    } else if v == plan[n].0 {
      assert plan[n] in plan;
    }
  }

  /** Every candidate keeps its row, and its venue goes where the plan sends it. */
  lemma {:induction false} CandidatesConserved(cands: map<nat, Option<VenueId>>, pairs: seq<Pair<VenueId>>, i: nat)
    requires IsPlan(pairs) && i in cands
    ensures i in CandidatesFolded(cands, pairs) && Sends(Owners(pairs), cands[i], CandidatesFolded(cands, pairs)[i])
    ensures !IsDuplicate(Owners(pairs), CandidatesFolded(cands, pairs)[i])
  {
    if pairs != [] {
      var n := |pairs| - 1;
      var front := pairs[..n];
      CandidatesConserved(cands, front, i);
      OwnersPlan(pairs);
      assert Owners(front) == Owners(pairs)[..n];
      SendsOn(Owners(pairs), cands[i], CandidatesFolded(cands, front)[i]);
    }
  }

  lemma {:induction false} CandidateRowsConserved(cands: map<nat, Option<VenueId>>, pairs: seq<Pair<VenueId>>)
    requires IsPlan(pairs)
    ensures CandidatesFolded(cands, pairs).Keys == cands.Keys
    ensures forall i | i in cands && CandidatesFolded(cands, pairs)[i].Some? :: CandidatesFolded(cands, pairs)[i].value !in Duplicates(pairs)
  {
    SameKeys(cands, pairs);
    OwnersPlan(pairs);
    forall i | i in cands && CandidatesFolded(cands, pairs)[i].Some?
      ensures CandidatesFolded(cands, pairs)[i].value !in Duplicates(pairs)
    {
      CandidatesConserved(cands, pairs, i);
    }
  }

  lemma {:induction false} SameKeys(cands: map<nat, Option<VenueId>>, pairs: seq<Pair<VenueId>>)
    ensures CandidatesFolded(cands, pairs).Keys == cands.Keys
  {
    if pairs != [] { SameKeys(cands, pairs[..|pairs| - 1]); }
  }

  lemma NoRowOfADuplicate(occs: map<nat, Occ>, pairs: seq<Pair<VenueId>>)
    requires IsPlan(pairs)
    ensures forall i | i in OccsFolded(occs, pairs) && OccsFolded(occs, pairs)[i].venue.Some? ::
      OccsFolded(occs, pairs)[i].venue.value !in Duplicates(pairs)
  {
    var folded := OccsFolded(occs, pairs);
    forall i | i in folded && folded[i].venue.Some?
      ensures folded[i].venue.value !in Duplicates(pairs)
    {
      var o := folded[i];
      assert HasBooking(folded, o.venue, Booking(o.event, o.start));
      CoverageConserved(occs, pairs, o.venue.value, Booking(o.event, o.start));
    }
  }

  method FoldPair(db: Db, d: VenueId, c: VenueId)
    requires UniqueKey(db.occs) && d != c
    modifies db`occs, db`candidates
    ensures UniqueKey(db.occs)
    ensures db.occs == VenueRepointed(WithoutVenueCollisions(old(db.occs), d, c), d, c)
    ensures db.candidates == CandidatesRepointed(old(db.candidates), d, c)
  {
    ghost var occs := db.occs;
    db.DeleteVenueCollisions(d, c);
    assert UniqueKey(VenueRepointed(db.occs, d, c)) by {
      StepView(occs, d, c);
      UniqueKeyViews(occs);
      FoldKeepsKey(ByVenue(occs), Some(d), Some(c));
      UniqueKeyViews(VenueRepointed(db.occs, d, c));
    }
    db.RepointVenue(d, c);
    db.RepointCandidates(d, c);
  }

  method FoldPlan(db: Db, pairs: seq<Pair<VenueId>>)
    requires UniqueKey(db.occs) && IsPlan(pairs)
    modifies db`occs, db`candidates
    ensures UniqueKey(db.occs)
    ensures db.occs == OccsFolded(old(db.occs), pairs) && db.candidates == CandidatesFolded(old(db.candidates), pairs)
  {
    for i := 0 to |pairs|
      invariant UniqueKey(db.occs)
      invariant db.occs == OccsFolded(old(db.occs), pairs[..i]) && db.candidates == CandidatesFolded(old(db.candidates), pairs[..i])
    {
      assert pairs[..i + 1][..i] == pairs[..i];
      assert pairs[i].0 != pairs[i].1;
      FoldPair(db, pairs[i].0, pairs[i].1);
    }
    assert pairs[..|pairs|] == pairs;
  }

  /** The closing delete of the merged venues nulls out no occurrence and no candidate. */
  method DeleteMerged(db: Db, dups: set<VenueId>)
    requires UniqueKey(db.occs)
    requires forall i | i in db.occs && db.occs[i].venue.Some? :: db.occs[i].venue.value !in dups
    requires forall i | i in db.candidates && db.candidates[i].Some? :: db.candidates[i].value !in dups
    modifies db`occs, db`candidates, db`venues
    ensures db.occs == old(db.occs) && db.candidates == old(db.candidates) && db.venues == old(db.venues) - dups
  {
    assert db.occs == map i | i in db.occs ::
      if db.occs[i].venue.Some? && db.occs[i].venue.value in dups then db.occs[i].(venue := None) else db.occs[i];
    db.DeleteVenues(dups);
  }

  method CommitVenueMerges(db: Db, pairs: seq<Pair<VenueId>>, apply: bool)
    requires UniqueKey(db.occs) && IsPlan(pairs)
    modifies db`occs, db`candidates, db`venues
    ensures UniqueKey(db.occs)
    ensures apply ==> db.occs == OccsFolded(old(db.occs), pairs) && db.candidates == CandidatesFolded(old(db.candidates), pairs)
    ensures apply ==> db.venues == old(db.venues) - Duplicates(pairs)
    ensures !apply ==> db.occs == old(db.occs) && db.candidates == old(db.candidates) && db.venues == old(db.venues)
  {
    var savedOccs, savedCands, savedVenues := db.occs, db.candidates, db.venues;
    FoldPlan(db, pairs);
    if pairs != [] {
      NoRowOfADuplicate(savedOccs, pairs);
      CandidateRowsConserved(savedCands, pairs);
      DeleteMerged(db, set p | p in pairs :: p.0);
    }
    if !apply {
      db.occs, db.candidates, db.venues := savedOccs, savedCands, savedVenues;
    }
  }
}
