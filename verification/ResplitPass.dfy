/** The whole resplit pass, on table values: what holds between two events of it, and what it leaves. */
module ResplitPass {
  import opened Collections
  import opened Ids
  import opened MergePlan
  import opened Tables
  import opened ResplitPlan

  ghost predicate Multi(occs: map<nat, Occ>, e: EventId) { !OneVenue(occs, e) }

  /** What the pass leaves alone: rows without a venue, and everything of events that had one venue. */
  ghost predicate Untouched(before: map<nat, Occ>, after: map<nat, Occ>) {
    && after.Keys <= before.Keys
    && forall i | i in before && (before[i].venue.None? || OneVenue(before, before[i].event)) :: i in after && after[i] == before[i]
  }

  /** The events still to do have not been touched. */
  ghost predicate SameRowsOf(before: map<nat, Occ>, now: map<nat, Occ>, e: EventId) {
    && (forall i | i in before && before[i].event == e :: i in now && now[i] == before[i])
    && (forall i | i in now && now[i].event == e :: i in before && before[i] == now[i])
  }

  lemma OtherEventsKeepTheirRows(occs: map<nat, Occ>, eid: EventId, p: Plan, e: EventId)
    requires GoodPlan(occs, eid, p) && e != eid && e !in p.target.Values
    ensures SameRowsOf(occs, Resplitted(occs, eid, p), e)
  {
    forall i | i in Resplitted(occs, eid, p) && Resplitted(occs, eid, p)[i].event == e
      ensures occs[i] == Resplitted(occs, eid, p)[i]
    {
      RowAfterResplit(occs, eid, p, i);
    }
  }

  function MultiEvents(occs: map<nat, Occ>): set<EventId> {
    set i, j | i in occs && j in occs && occs[i].event == occs[j].event && occs[i].venue.Some? && occs[j].venue.Some? && occs[i].venue != occs[j].venue :: occs[i].event
  }

  lemma MultiEventsAre(occs: map<nat, Occ>, e: EventId)
    ensures e in MultiEvents(occs) <==> Multi(occs, e)
  {
    if Multi(occs, e) {
      var i, j :| i in occs && j in occs && InScope(occs[i], e) && InScope(occs[j], e) && occs[i].venue != occs[j].venue;
      assert occs[i].event in MultiEvents(occs);
    }
  }

  /** What holds between two events of the pass. */
  ghost predicate Between(occs: map<nat, Occ>, now: map<nat, Occ>, todo: set<EventId>) {
    && (forall e :: Multi(now, e) ==> e in todo)
    && (forall e <- todo :: Multi(occs, e) && SameRowsOf(occs, now, e))
    && Untouched(occs, now)
  }

  /** An event still to do has venues to place. */
  lemma StepFacts(occs: map<nat, Occ>, now: map<nat, Occ>, eid: EventId)
    requires Multi(occs, eid) && SameRowsOf(occs, now, eid)
    ensures VenuesOf(now, eid) != {} && exists i :: i in now && now[i].event == eid
  {
    var i, j :| i in occs && j in occs && InScope(occs[i], eid) && InScope(occs[j], eid) && occs[i].venue != occs[j].venue;
    assert now[i].venue.value in VenuesOf(now, eid);
  }

  lemma StepLeavesFewerMulti(now: map<nat, Occ>, eid: EventId, p: Plan, e: EventId)
    requires GoodPlan(now, eid, p) && Multi(Resplitted(now, eid, p), e)
    ensures e != eid && Multi(now, e)
  {
    if e == eid || e in p.target.Values || OneVenue(now, e) { ResplitLeavesOneVenue(now, eid, p, e); }
  }

  lemma StepKeepsWaiting(occs: map<nat, Occ>, now: map<nat, Occ>, eid: EventId, p: Plan, e: EventId, before: map<EventId, Event>, after: map<EventId, Event>)
    requires GoodPlan(now, eid, p) && Targets(p.target, eid, p.primary, before, after) && e != eid
    requires Multi(occs, e) && SameRowsOf(occs, now, e)
    requires forall i | i in now :: now[i].event in before
    ensures SameRowsOf(occs, Resplitted(now, eid, p), e)
  {
    StepFacts(occs, now, e);
    var i :| i in now && now[i].event == e;
    assert e in before && e !in p.target.Values;
    OtherEventsKeepTheirRows(now, eid, p, e);
  }

  lemma StepUntouched(occs: map<nat, Occ>, now: map<nat, Occ>, eid: EventId, p: Plan)
    requires GoodPlan(now, eid, p) && Multi(occs, eid) && SameRowsOf(occs, now, eid) && Untouched(occs, now)
    ensures Untouched(occs, Resplitted(now, eid, p))
  {
    var t := Resplitted(now, eid, p);
    ResplitTouchesOnlyScope(now, eid, p);
    forall i | i in occs && (occs[i].venue.None? || OneVenue(occs, occs[i].event))
      ensures i in t && t[i] == occs[i]
    {
      assert i in now && now[i] == occs[i];
      assert !InScope(now[i], eid);
    }
  }

  lemma FewerMulti(now: map<nat, Occ>, eid: EventId, p: Plan, todo: set<EventId>)
    requires GoodPlan(now, eid, p) && forall e :: Multi(now, e) ==> e in todo
    ensures forall e :: Multi(Resplitted(now, eid, p), e) ==> e in todo - {eid}
  {
    forall e | Multi(Resplitted(now, eid, p), e) ensures e in todo - {eid} { StepLeavesFewerMulti(now, eid, p, e); }
  }

  lemma WaitingKept(occs: map<nat, Occ>, now: map<nat, Occ>, eid: EventId, p: Plan, todo: set<EventId>,
                    before: map<EventId, Event>, after: map<EventId, Event>)
    requires GoodPlan(now, eid, p) && Targets(p.target, eid, p.primary, before, after)
    requires forall e <- todo :: Multi(occs, e) && SameRowsOf(occs, now, e)
    requires forall i | i in now :: now[i].event in before
    ensures forall e <- todo - {eid} :: Multi(occs, e) && SameRowsOf(occs, Resplitted(now, eid, p), e)
  {
    forall e | e in todo - {eid}
      ensures Multi(occs, e) && SameRowsOf(occs, Resplitted(now, eid, p), e)
    {
      StepKeepsWaiting(occs, now, eid, p, e, before, after);
    }
  }

  lemma PassStepKeeps(occs: map<nat, Occ>, now: map<nat, Occ>, eid: EventId, p: Plan, todo: set<EventId>,
                  before: map<EventId, Event>, after: map<EventId, Event>)
    requires GoodPlan(now, eid, p) && eid in todo && Targets(p.target, eid, p.primary, before, after)
    requires Between(occs, now, todo)
    requires forall i | i in now :: now[i].event in before
    ensures Between(occs, Resplitted(now, eid, p), todo - {eid})
  {
    FewerMulti(now, eid, p, todo);
    WaitingKept(occs, now, eid, p, todo, before, after);
    StepUntouched(occs, now, eid, p);
  }

  // ----- what the pass did -----

  /** The row of an event that was planned: gone or retargeted, exactly as its plan says. */
  ghost predicate RowFollows(occs: map<nat, Occ>, now: map<nat, Occ>, e: EventId, p: Plan, i: nat)
    requires VenuesPlaced(occs, e, p)
  {
    (i in now <==> i in Resplitted(occs, e, p)) && (i in now ==> now[i] == Resplitted(occs, e, p)[i])
  }

  ghost predicate RowsFollow(occs: map<nat, Occ>, now: map<nat, Occ>, e: EventId, p: Plan)
    requires VenuesPlaced(occs, e, p)
  {
    forall i | i in occs && occs[i].event == e :: RowFollows(occs, now, e, p, i)
  }

  /** The event had the plan its own rows called for, and its rows follow it. */
  ghost predicate EventPassed(occs: map<nat, Occ>, now: map<nat, Occ>, e: EventId, p: Plan,
                              same: (VenueId, VenueId) -> bool, clash: (VenueId, VenueId) -> bool) {
    IsPlanFor(occs, e, p, same, clash) && RowsFollow(occs, now, e, p)
  }

  ghost predicate Passed(occs: map<nat, Occ>, now: map<nat, Occ>, plans: map<EventId, Plan>,
                         same: (VenueId, VenueId) -> bool, clash: (VenueId, VenueId) -> bool) {
    forall e <- plans :: EventPassed(occs, now, e, plans[e], same, clash)
  }

  lemma PlacedAlike(occs: map<nat, Occ>, now: map<nat, Occ>, e: EventId, p: Plan)
    requires SameRowsOf(occs, now, e) && VenuesPlaced(now, e, p)
    ensures VenuesPlaced(occs, e, p)
  {
    forall i | i in occs && InScope(occs[i], e) ensures occs[i].venue.value in p.place { assert InScope(now[i], e); }
  }

  lemma CountedAlike(occs: map<nat, Occ>, now: map<nat, Occ>, e: EventId)
    requires SameRowsOf(occs, now, e)
    ensures VenuesOf(occs, e) == VenuesOf(now, e)
    ensures forall v :: RowsAt(occs, e, v) == RowsAt(now, e, v)
    ensures forall c :: RowsIn(occs, e, c) == RowsIn(now, e, c)
  {
    forall v ensures RowsAt(occs, e, v) == RowsAt(now, e, v) {
      assert (set i | i in occs && occs[i].event == e && occs[i].venue == Some(v))
          == (set i | i in now && now[i].event == e && now[i].venue == Some(v));
    }
    forall c ensures RowsIn(occs, e, c) == RowsIn(now, e, c) {
      assert (set i | i in occs && InScope(occs[i], e) && occs[i].venue.value in c)
          == (set i | i in now && InScope(now[i], e) && now[i].venue.value in c);
    }
    forall v ensures v in VenuesOf(occs, e) <==> v in VenuesOf(now, e) {
      if v in VenuesOf(occs, e) {
        var i :| i in occs && InScope(occs[i], e) && occs[i].venue.value == v;
        assert InScope(now[i], e) && now[i].venue.value == v;
      }
      if v in VenuesOf(now, e) {
        var i :| i in now && InScope(now[i], e) && now[i].venue.value == v;
        assert InScope(occs[i], e) && occs[i].venue.value == v;
      }
    }
  }

  lemma ChosenAlike(occs: map<nat, Occ>, now: map<nat, Occ>, e: EventId, clusters: map<VenueId, seq<VenueId>>, canon: map<VenueId, VenueId>, primary: VenueId)
    requires forall v :: RowsAt(occs, e, v) == RowsAt(now, e, v)
    requires forall c :: RowsIn(occs, e, c) == RowsIn(now, e, c)
    requires BestChoices(now, e, clusters, canon, primary)
    ensures BestChoices(occs, e, clusters, canon, primary)
  {
    forall k | k in clusters
      ensures forall v <- clusters[k] :: Heavier(CountOf(occs, e), ById, canon[k], v)
    {
      forall v | v in clusters[k] ensures Heavier(CountOf(occs, e), ById, canon[k], v) {
        assert Heavier(CountOf(now, e), ById, canon[k], v);
      }
    }
  }

  /** The plan made in the middle of the pass is the plan for the event as the pass found it. */
  lemma PlannedAlike(occs: map<nat, Occ>, now: map<nat, Occ>, e: EventId, p: Plan, same: (VenueId, VenueId) -> bool, clash: (VenueId, VenueId) -> bool)
    requires SameRowsOf(occs, now, e) && IsPlanFor(now, e, p, same, clash)
    ensures IsPlanFor(occs, e, p, same, clash)
  {
    PlacedAlike(occs, now, e, p);
    CountedAlike(occs, now, e);
    var clusters :| ArePlacesOf(now, e, clusters, p.place, same, clash) && BestChoices(now, e, clusters, p.canon, p.primary);
    ChosenAlike(occs, now, e, clusters, p.canon, p.primary);
    assert ArePlacesOf(occs, e, clusters, p.place, same, clash);
  }

  lemma ResplittedAlike(occs: map<nat, Occ>, now: map<nat, Occ>, e: EventId, p: Plan, i: nat)
    requires SameRowsOf(occs, now, e) && VenuesPlaced(now, e, p) && VenuesPlaced(occs, e, p)
    requires i in occs && occs[i].event == e
    ensures RowFollows(occs, Resplitted(now, e, p), e, p, i)
  {
    if occs[i].venue.Some? {
      assert SlotOf(p, occs[i]) in AllSlots(occs, e, p) && SlotOf(p, now[i]) in AllSlots(now, e, p);
      assert Survives(occs, e, p, i) <==> Survives(now, e, p, i) by {
        forall j ensures InSlot(occs, e, p, j, SlotOf(p, occs[i])) <==> InSlot(now, e, p, j, SlotOf(p, occs[i])) {}
      }
    }
  }

  /** A later event's step does not reach the rows of an event already done. */
  lemma DoneRowsStay(occs: map<nat, Occ>, now: map<nat, Occ>, eid: EventId, p: Plan, e: EventId, q: Plan)
    requires SameRowsOf(occs, now, eid) && VenuesPlaced(now, eid, p) && e != eid
    requires VenuesPlaced(occs, e, q) && RowsFollow(occs, now, e, q)
    ensures RowsFollow(occs, Resplitted(now, eid, p), e, q)
  {
    forall i | i in occs && occs[i].event == e
      ensures RowFollows(occs, Resplitted(now, eid, p), e, q, i)
    {
      assert RowFollows(occs, now, e, q, i);
      assert i in now ==> now[i].event != eid;
    }
  }

  lemma EventIsPassed(occs: map<nat, Occ>, now: map<nat, Occ>, eid: EventId, p: Plan, same: (VenueId, VenueId) -> bool, clash: (VenueId, VenueId) -> bool)
    requires SameRowsOf(occs, now, eid) && IsPlanFor(now, eid, p, same, clash)
    ensures EventPassed(occs, Resplitted(now, eid, p), eid, p, same, clash)
  {
    PlannedAlike(occs, now, eid, p, same, clash);
    forall i | i in occs && occs[i].event == eid
      ensures RowFollows(occs, Resplitted(now, eid, p), eid, p, i)
    {
      ResplittedAlike(occs, now, eid, p, i);
    }
  }

  lemma EventStaysPassed(occs: map<nat, Occ>, now: map<nat, Occ>, eid: EventId, p: Plan, e: EventId, q: Plan,
                         same: (VenueId, VenueId) -> bool, clash: (VenueId, VenueId) -> bool)
    requires SameRowsOf(occs, now, eid) && VenuesPlaced(now, eid, p) && e != eid && EventPassed(occs, now, e, q, same, clash)
    ensures EventPassed(occs, Resplitted(now, eid, p), e, q, same, clash)
  {
    DoneRowsStay(occs, now, eid, p, e, q);
  }

  lemma OthersStayPassed(occs: map<nat, Occ>, now: map<nat, Occ>, plans: map<EventId, Plan>, eid: EventId, p: Plan,
                         same: (VenueId, VenueId) -> bool, clash: (VenueId, VenueId) -> bool)
    requires Passed(occs, now, plans, same, clash) && eid !in plans
    requires SameRowsOf(occs, now, eid) && VenuesPlaced(now, eid, p)
    ensures Passed(occs, Resplitted(now, eid, p), plans, same, clash)
  {
    var now' := Resplitted(now, eid, p);
    forall e | e in plans
      ensures EventPassed(occs, now', e, plans[e], same, clash)
    {
      assert EventPassed(occs, now, e, plans[e], same, clash);
      EventStaysPassed(occs, now, eid, p, e, plans[e], same, clash);
    }
  }

  lemma OneMorePassed(occs: map<nat, Occ>, now: map<nat, Occ>, plans: map<EventId, Plan>, eid: EventId, p: Plan,
                      same: (VenueId, VenueId) -> bool, clash: (VenueId, VenueId) -> bool)
    requires Passed(occs, now, plans, same, clash) && EventPassed(occs, now, eid, p, same, clash)
    ensures Passed(occs, now, plans[eid := p], same, clash)
  {}

  lemma PassedGrows(occs: map<nat, Occ>, now: map<nat, Occ>, plans: map<EventId, Plan>, eid: EventId, p: Plan,
                    same: (VenueId, VenueId) -> bool, clash: (VenueId, VenueId) -> bool)
    requires Passed(occs, now, plans, same, clash) && eid !in plans
    requires SameRowsOf(occs, now, eid) && VenuesPlaced(now, eid, p) && IsPlanFor(now, eid, p, same, clash)
    ensures Passed(occs, Resplitted(now, eid, p), plans[eid := p], same, clash)
  {
    EventIsPassed(occs, now, eid, p, same, clash);
    OthersStayPassed(occs, now, plans, eid, p, same, clash);
    OneMorePassed(occs, Resplitted(now, eid, p), plans, eid, p, same, clash);
  }

  /** Coverage is conserved by the whole pass: each showing with a venue of a planned event is left exactly
      once, at the canonical venue of its place and on the event that keeps the place. */
  lemma PassKeepsEveryShowing(occs: map<nat, Occ>, now: map<nat, Occ>, plans: map<EventId, Plan>,
                              same: (VenueId, VenueId) -> bool, clash: (VenueId, VenueId) -> bool, i: nat) returns (j: nat)
    requires Passed(occs, now, plans, same, clash) && i in occs && occs[i].event in plans && occs[i].venue.Some?
    ensures var e := occs[i].event; var p := plans[e];
      && VenuesPlaced(occs, e, p)
      && j in now && InSlot(occs, e, p, j, SlotOf(p, occs[i])) && now[j] == Retargeted(p, occs[j])
      && forall k | k in now && InSlot(occs, e, p, k, SlotOf(p, occs[i])) :: k == j
  {
    var e := occs[i].event;
    var p := plans[e];
    assert EventPassed(occs, now, e, p, same, clash);
    j := EachShowingSurvivesOnce(occs, e, p, i);
    assert RowFollows(occs, now, e, p, j);
    forall k | k in now && InSlot(occs, e, p, k, SlotOf(p, occs[i]))
      ensures k == j
    {
      assert RowFollows(occs, now, e, p, k);
    }
  }

  // ----- sources and copies -----

  ghost predicate CarriesUrl(occs: map<nat, Occ>, e: EventId, i: nat, url: string) {
    i in occs && InScope(occs[i], e) && occs[i].url == url && url != ""
  }

  /** A source goes with a row of its event that carries its URL; without such a row it stays. */
  ghost predicate SourceFollows(occs: map<nat, Occ>, e: EventId, p: Plan, src: Source, src': Source)
    requires VenuesPlaced(occs, e, p)
  {
    if exists i :: CarriesUrl(occs, e, i, src.url)
    then exists i :: CarriesUrl(occs, e, i, src.url) && src' == src.(event := Retargeted(p, occs[i]).event)
    else src' == src
  }

  /** One source: it follows its event's plan, or is as it was if its event was not in the pass so far. */
  ghost predicate SourcePassed(occs: map<nat, Occ>, plans: map<EventId, Plan>, src: Source, src': Source) {
    if src.event in plans
    then VenuesPlaced(occs, src.event, plans[src.event]) && SourceFollows(occs, src.event, plans[src.event], src, src')
    else src' == src
  }

  ghost predicate SourcesPassed(occs: map<nat, Occ>, before: map<nat, Source>, now: map<nat, Source>, plans: map<EventId, Plan>) {
    now.Keys == before.Keys && forall i | i in before :: SourcePassed(occs, plans, before[i], now[i])
  }

  /** The primary place stays on its event; every other place got a copy of it, of its own. */
  ghost predicate CopiesOf(before: map<EventId, Event>, now: map<EventId, Event>, e: EventId, p: Plan) {
    && e in before && p.primary in p.target && p.target[p.primary] == e
    && forall k <- p.target :: k != p.primary ==> p.target[k] !in before && p.target[k] in now && now[p.target[k]] == before[e]
  }

  /** No event is the target of two places. */
  ghost predicate TargetsApart(plans: map<EventId, Plan>) {
    forall e, f, k, l | e in plans && f in plans && k in plans[e].target && l in plans[f].target && plans[e].target[k] == plans[f].target[l] ::
      e == f && k == l
  }

  ghost predicate OnlyCopiesAdded(before: map<EventId, Event>, now: map<EventId, Event>, plans: map<EventId, Plan>) {
    && (forall e <- before :: e in now && now[e] == before[e])
    && (forall x <- now :: x in before || exists e :: e in plans && x in plans[e].target.Values)
  }

  /** The pass adds those copies and nothing else. */
  ghost predicate EventsPassed(before: map<EventId, Event>, now: map<EventId, Event>, plans: map<EventId, Plan>) {
    OnlyCopiesAdded(before, now, plans) && TargetsApart(plans) && forall e <- plans :: CopiesOf(before, now, e, plans[e])
  }

  lemma OnlyCopiesAddedGrows(before: map<EventId, Event>, now: map<EventId, Event>, now': map<EventId, Event>, plans: map<EventId, Plan>, eid: EventId, p: Plan)
    requires OnlyCopiesAdded(before, now, plans) && eid !in plans
    requires Targets(p.target, eid, p.primary, now, now')
    ensures OnlyCopiesAdded(before, now', plans[eid := p])
  {
    var plans' := plans[eid := p];
    forall x | x in now' && x !in before
      ensures exists e :: e in plans' && x in plans'[e].target.Values
    {
      if x in now {
        var e :| e in plans && x in plans[e].target.Values;
        assert e in plans' && x in plans'[e].target.Values;
      } else {
        assert eid in plans' && x in plans'[eid].target.Values;
      }
    }
  }

  lemma TargetsApartGrows(before: map<EventId, Event>, now: map<EventId, Event>, now': map<EventId, Event>, plans: map<EventId, Plan>, eid: EventId, p: Plan)
    requires EventsPassed(before, now, plans) && eid in before && eid !in plans
    requires Targets(p.target, eid, p.primary, now, now')
    ensures TargetsApart(plans[eid := p])
  {
    var plans' := plans[eid := p];
    forall e, k | e in plans && k in plans[e].target ensures plans[e].target[k] !in p.target.Values {
      OldTargetIsOld(before, now, plans, e, k);
    }
    forall e, f, k, l | e in plans' && f in plans' && k in plans'[e].target && l in plans'[f].target && plans'[e].target[k] == plans'[f].target[l]
      ensures e == f && k == l
    {
      if e != eid { assert e in plans; }
      if f != eid { assert f in plans; }
    }
  }

  lemma CopiesStay(before: map<EventId, Event>, now: map<EventId, Event>, now': map<EventId, Event>, plans: map<EventId, Plan>)
    requires (forall e <- plans :: CopiesOf(before, now, e, plans[e])) && forall e <- now :: e in now' && now'[e] == now[e]
    ensures forall e <- plans :: CopiesOf(before, now', e, plans[e])
  {
    forall e | e in plans ensures CopiesOf(before, now', e, plans[e]) { assert CopiesOf(before, now, e, plans[e]); }
  }

  lemma NewCopies(before: map<EventId, Event>, now: map<EventId, Event>, now': map<EventId, Event>, eid: EventId, p: Plan)
    requires (forall e <- before :: e in now && now[e] == before[e]) && eid in before
    requires Targets(p.target, eid, p.primary, now, now')
    ensures CopiesOf(before, now', eid, p)
  {}

  lemma OneMoreCopied(before: map<EventId, Event>, now: map<EventId, Event>, plans: map<EventId, Plan>, eid: EventId, p: Plan)
    requires (forall e <- plans :: CopiesOf(before, now, e, plans[e])) && CopiesOf(before, now, eid, p)
    ensures var plans' := plans[eid := p]; forall e <- plans' :: CopiesOf(before, now, e, plans'[e])
  {}

  lemma EventsPassedGrows(before: map<EventId, Event>, now: map<EventId, Event>, now': map<EventId, Event>, plans: map<EventId, Plan>, eid: EventId, p: Plan)
    requires EventsPassed(before, now, plans) && eid in before && eid !in plans
    requires Targets(p.target, eid, p.primary, now, now')
    ensures EventsPassed(before, now', plans[eid := p])
  {
    OnlyCopiesAddedGrows(before, now, now', plans, eid, p);
    TargetsApartGrows(before, now, now', plans, eid, p);
    CopiesStay(before, now, now', plans);
    NewCopies(before, now, now', eid, p);
    OneMoreCopied(before, now', plans, eid, p);
  }

  lemma OldTargetIsOld(before: map<EventId, Event>, now: map<EventId, Event>, plans: map<EventId, Plan>, e: EventId, k: VenueId)
    requires EventsPassed(before, now, plans) && e in plans && k in plans[e].target
    ensures plans[e].target[k] in now && (plans[e].target[k] in before ==> plans[e].target[k] == e)
  {
    assert CopiesOf(before, now, e, plans[e]);
  }

  lemma MovedSourceFollows(occs: map<nat, Occ>, now: map<nat, Occ>, eid: EventId, p: Plan, byUrl: map<string, VenueId>, src: Source)
    requires SameRowsOf(occs, now, eid) && VenuesPlaced(occs, eid, p) && VenuesPlaced(now, eid, p)
    requires UrlIndex(byUrl, now, ScopeRows(now, eid), eid, p.place) && p.target[p.primary] == eid && src.event == eid
    ensures SourceFollows(occs, eid, p, src, MovedSource(src, eid, p, byUrl))
  {
    if i: nat :| CarriesUrl(occs, eid, i, src.url) {
      assert i in ScopeRows(now, eid) && now[i].url in byUrl;
      var j :| j in ScopeRows(now, eid) && now[j].url == src.url && p.place[now[j].venue.value] == byUrl[src.url];
      assert CarriesUrl(occs, eid, j, src.url);
      assert MovedSource(src, eid, p, byUrl) == src.(event := Retargeted(p, occs[j]).event);
    } else if src.url in byUrl {
      var j :| j in ScopeRows(now, eid) && now[j].url == src.url && p.place[now[j].venue.value] == byUrl[src.url];
      assert CarriesUrl(occs, eid, j, src.url);
    }
  }

  lemma DoneSourceStays(occs: map<nat, Occ>, before: map<EventId, Event>, events: map<EventId, Event>, plans: map<EventId, Plan>, src: Source, src': Source, eid: EventId)
    requires EventsPassed(before, events, plans) && SourcePassed(occs, plans, src, src') && src.event in plans
    requires eid in before && eid !in plans
    ensures src'.event != eid
  {
    var p := plans[src.event];
    if exists i :: CarriesUrl(occs, src.event, i, src.url) {
      var i :| CarriesUrl(occs, src.event, i, src.url) && src' == src.(event := Retargeted(p, occs[i]).event);
      OldTargetIsOld(before, events, plans, src.event, p.place[occs[i].venue.value]);
    }
  }

  lemma SourcesPassedGrows(occs: map<nat, Occ>, nowOccs: map<nat, Occ>, before: map<nat, Source>, now: map<nat, Source>, plans: map<EventId, Plan>,
                           eid: EventId, p: Plan, byUrl: map<string, VenueId>, events0: map<EventId, Event>, events: map<EventId, Event>)
    requires SourcesPassed(occs, before, now, plans) && EventsPassed(events0, events, plans) && eid in events0 && eid !in plans
    requires SameRowsOf(occs, nowOccs, eid) && VenuesPlaced(nowOccs, eid, p) && p.target[p.primary] == eid
    requires UrlIndex(byUrl, nowOccs, ScopeRows(nowOccs, eid), eid, p.place)
    ensures SourcesPassed(occs, before, SourcesMoved(now, eid, p, byUrl), plans[eid := p])
  {
    PlacedAlike(occs, nowOccs, eid, p);
    forall i | i in before
      ensures SourcePassed(occs, plans[eid := p], before[i], MovedSource(now[i], eid, p, byUrl))
    {
      assert SourcePassed(occs, plans, before[i], now[i]);
      if before[i].event == eid {
        MovedSourceFollows(occs, nowOccs, eid, p, byUrl, before[i]);
      } else if before[i].event in plans {
        DoneSourceStays(occs, events0, events, plans, before[i], now[i], eid);
      }
    }
  }

  // ----- one event of the pass -----

  ghost predicate KeysHold(now: Snapshot) {
    && UniqueKey(now.occs)
    && (forall i | i in now.occs :: now.occs[i].event in now.events)
    && (forall i | i in now.sources :: now.sources[i].event in now.events)
  }

  ghost predicate DoneAndWaiting(occs: map<nat, Occ>, plans: map<EventId, Plan>, todo: set<EventId>) {
    todo <= MultiEvents(occs) && plans.Keys == MultiEvents(occs) - todo
  }

  lemma OneMoreDone(occs: map<nat, Occ>, plans: map<EventId, Plan>, todo: set<EventId>, eid: EventId, p: Plan)
    requires DoneAndWaiting(occs, plans, todo) && eid in todo
    ensures DoneAndWaiting(occs, plans[eid := p], todo - {eid}) && eid !in plans
  {}

  /** How far the pass has come: the events in `todo` wait untouched, those in `plans` are done. */
  ghost predicate PassedSoFar(before: Snapshot, now: Snapshot, plans: map<EventId, Plan>, todo: set<EventId>,
                              same: (VenueId, VenueId) -> bool, clash: (VenueId, VenueId) -> bool) {
    && KeysHold(before) && KeysHold(now) && DoneAndWaiting(before.occs, plans, todo)
    && Between(before.occs, now.occs, todo) && Passed(before.occs, now.occs, plans, same, clash)
    && SourcesPassed(before.occs, before.sources, now.sources, plans) && EventsPassed(before.events, now.events, plans)
  }

  /** A plan for the rows of an event, with copies for its places. */
  ghost predicate Planned(now: Snapshot, eid: EventId, p: Plan, events: map<EventId, Event>,
                          same: (VenueId, VenueId) -> bool, clash: (VenueId, VenueId) -> bool) {
    GoodPlan(now.occs, eid, p) && IsPlanFor(now.occs, eid, p, same, clash) && Targets(p.target, eid, p.primary, now.events, events)
  }

  /** The plans for an event, as a function value: a method that carries one through its steps compares it as a
      whole and takes the predicate apart only in the lemma that needs a part of it. */
  ghost function PlansFor(now: Snapshot, eid: EventId, same: (VenueId, VenueId) -> bool, clash: (VenueId, VenueId) -> bool):
      (Plan, map<EventId, Event>) -> bool
  {
    (p, events) => Planned(now, eid, p, events, same, clash)
  }

  lemma PlansAreGood(now: Snapshot, eid: EventId, same: (VenueId, VenueId) -> bool, clash: (VenueId, VenueId) -> bool, p: Plan, events: map<EventId, Event>)
    requires PlansFor(now, eid, same, clash)(p, events)
    ensures GoodPlan(now.occs, eid, p)
  {}

  lemma WaitingEventIsThere(before: Snapshot, now: Snapshot, todo: set<EventId>, eid: EventId)
    requires Between(before.occs, now.occs, todo) && KeysHold(before) && KeysHold(now) && eid in todo
    ensures eid in before.events && eid in now.events && VenuesOf(now.occs, eid) != {} && SameRowsOf(before.occs, now.occs, eid)
  {
    StepFacts(before.occs, now.occs, eid);
    var i :| i in now.occs && now.occs[i].event == eid;
    assert before.occs[i].event == eid;
  }

  /** The state of the pass, as a function value for the same reason: the loop over the events carries all of it
      and looks into none. */
  ghost function PassState(before: Snapshot, same: (VenueId, VenueId) -> bool, clash: (VenueId, VenueId) -> bool):
      (Snapshot, map<EventId, Plan>, set<EventId>) -> bool
  {
    (now, plans, todo) => PassedSoFar(before, now, plans, todo, same, clash)
  }

  lemma PassStarts(before: Snapshot, same: (VenueId, VenueId) -> bool, clash: (VenueId, VenueId) -> bool)
    requires KeysHold(before)
    ensures PassState(before, same, clash)(before, map[], MultiEvents(before.occs))
  {
    forall e ensures e in MultiEvents(before.occs) <==> Multi(before.occs, e) { MultiEventsAre(before.occs, e); }
  }

  lemma PassEnds(before: Snapshot, now: Snapshot, plans: map<EventId, Plan>, same: (VenueId, VenueId) -> bool, clash: (VenueId, VenueId) -> bool)
    requires PassState(before, same, clash)(now, plans, {})
    ensures MultiEvents(now.occs) == {}
  {
    forall e ensures e !in MultiEvents(now.occs) { MultiEventsAre(now.occs, e); }
  }

  lemma NextEvent(before: Snapshot, now: Snapshot, plans: map<EventId, Plan>, todo: set<EventId>, eid: EventId,
                  same: (VenueId, VenueId) -> bool, clash: (VenueId, VenueId) -> bool)
    requires PassState(before, same, clash)(now, plans, todo) && eid in todo
    ensures KeysHold(now) && eid in now.events && VenuesOf(now.occs, eid) != {}
  {
    WaitingEventIsThere(before, now, todo, eid);
  }

  lemma OneEventFurther(before: Snapshot, now: Snapshot, plans: map<EventId, Plan>, todo: set<EventId>, eid: EventId, p: Plan,
                        byUrl: map<string, VenueId>, events: map<EventId, Event>, same: (VenueId, VenueId) -> bool, clash: (VenueId, VenueId) -> bool)
    requires PassedSoFar(before, now, plans, todo, same, clash) && eid in todo && Planned(now, eid, p, events, same, clash)
    requires UrlIndex(byUrl, now.occs, ScopeRows(now.occs, eid), eid, p.place)
    requires UniqueKey(Resplitted(now.occs, eid, p))
    ensures PassedSoFar(before, Snapshot(Resplitted(now.occs, eid, p), SourcesMoved(now.sources, eid, p, byUrl), events),
                        plans[eid := p], todo - {eid}, same, clash)
  {
    OneMoreDone(before.occs, plans, todo, eid, p);
    WaitingEventIsThere(before, now, todo, eid);
    ForeignKeysKept(now.occs, now.sources, eid, p, byUrl, now.events, events);
    PassStepKeeps(before.occs, now.occs, eid, p, todo, now.events, events);
    PassedGrows(before.occs, now.occs, plans, eid, p, same, clash);
    SourcesPassedGrows(before.occs, now.occs, before.sources, now.sources, plans, eid, p, byUrl, before.events, now.events);
    EventsPassedGrows(before.events, now.events, events, plans, eid, p);
  }

  /** One event's rows and sources, carried out as planned. */
  ghost predicate CarriedOut(now: Snapshot, now': Snapshot, eid: EventId, p: Plan, byUrl: map<string, VenueId>) {
    && GoodPlan(now.occs, eid, p)
    && UrlIndex(byUrl, now.occs, ScopeRows(now.occs, eid), eid, p.place) && UniqueKey(now'.occs)
    && now'.occs == Resplitted(now.occs, eid, p) && now'.sources == SourcesMoved(now.sources, eid, p, byUrl)
  }

  /** A plan carried out, as a function value. */
  ghost function Carried(now: Snapshot, eid: EventId): (Snapshot, Plan, map<string, VenueId>) -> bool {
    (now': Snapshot, p: Plan, byUrl: map<string, VenueId>) => CarriedOut(now, now', eid, p, byUrl)
  }

  /** One event planned and carried out, as a function value again. */
  ghost function Outcomes(now: Snapshot, eid: EventId, same: (VenueId, VenueId) -> bool, clash: (VenueId, VenueId) -> bool):
      (Snapshot, Plan, map<string, VenueId>) -> bool
  {
    (now': Snapshot, p: Plan, byUrl: map<string, VenueId>) => Planned(now, eid, p, now'.events, same, clash) && CarriedOut(now, now', eid, p, byUrl)
  }

  lemma OutcomeIsReady(now: Snapshot, mid: Snapshot, now': Snapshot, eid: EventId, p: Plan, byUrl: map<string, VenueId>,
                       same: (VenueId, VenueId) -> bool, clash: (VenueId, VenueId) -> bool)
    requires mid.occs == now.occs && mid.sources == now.sources && now'.events == mid.events
    requires PlansFor(now, eid, same, clash)(p, mid.events) && Carried(mid, eid)(now', p, byUrl)
    ensures Outcomes(now, eid, same, clash)(now', p, byUrl)
  {}

  lemma PlanIsGood(now: Snapshot, eid: EventId, p: Plan, clusters: map<VenueId, seq<VenueId>>, events: map<EventId, Event>)
    requires KeysHold(now) && Grouped(clusters, p.place, VenuesOf(now.occs, eid)) && p.place.Keys == VenuesOf(now.occs, eid)
    requires BestChoices(now.occs, eid, clusters, p.canon, p.primary)
    requires Targets(p.target, eid, p.primary, now.events, events) && p.target.Keys == clusters.Keys
    ensures GoodPlan(now.occs, eid, p)
  {
    PlanPlacesVenues(now.occs, eid, p, clusters);
    PlanTargetsFresh(now.occs, eid, p, now.events, events);
  }

  lemma PlanIsFor(occs: map<nat, Occ>, eid: EventId, p: Plan, clusters: map<VenueId, seq<VenueId>>,
                  same: (VenueId, VenueId) -> bool, clash: (VenueId, VenueId) -> bool)
    requires VenuesPlaced(occs, eid, p)
    requires ArePlacesOf(occs, eid, clusters, p.place, same, clash) && BestChoices(occs, eid, clusters, p.canon, p.primary)
    ensures IsPlanFor(occs, eid, p, same, clash)
  {}

  lemma PlanIsReady(now: Snapshot, eid: EventId, p: Plan, clusters: map<VenueId, seq<VenueId>>, events: map<EventId, Event>,
                    same: (VenueId, VenueId) -> bool, clash: (VenueId, VenueId) -> bool)
    requires KeysHold(now) && ArePlacesOf(now.occs, eid, clusters, p.place, same, clash) && p.place.Keys == VenuesOf(now.occs, eid)
    requires BestChoices(now.occs, eid, clusters, p.canon, p.primary)
    requires Targets(p.target, eid, p.primary, now.events, events) && p.target.Keys == clusters.Keys
    ensures PlansFor(now, eid, same, clash)(p, events)
  {
    PlanIsGood(now, eid, p, clusters, events);
    PlanIsFor(now.occs, eid, p, clusters, same, clash);
    assert Planned(now, eid, p, events, same, clash);
  }

  lemma PassStateGrows(before: Snapshot, now: Snapshot, now': Snapshot, plans: map<EventId, Plan>, todo: set<EventId>, eid: EventId, p: Plan,
                       byUrl: map<string, VenueId>, same: (VenueId, VenueId) -> bool, clash: (VenueId, VenueId) -> bool)
    requires PassState(before, same, clash)(now, plans, todo) && eid in todo
    requires Outcomes(now, eid, same, clash)(now', p, byUrl)
    ensures PassState(before, same, clash)(now', plans[eid := p], todo - {eid})
  {
    OneEventFurther(before, now, plans, todo, eid, p, byUrl, now'.events, same, clash);
  }

  // ----- what the pass means -----

  /** Coverage is conserved by the whole pass: each showing with a venue of an event over several venues is
      left exactly once, at the canonical venue of its place and on the event that keeps the place. */
  lemma ResplitKeepsEveryShowing(before: Snapshot, now: Snapshot, plans: map<EventId, Plan>,
                                 same: (VenueId, VenueId) -> bool, clash: (VenueId, VenueId) -> bool, i: nat) returns (j: nat)
    requires PassState(before, same, clash)(now, plans, {})
    requires i in before.occs && before.occs[i].venue.Some? && Multi(before.occs, before.occs[i].event)
    ensures var e := before.occs[i].event; e in plans && var p := plans[e];
      && IsPlanFor(before.occs, e, p, same, clash)
      && j in now.occs && InSlot(before.occs, e, p, j, SlotOf(p, before.occs[i])) && now.occs[j] == Retargeted(p, before.occs[j])
      && forall k | k in now.occs && InSlot(before.occs, e, p, k, SlotOf(p, before.occs[i])) :: k == j
  {
    MultiEventsAre(before.occs, before.occs[i].event);
    var e := before.occs[i].event;
    assert EventPassed(before.occs, now.occs, e, plans[e], same, clash);
    j := PassKeepsEveryShowing(before.occs, now.occs, plans, same, clash, i);
  }

  lemma SameMap<K, V>(a: map<K, V>, b: map<K, V>)
    requires a.Keys <= b.Keys && forall k | k in b :: k in a && a[k] == b[k]
    ensures a == b
  {}

  /** A second pass finds nothing and changes nothing. */
  lemma SecondResplitIsIdle(before: Snapshot, now: Snapshot, plans: map<EventId, Plan>,
                            same: (VenueId, VenueId) -> bool, clash: (VenueId, VenueId) -> bool)
    requires PassState(before, same, clash)(now, plans, {}) && MultiEvents(before.occs) == {}
    ensures now == before
  {
    forall i | i in before.occs ensures i in now.occs && now.occs[i] == before.occs[i] {
      MultiEventsAre(before.occs, before.occs[i].event);
    }
    SameMap(now.occs, before.occs);
    forall i | i in before.sources ensures now.sources[i] == before.sources[i] {
      assert SourcePassed(before.occs, plans, before.sources[i], now.sources[i]);
    }
    SameMap(now.sources, before.sources);
    assert now.events.Keys <= before.events.Keys;
    SameMap(now.events, before.events);
  }
}
