/** The venue name tests told on the words of the names, and what they mean for the venue pass. */
module VenueNames {
  import opened Collections
  import opened Ids
  import opened Text
  import opened TextLaws
  import opened TitleReading
  import opened UnionFind
  import opened GuardedClusters
  import opened MergePlan
  import opened VenueMatch
  import opened VenueClusters

  /** The words that mark one or the other of two halls. */
  const ANTONYMS: seq<(set<string>, set<string>)> := [
    ({"большой", "большая", "большое"}, {"малый", "малая", "малое"}),
    ({"новый", "новая", "новое", "new"}, {"старый", "старая", "старое", "old"}),
    ({"верхний", "верхняя"}, {"нижний", "нижняя"}),
    ({"левый", "левая"}, {"правый", "правая"})
  ]

  /** The names take the two sides of the i-th pair. */
  ghost predicate TakeSides(a: string, b: string, i: nat)
    requires i < |ANTONYMS|
  {
    exists s <- Words(a), t <- Words(b) :: (s in ANTONYMS[i].0 && t in ANTONYMS[i].1) || (s in ANTONYMS[i].1 && t in ANTONYMS[i].0)
  }

  /** Two halls of one building: for some pair of word sets, a word of one is in one name and a word of the other
      in the other. */
  ghost predicate OppositeHalls(a: string, b: string) {
    exists i: nat :: i < |ANTONYMS| && TakeSides(a, b, i)
  }

  lemma SidesAre(i: nat, words: set<string>)
    requires i < 4
    ensures var (x, y) := if i == 0 then (Big, Small) else if i == 1 then (New, Old) else if i == 2 then (Upper, Lower) else (LeftSide, RightSide);
      (Takes(words, x) <==> words * ANTONYMS[i].0 != {}) && (Takes(words, y) <==> words * ANTONYMS[i].1 != {})
  {}

  lemma MembersMeet<T>(a: set<T>, b: set<T>, x: set<T>, y: set<T>)
    ensures (exists s <- a, t <- b :: s in x && t in y) <==> a * x != {} && b * y != {}
  {
    if a * x != {} && b * y != {} {
      var s, t :| s in a * x && t in b * y;
      assert s in a && t in b;
    }
    if s, t :| s in a && t in b && s in x && t in y { assert s in a * x && t in b * y; }
  }

  lemma SidesMeet(i: nat, a: string, b: string)
    requires i < |ANTONYMS|
    ensures TakeSides(a, b, i) <==>
      (Words(a) * ANTONYMS[i].0 != {} && Words(b) * ANTONYMS[i].1 != {}) || (Words(a) * ANTONYMS[i].1 != {} && Words(b) * ANTONYMS[i].0 != {})
  {
    MembersMeet(Words(a), Words(b), ANTONYMS[i].0, ANTONYMS[i].1);
    MembersMeet(Words(a), Words(b), ANTONYMS[i].1, ANTONYMS[i].0);
  }

  lemma OpposedIff(i: nat, a: string, b: string)
    requires i < 4
    ensures var (x, y) := if i == 0 then (Big, Small) else if i == 1 then (New, Old) else if i == 2 then (Upper, Lower) else (LeftSide, RightSide);
      Opposed(Words(a), Words(b), x, y) <==> TakeSides(a, b, i)
  {
    SidesAre(i, Words(a));
    SidesAre(i, Words(b));
    SidesMeet(i, a, b);
  }

  /** The guard refuses exactly the names of opposite halls. */
  lemma ContrastsIff(a: string, b: string)
    ensures Contrasts(a, b) <==> OppositeHalls(a, b)
  {
    OpposedIff(0, a, b);
    OpposedIff(1, a, b);
    OpposedIff(2, a, b);
    OpposedIff(3, a, b);
    assert |ANTONYMS| == 4;
    if OppositeHalls(a, b) {
      var i: nat :| i < |ANTONYMS| && TakeSides(a, b, i);
      assert i == 0 || i == 1 || i == 2 || i == 3;
    }
  }

  /** A name without a marking word contrasts with none. */
  lemma UnmarkedContrastsWithNone(a: string, b: string)
    requires forall i | 0 <= i < |ANTONYMS| :: Words(a) !! ANTONYMS[i].0 && Words(a) !! ANTONYMS[i].1
    ensures !Contrasts(a, b) && !Contrasts(b, a)
  {
    ContrastsIff(a, b);
    ContrastsIff(b, a);
  }

  // ----- the names of two halls -----

  lemma BigIsPlain()
    ensures PlainWord("большой")
  {
    assert Translit("большой") == Latin('б') + Translit("ольшой");
  }

  lemma SmallIsPlain()
    ensures PlainWord("малый")
  {
    assert Translit("малый") == Latin('м') + Translit("алый");
  }

  lemma HallIsPlain()
    ensures PlainWord("зал")
  {
    assert Translit("зал") == Latin('з') + Translit("ал");
  }

  lemma BigMarks(i: nat)
    requires i < |ANTONYMS|
    ensures "большой" in ANTONYMS[i].0 <==> i == 0
    ensures "большой" !in ANTONYMS[i].1
  {}

  lemma HallMarksNothing(i: nat)
    requires i < |ANTONYMS|
    ensures "зал" !in ANTONYMS[i].0 && "зал" !in ANTONYMS[i].1
  {}

  lemma HallsContrast(a: string, b: string, s: string, t: string)
    requires s in Words(a) && t in Words(b) && s in ANTONYMS[0].0 && t in ANTONYMS[0].1
    ensures Contrasts(a, b)
  {
    assert TakeSides(a, b, 0);
    ContrastsIff(a, b);
  }

  /** No word marks the second hall of any pair. */
  ghost predicate OneSided(words: set<string>) {
    forall s, i: nat | s in words && i < |ANTONYMS| :: s !in ANTONYMS[i].1
  }

  lemma OneSidedNames(a: string, b: string)
    requires OneSided(Words(a)) && OneSided(Words(b))
    ensures !Contrasts(a, b)
  {
    ContrastsIff(a, b);
  }

  lemma HallsAre(s: string, t: string, w: string, a: string, b: string)
    requires Words(a) == {s, w} && Words(b) == {t, w} && Words(w) == {w}
    requires s in ANTONYMS[0].0 && t in ANTONYMS[0].1 && OneSided({s, w})
    ensures Contrasts(a, b) && !Contrasts(a, a) && !Contrasts(w, a)
  {
    HallsContrast(a, b, s, t);
    OneSidedNames(a, a);
    OneSidedNames(w, a);
  }

  lemma SmallMarks()
    ensures "малый" in ANTONYMS[0].1
  {}

  lemma BigHallIsOneSided()
    ensures OneSided({"большой", "зал"})
  {
    forall i: nat | i < |ANTONYMS| ensures "большой" !in ANTONYMS[i].1 && "зал" !in ANTONYMS[i].1 {
      BigMarks(i);
      HallMarksNothing(i);
    }
  }

  lemma HallNames()
    ensures "большой зал" == "большой" + " " + "зал" && "малый зал" == "малый" + " " + "зал"
  {}

  /** "большой зал" and "малый зал" are opposite halls; "большой зал" is not opposite to itself, nor "зал" to it. */
  lemma GreatAndSmallHall()
    ensures Contrasts("большой зал", "малый зал") && !Contrasts("большой зал", "большой зал") && !Contrasts("зал", "большой зал")
  {
    BigIsPlain();
    SmallIsPlain();
    HallIsPlain();
    HallNames();
    ReadOne("зал");
    ReadTwo("большой", "зал");
    ReadTwo("малый", "зал");
    BigHallIsOneSided();
    BigMarks(0);
    SmallMarks();
    HallsAre("большой", "малый", "зал", "большой зал", "малый зал");
  }

  // ----- when two names match -----

  /** All words of the first name are in the second, and one of them has four letters. */
  ghost predicate WordsWithin(a: string, b: string) {
    (forall s <- Words(a) :: s in Words(b)) && exists s <- Words(a) :: |s| >= 4
  }

  lemma SubsetIff(a: string, b: string)
    ensures IsSubset(a, b) <==> WordsWithin(a, b) || WordsWithin(b, a)
  {
    var wa, wb := Words(a), Words(b);
    if wa <= wb { SubsetSize(wa, wb); SameSize(wa, wb); }
    if wb <= wa { SubsetSize(wb, wa); SameSize(wb, wa); }
    assert WordsWithin(a, b) <==> wa <= wb && exists s <- wa :: |s| >= 4;
    assert WordsWithin(b, a) <==> wb <= wa && exists s <- wb :: |s| >= 4;
  }

  lemma SameSize<T>(a: set<T>, b: set<T>)
    requires a <= b
    ensures |a| == |b| ==> a == b
  {
    if x :| x in b && x !in a { SubsetSize(a, b - {x}); }
  }

  /** A token that identifies a venue: four letters, and no common venue word. */
  ghost predicate Identifies(t: string) { |t| >= 4 && !IsGenericVenue(t) }

  /** The tokens that identify the name are all in the text, and there are two of them or one of seven letters. */
  lemma NameWithinIff(name: string, text: string)
    ensures NameWithin(name, text) <==>
      (forall t <- TranslitTokens(name) | Identifies(t) :: t in TranslitTokens(text)) && (OneLong(TranslitTokens(name)) || TwoIdentify(TranslitTokens(name)))
  {
    var d := Distinctive(name);
    DistinctiveIs(name);
    Enough(d, (t: string) => |t| >= 7);
    assert OneLong(TranslitTokens(name)) <==> exists t <- d :: |t| >= 7;
    assert TwoIdentify(TranslitTokens(name)) <==> exists t, u :: t in d && u in d && t != u;
    AllIn(d, TranslitTokens(text));
  }

  ghost predicate OneLong(tokens: seq<string>) { exists t <- tokens :: Identifies(t) && |t| >= 7 }

  ghost predicate TwoIdentify(tokens: seq<string>) {
    exists t, u :: t in tokens && u in tokens && t != u && Identifies(t) && Identifies(u)
  }

  lemma DistinctiveIs(name: string)
    ensures forall t :: t in Distinctive(name) <==> t in TranslitTokens(name) && Identifies(t)
  {}

  lemma AllIn<T>(d: set<T>, q: seq<T>)
    ensures d <= Elements(q) <==> forall t <- d :: t in q
  {}

  lemma Enough<T>(d: set<T>, long: T -> bool)
    ensures d != {} && (|d| >= 2 || exists t <- d :: long(t)) <==> (exists t <- d :: long(t)) || exists t, u :: t in d && u in d && t != u
  {
    TwoOrMore(d);
  }

  lemma TwoOrMore<T>(d: set<T>)
    ensures |d| >= 2 <==> exists t, u :: t in d && u in d && t != u
  {
    if |d| >= 2 {
      var t :| t in d;
      assert d == d - {t} + {t};
      assert |d - {t}| == |d| - 1;
      var u :| u in d - {t};
    }
    if t, u :| t in d && u in d && t != u { SubsetSize({t, u}, d); }
  }

  /** When two names are taken for one place: never for opposite halls; else for a ratio of 85, or a name inside the
      other's name and address, or all words of one in the other, or, for venues that share a showing, a ratio of 70. */
  lemma NamesMatchIff(ratio: (string, string) -> real, a: string, b: string, coHost: bool, addrA: string, addrB: string)
    ensures NameMatchScore(ratio, a, b, coHost, addrA, addrB).Some? <==>
      && !OppositeHalls(a, b)
      && (ratio(a, b) >= 85.0 || NameWithin(a, b + " " + addrB) || NameWithin(b, a + " " + addrA)
          || WordsWithin(a, b) || WordsWithin(b, a) || (coHost && ratio(a, b) >= 70.0))
  {
    ContrastsIff(a, b);
    SubsetIff(a, b);
  }

  // ----- the venue pass -----

  lemma {:induction false} RunKeysAreAsked<T(!new)>(clash: (T, T) -> bool, asked: seq<Pair<T>>)
    ensures GuardedRun(map[], clash, asked).Keys == Nodes(Edges(asked))
  {
    if asked != [] {
      var n := |asked| - 1;
      RunKeysAreAsked(clash, asked[..n]);
      assert asked == asked[..n] + [asked[n]];
      assert Edges(asked) == Edges(asked[..n]) + {asked[n]};
    }
  }

  lemma LabelsAreVenues(venues: map<VenueId, Venue>, ratio: (string, string) -> real, rows: seq<Candidate>)
    requires forall c <- rows :: c.a in venues && c.b in venues
    ensures GuardedRun(map[], Clash(venues), Asked(venues, ratio, rows)).Keys <= venues.Keys
  {
    var asked := Asked(venues, ratio, rows);
    RunKeysAreAsked(Clash(venues), asked);
    forall x | x in Nodes(Edges(asked)) ensures x in venues {
      var e :| e in Edges(asked) && (x == e.0 || x == e.1);
      AskedAreVenues(venues, ratio, rows, e);
    }
  }

  lemma ClashIsOpposite(venues: map<VenueId, Venue>, x: VenueId, y: VenueId)
    requires x in venues && y in venues
    ensures Clash(venues)(x, y) <==> OppositeHalls(venues[x].name, venues[y].name)
  {
    ContrastsIff(venues[x].name, venues[y].name);
  }

  lemma MergedAreVenues(venues: map<VenueId, Venue>, ratio: (string, string) -> real, rows: seq<Candidate>,
                        accepted: set<Pair<VenueId>>, pairs: seq<Pair<VenueId>>, p: Pair<VenueId>)
    requires (forall c <- rows :: c.a in venues && c.b in venues) && IsVenuePlan(venues, ratio, rows, accepted, pairs) && p in pairs
    ensures p.0 in venues && p.1 in venues
  {
    LabelsAreVenues(venues, ratio, rows);
    assert p.0 in Nodes(accepted);
  }

  /** The merge list never puts opposite halls into one place: neither a venue and the one it is merged into, nor two
      venues merged into one. */
  lemma PlanKeepsHallsApart(venues: map<VenueId, Venue>, ratio: (string, string) -> real, rows: seq<Candidate>,
                            accepted: set<Pair<VenueId>>, pairs: seq<Pair<VenueId>>, p: Pair<VenueId>, q: Pair<VenueId>)
    requires (forall c <- rows :: c.a in venues && c.b in venues) && IsVenuePlan(venues, ratio, rows, accepted, pairs)
    requires p in pairs && q in pairs && p.1 == q.1
    ensures p.0 in venues && p.1 in venues && !OppositeHalls(venues[p.0].name, venues[p.1].name)
    ensures p.0 != q.0 ==> q.0 in venues && !OppositeHalls(venues[p.0].name, venues[q.0].name)
  {
    PlanIsSafeAndMaximal(venues, ratio, rows, GuardedRun(map[], Clash(venues), Asked(venues, ratio, rows)), accepted, pairs);
    MergedAreVenues(venues, ratio, rows, accepted, pairs, p);
    MergedAreVenues(venues, ratio, rows, accepted, pairs, q);
    ContrastsIff(venues[p.0].name, venues[p.1].name);
    ContrastsIff(venues[p.0].name, venues[q.0].name);
  }

  /** Opposite halls in the clusters of a and b. */
  ghost predicate HallsBetween(venues: map<VenueId, Venue>, root: map<VenueId, VenueId>, a: VenueId, b: VenueId)
    requires root.Keys <= venues.Keys && a in root && b in root
  {
    exists x, y :: x in root && y in root && root[x] == root[a] && root[y] == root[b] && OppositeHalls(venues[x].name, venues[y].name)
  }

  lemma ClashingClusters(venues: map<VenueId, Venue>, root: map<VenueId, VenueId>, a: VenueId, b: VenueId)
    requires root.Keys <= venues.Keys && a in root && b in root && ClustersClash(root, Clash(venues), a, b)
    ensures HallsBetween(venues, root, a, b)
  {
    var x, y :| x in root && y in root && SameLabel(root, x, a) && SameLabel(root, y, b) && Clash(venues)(x, y);
    ClashIsOpposite(venues, x, y);
  }

  /** Two venues with evidence end in one cluster unless their clusters hold opposite halls. */
  lemma EvidenceIsFollowed(venues: map<VenueId, Venue>, ratio: (string, string) -> real, rows: seq<Candidate>,
                           root: map<VenueId, VenueId>, accepted: set<Pair<VenueId>>, pairs: seq<Pair<VenueId>>, c: Candidate)
    requires (forall c <- rows :: c.a in venues && c.b in venues) && IsVenuePlan(venues, ratio, rows, accepted, pairs)
    requires root == GuardedRun(map[], Clash(venues), Asked(venues, ratio, rows)) && c in rows && Evidence(venues, ratio, c)
    ensures root.Keys <= venues.Keys && c.a in root && c.b in root && (Connected(accepted, c.a, c.b) || HallsBetween(venues, root, c.a, c.b))
  {
    LabelsAreVenues(venues, ratio, rows);
    PlanIsSafeAndMaximal(venues, ratio, rows, root, accepted, pairs);
    if !Connected(accepted, c.a, c.b) { ClashingClusters(venues, root, c.a, c.b); }
  }

  /** The venue merged into has most rows of its cluster, the lowest id on a tie. */
  lemma BusiestVenueStays(venues: map<VenueId, Venue>, ratio: (string, string) -> real, rows: seq<Candidate>,
                          accepted: set<Pair<VenueId>>, pairs: seq<Pair<VenueId>>, p: Pair<VenueId>, d: VenueId)
    requires (forall c <- rows :: c.a in venues && c.b in venues) && IsVenuePlan(venues, ratio, rows, accepted, pairs)
    requires p in pairs && d in Nodes(accepted) && Connected(accepted, p.0, d) && d != p.1
    ensures d in venues && p.1 in venues
    ensures venues[d].occurrences < venues[p.1].occurrences || (venues[d].occurrences == venues[p.1].occurrences && p.1.n < d.n)
  {
    LabelsAreVenues(venues, ratio, rows);
    assert Leads(accepted, ByOccurrences(venues), p.1, p.0) && ByOccurrences(venues)(p.1, d);
    assert Busier(venues, p.1, d);
  }
}
