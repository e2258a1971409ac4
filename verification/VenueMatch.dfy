/** `core/matching/venue_match.py`: do two venue names denote one place?  The fuzzy ratio of the two
  names is the one thing left open. */
module VenueMatch {
  import opened Collections
  import opened Text

  const STRONG_RATIO := 85.0
  const COHOST_RATIO := 70.0

  /** The sides a name takes: words that mark one of two distinct halls of a building. */
  datatype Side = Big | Small | New | Old | Upper | Lower | LeftSide | RightSide

  predicate Takes(words: set<string>, side: Side) {
    match side
    case Big => words * {"большой", "большая", "большое"} != {}
    case Small => words * {"малый", "малая", "малое"} != {}
    case New => words * {"новый", "новая", "новое", "new"} != {}
    case Old => words * {"старый", "старая", "старое", "old"} != {}
    case Upper => words * {"верхний", "верхняя"} != {}
    case Lower => words * {"нижний", "нижняя"} != {}
    case LeftSide => words * {"левый", "левая"} != {}
    case RightSide => words * {"правый", "правая"} != {}
  }

  predicate Opposed(a: set<string>, b: set<string>, x: Side, y: Side) {
    (Takes(a, x) && Takes(b, y)) || (Takes(a, y) && Takes(b, x))
  }

  /** The names take opposite sides of some antonym pair. */
  predicate Contrasts(a: string, b: string) {
    var wa, wb := Words(a), Words(b);
    Opposed(wa, wb, Big, Small) || Opposed(wa, wb, New, Old) || Opposed(wa, wb, Upper, Lower) || Opposed(wa, wb, LeftSide, RightSide)
  }

  predicate IsGenericVenue(t: string) {
    t in {"teatr", "teatry", "klub", "bar", "zal", "dom", "tsentr", "kafe", "kinoteatr", "ploshchadka",
          "stsena", "kultury", "dvorets", "kontsertny", "music", "hall", "club", "loft", "space",
          "prostranstvo", "art", "arena", "studiya", "studio", "muzey", "galereya", "only", "kompleks",
          "center", "centre", "cafe", "moscow", "moskva", "letny", "letniy"}
  }

  predicate IsSubset(a: string, b: string) {
    var wa, wb := Words(a), Words(b);
    var (small, big) := if |wa| <= |wb| then (wa, wb) else (wb, wa);
    wa != {} && wb != {} && small <= big && exists t <- small :: |t| >= 4
  }

  function Distinctive(s: string): set<string> {
    set t | t in TranslitTokens(s) && |t| >= 4 && !IsGenericVenue(t)
  }

  predicate NameWithin(name: string, haystack: string) {
    var d := Distinctive(name);
    d != {} && (|d| >= 2 || exists t <- d :: |t| >= 7) && d <= Elements(TranslitTokens(haystack))
  }

  function Max(x: real, y: real): real { if x >= y then x else y }

  function NameMatchScore(ratio: (string, string) -> real, a: string, b: string,
                          coHost: bool := false, addrA: string := "", addrB: string := ""): Option<real> {
    var r := ratio(a, b);
    if Contrasts(a, b) then None
    else if r >= STRONG_RATIO then Some(r)
    else if NameWithin(a, b + " " + addrB) || NameWithin(b, a + " " + addrA) then Some(Max(r, COHOST_RATIO))
    else if coHost && (IsSubset(a, b) || r >= COHOST_RATIO) then Some(r)
    else if !coHost && IsSubset(a, b) then Some(r)
    else None
  }

  /** The duplicate-pin symptom only ever lowers the bar: it changes the answer exactly for names that do not
      contrast, are contained nowhere and reach the lower ratio but not the higher. */
  lemma CoHostRelaxesIff(ratio: (string, string) -> real, a: string, b: string, addrA: string, addrB: string)
    ensures var alone, together := NameMatchScore(ratio, a, b, false, addrA, addrB), NameMatchScore(ratio, a, b, true, addrA, addrB);
      && (alone.Some? ==> together == alone)
      && (alone != together <==>
            !Contrasts(a, b) && COHOST_RATIO <= ratio(a, b) < STRONG_RATIO && !IsSubset(a, b)
            && !NameWithin(a, b + " " + addrB) && !NameWithin(b, a + " " + addrA))
  {}
}
