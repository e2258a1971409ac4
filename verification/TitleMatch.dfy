/** `core/matching/title_match.py`: do two titles name one event?

  Two things are left open.  One is `rapidfuzz`: `Matcher` carries its ratio as a function.  The other is
  the order in which Python walks the word set of a title: it depends on the hash seed of the process and on
  how the set was built from its title, so a matcher walks each title in an order of its own. */
module TitleMatch {
  import opened Collections
  import opened Text
  import opened UnionFind

  datatype Matcher = Matcher(ratio: (string, string) -> real, walk: string -> seq<string>)

  /** One order in which a set may be walked. */
  ghost predicate Lists(p: seq<string>, s: set<string>) { Distinct(p) && Elements(p) == s }

  ghost predicate Walks(m: Matcher) {
    forall t: string :: Lists(m.walk(t), Words(t))
  }

  /** Another process: the same ratio, walks of its own. */
  ghost predicate Rewalks(m: Matcher, m': Matcher) { Walks(m') && m'.ratio == m.ratio }

  datatype Level = SafeLevel | AutoLevel | FuzzyLevel

  const RATIO_AUTO := 92.0
  const RATIO_FUZZY := 85.0

  predicate IsFiller(t: string) {
    t in {"концерт", "концерты", "концертный", "концертная", "шоу", "вечер",
          "программа", "выступление", "вечеринка", "презентация", "премьера",
          "show", "concert", "live", "лайв",
          "большой", "большая", "большое", "сольный", "сольная", "сольное",
          "мультимедийный", "музыкальный", "авторский", "авторская", "юбилейный",
          "праздничный", "новогодний", "рождественский", "гала", "специальный",
          "творческий", "творческая", "версия", "крыша", "крыше", "бенефис",
          "на", "в", "с", "по", "за", "до", "от", "для", "или", "и", "о", "об", "к", "у"}
  }

  predicate IsActivity(t: string) {
    t in {"экскурсия", "лекция", "выставка", "квест", "спектакль", "спектакли",
          "опера", "балет", "мюзикл", "комедия", "стендап", "standup", "мастеркласс",
          "мастер", "класс", "класса", "фестиваль", "гастроли", "тур", "выпечка",
          "роспись", "дегустация", "интенсив", "тренинг", "семинар", "воркшоп"}
  }

  predicate IsGeneric(t: string) { IsFiller(t) || IsActivity(t) }

  predicate IsDeclensionTail(c: char) { c in {'й', 'я', 'ю', 'е', 'и', 'а', 'ь'} }

  predicate IsPrefix(s: string, t: string) { |s| <= |t| && t[..|s|] == s }

  /** The same word up to a short declension ending. */
  predicate StemEq(s: string, t: string) {
    var (short, long) := if |s| <= |t| then (s, t) else (t, s);
    || s == t
    || (|short| >= 4 && IsPrefix(short, long) && |long| - |short| <= 2)
    || (|s| == |t| >= 6 && s[..|s| - 1] == t[..|t| - 1]
        && IsDeclensionTail(s[|s| - 1]) && IsDeclensionTail(t[|t| - 1]))
  }

  /** The first word of `big`, in its walk, that is not taken yet and matches s. */
  function FirstFree(s: string, big: seq<string>, matched: set<string>): (r: Option<string>)
    ensures r.Some? ==> r.value in big && r.value !in matched && StemEq(s, r.value)
    ensures r.None? ==> forall u <- big :: u in matched || !StemEq(s, u)
  {
    if big == [] then None
    else if big[0] !in matched && StemEq(s, big[0]) then Some(big[0])
    else FirstFree(s, big[1..], matched)
  }

  /** The words of `big` taken once every word of `small` has taken one, if all find one. */
  function Greedy(small: seq<string>, big: seq<string>, matched: set<string>): Option<set<string>> {
    if small == [] then Some(matched)
    else
      match FirstFree(small[0], big, matched)
      case None => None
      case Some(u) => Greedy(small[1..], big, matched + {u})
  }

  function SubsetExtra(small: seq<string>, big: seq<string>): Option<set<string>> {
    match Greedy(small, big, {})
    case None => None
    case Some(matched) => Some(Elements(big) - matched)
  }

  /** The loop of `_subset_extra`. */
  method ComputeSubsetExtra(small: seq<string>, big: seq<string>) returns (extra: Option<set<string>>)
    ensures extra == SubsetExtra(small, big)
  {
    var matched: set<string> := {};
    for i := 0 to |small|
      invariant Greedy(small, big, {}) == Greedy(small[i..], big, matched)
    {
      var m := FirstFree(small[i], big, matched);
      if m.None? { return None; }
      matched := matched + {m.value};
    }
    return Some(Elements(big) - matched);
  }

  predicate HasAnchor(small: set<string>) {
    exists t <- small :: |t| >= 4 && !IsGeneric(t)
  }

  predicate ExtraIsFiller(extra: set<string>) {
    forall t <- extra :: IsFiller(t) || |t| <= 2 || IsYear(t)
  }

  /** Which of two titles has fewer words, the first on a tie. */
  function Fewer(a: string, b: string): string { if |Words(a)| <= |Words(b)| then a else b }
  function More(a: string, b: string): string { if |Words(a)| <= |Words(b)| then b else a }

  function Extra(m: Matcher, a: string, b: string): Option<set<string>> {
    if Words(Fewer(a, b)) == {} then None else SubsetExtra(m.walk(Fewer(a, b)), m.walk(More(a, b)))
  }

  predicate Anchored(a: string, b: string) { HasAnchor(Words(Fewer(a, b))) }

  predicate SameEvent(m: Matcher, a: string, b: string, level: Level, strictNumbers: bool := true) {
    var ka, kb := TranslitKey(a), TranslitKey(b);
    var ya, yb := FindYears(a), FindYears(b);
    if ka == "" || kb == "" then false
    else if ya != {} && yb != {} && ya != yb then false
    else if strictNumbers && Numbers(a) != Numbers(b) then false
    else if ka == kb then true
    else if level.SafeLevel? then false
    else
      var extra := Extra(m, a, b);
      if extra.Some? && Anchored(a, b) && (level.FuzzyLevel? || ExtraIsFiller(extra.value)) then true
      else m.ratio(Translit(a), Translit(b)) >= if level.AutoLevel? then RATIO_AUTO else RATIO_FUZZY
  }

  predicate SameSlotTitle(m: Matcher, a: string, b: string) {
    var ka, kb := TranslitKey(a), TranslitKey(b);
    if ka == "" || kb == "" then false
    else if Numbers(StripAge(a)) != Numbers(StripAge(b)) then false
    else if ka == kb then true
    else Extra(m, a, b).Some? && Words(a) != {} && Words(b) != {}
  }

  // ----- laws -----

  lemma StemEqSymmetric(s: string, t: string)
    ensures StemEq(s, t) == StemEq(t, s)
  {}

  /** How a set of words can be sent into another, word by word, without sharing. */
  ghost predicate Matching(f: map<string, string>, small: seq<string>, big: seq<string>) {
    && f.Keys == Elements(small)
    && (forall s <- f :: f[s] in big && StemEq(s, f[s]))
    && Injective(f)
  }

  lemma {:induction false} GreedyMatches(small: seq<string>, big: seq<string>, matched: set<string>) returns (f: map<string, string>)
    requires Distinct(small) && Greedy(small, big, matched).Some?
    ensures Matching(f, small, big) && f.Values !! matched
    ensures Greedy(small, big, matched).value == matched + f.Values
  {
    if small == [] {
      f := map[];
    } else {
      var u := FirstFree(small[0], big, matched).value;
      var rest := small[1..];
      var g := GreedyMatches(rest, big, matched + {u});
      assert small[0] !in rest;
      assert u !in g.Values;
      f := g[small[0] := u];
      assert small == [small[0]] + rest;
      assert Elements(small) == Elements(rest) + {small[0]};
      assert f.Values == g.Values + {u} by {
        assert f[small[0]] == u;
        forall v | v in g.Values ensures v in f.Values { var s :| s in g && g[s] == v; assert f[s] == v; }
      }
    }
  }

  /** Whatever the walk, a non-None answer of `_subset_extra` is an injective stem-respecting map, and
      the extra words are exactly those it leaves out. */
  lemma SubsetExtraIsSound(small: seq<string>, big: seq<string>) returns (f: map<string, string>)
    requires Distinct(small) && Distinct(big) && SubsetExtra(small, big).Some?
    ensures Matching(f, small, big)
    ensures SubsetExtra(small, big).value == Elements(big) - f.Values
    ensures |SubsetExtra(small, big).value| == |big| - |small|
  {
    f := GreedyMatches(small, big, {});
    InjectiveSize(f);
    DistinctSize(small);
    DistinctSize(big);
    assert f.Values <= Elements(big);
  }

  /** The tiers are nested. */
  lemma TiersAreNested(m: Matcher, a: string, b: string, strictNumbers: bool)
    ensures SameEvent(m, a, b, SafeLevel, strictNumbers) ==> SameEvent(m, a, b, AutoLevel, strictNumbers)
    ensures SameEvent(m, a, b, AutoLevel, strictNumbers) ==> SameEvent(m, a, b, FuzzyLevel, strictNumbers)
    ensures SameEvent(m, a, b, FuzzyLevel, strictNumbers) ==> SameEvent(m, a, b, FuzzyLevel, false)
  {}

  /** In any cluster built from strict matches all titles carry the same numbers: sequels never fuse
      through a chain, however long. */
  lemma ChainsKeepNumbers<T(!new)>(m: Matcher, title: T -> string, edges: set<Pair<T>>, x: T, y: T)
    requires forall e <- edges :: SameEvent(m, title(e.0), title(e.1), FuzzyLevel)
    requires Connected(edges, x, y)
    ensures Numbers(title(x)) == Numbers(title(y))
  {
    ConnectedInvariant(edges, (z: T) => Numbers(title(z)), x, y);
  }
}
