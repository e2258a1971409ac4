/** What the parser makes of the printers' texts: each printer's prices come back, and exactly when not. */
module PriceRoundTrips {
  import opened Collections
  import opened Text
  import opened Prices

  // ----- the parser on any text -----

  /** Whatever the text, the parser returns nothing, or a range of amounts that are not negative, in order. */
  lemma ParsedRangeIsOrdered(text: string)
    ensures var r := Parse(text);
      && (r.lo.Some? ==> r.lo.value >= 0.0)
      && (r.hi.Some? ==> r.lo.Some? && r.lo.value <= r.hi.value)
  {
    var nums := Nums(Prepared(text));
    if nums != [] {
      assert Least(nums).value <= Greatest(nums).value && Least(nums).value >= 0;
      assert Least(nums).value as real <= Greatest(nums).value as real;
    }
  }

  lemma {:induction false} NumsSkip(p: string, s: string)
    requires forall c <- p :: !IsDigit(c)
    ensures Nums(p + s) == Nums(s)
  {
    if p == "" {
      assert p + s == s;
    } else {
      assert (p + s)[1..] == p[1..] + s;
      NumsSkip(p[1..], s);
    }
  }

  lemma {:induction false} TrimBlanks(d: string, sp: string)
    requires d != "" && !IsSpace(d[|d| - 1]) && forall c <- sp :: IsSpace(c)
    ensures TrimRight(d + sp) == d
  {
    if sp == "" {
      assert d + sp == d;
    } else {
      assert (d + sp)[..|d + sp| - 1] == d + sp[..|sp| - 1];
      TrimBlanks(d, sp[..|sp| - 1]);
    }
  }

  lemma {:induction false} LeadingBlanks(sp: string, s: string)
    requires (forall c <- sp :: IsSpace(c)) && (s == "" || !IsSpace(s[0]))
    ensures TrimLeft(sp + s) == s
  {
    if sp == "" {
      assert sp + s == s;
    } else {
      assert (sp + s)[1..] == sp[1..] + s;
      LeadingBlanks(sp[1..], s);
    }
  }

  lemma RunEnds(t: string, rest: string, ok: char -> bool)
    requires (forall c <- t :: ok(c)) && (rest == "" || !ok(rest[0]))
    ensures RunLength(t + rest, ok) == |t|
  {
    var s := t + rest;
    assert forall i | 0 <= i < |t| :: s[i] == t[i];
    assert rest != "" ==> s[|t|] == rest[0];
  }

  /** A number as people write it: digits, with blanks between them. */
  predicate Grouped(g: string) {
    g != "" && IsDigit(g[0]) && IsDigit(g[|g| - 1]) && forall c <- g :: DigitOrSpace(c)
  }

  /** One number, the blanks after it, and the rest. */
  lemma NumsTake(g: string, sp: string, rest: string)
    requires Grouped(g) && (forall c <- sp :: IsSpace(c)) && (rest == "" || !DigitOrSpace(rest[0]))
    ensures Nums(g + sp + rest) == ReadNumber(g) + Nums(rest)
  {
    var t := g + sp;
    assert forall c <- t :: DigitOrSpace(c);
    RunEnds(t, rest, DigitOrSpace);
    TrimBlanks(g, sp);
    assert (t + rest)[..|t|] == t && (t + rest)[|t|..] == rest;
    assert (t + rest)[0] == g[0];
  }

  lemma {:induction false} NoSpacesKeeps(s: string)
    requires ' ' !in s
    ensures NoSpaces(s) == s
  {
    if s != "" { NoSpacesKeeps(s[1..]); }
  }

  lemma {:induction false} NoSpacesDrops(s: string)
    ensures forall c :: c in NoSpaces(s) <==> c in s && c != ' '
  {
    if s != "" {
      assert s == [s[0]] + s[1..];
      NoSpacesDrops(s[1..]);
    }
  }

  predicate PlainBlanks(g: string) { forall c <- g :: IsSpace(c) ==> c == ' ' }

  lemma ReadIff(g: string)
    requires Grouped(g)
    ensures |ReadNumber(g)| == if PlainBlanks(g) then 1 else 0
  {
    NoSpacesDrops(g);
    assert g[0] in g;
    assert g[0] in NoSpaces(g);
  }

  /** One number, then a text without numbers. */
  lemma NumsTakeLast(g: string, sp: string, rest: string)
    requires Grouped(g) && (forall c <- sp :: IsSpace(c)) && (rest == "" || !IsSpace(rest[0])) && forall c <- rest :: !IsDigit(c)
    ensures Nums(g + sp + rest) == ReadNumber(g)
  {
    assert rest != "" ==> rest[0] in rest;
    NumsTake(g, sp, rest);
    NumsSkip(rest, "");
    assert rest + "" == rest;
  }

  /** A number with blanks in it is read exactly when every blank is the plain space: a no-break space
      between thousands makes the parser drop the number. */
  lemma GroupedNumberIsReadIff(g: string, sp: string, tail: string)
    requires Grouped(g) && (forall c <- sp :: IsSpace(c)) && (tail == "" || !IsSpace(tail[0])) && forall c <- tail :: !IsDigit(c)
    ensures |Nums(g + sp + tail)| == if PlainBlanks(g) then 1 else 0
  {
    NumsTakeLast(g, sp, tail);
    ReadIff(g);
  }

  lemma ShownNumberIsRead(n: nat)
    ensures Grouped(Show(n)) && ReadNumber(Show(n)) == [n]
  {
    var s := Show(n);
    assert s[0] in s && s[|s| - 1] in s;
    NoSpacesKeeps(s);
    ValueOfShow(n);
  }

  // ----- texts that are already prepared -----

  /** Lower case, no per cent sign, no blank at either end. */
  predicate Plain(t: string) {
    && t != "" && !IsSpace(t[0]) && !IsSpace(t[|t| - 1])
    && forall c <- t :: LowerChar(c) == c && c != '%'
  }

  lemma {:induction false} LowerKeeps(t: string)
    requires forall c <- t :: LowerChar(c) == c
    ensures Lower(t) == t
  {
    if t != "" { LowerKeeps(t[1..]); }
  }

  lemma {:induction false} NoDiscountsKeeps(t: string)
    requires '%' !in t
    ensures NoDiscounts(t) == t
    decreases |t|
  {
    if t != "" {
      var rest := t[Passed(t)..];
      NoDiscountsKeeps(rest);
      FrontAndRest(t, Passed(t));
      KeepsFront(t, Passed(t), rest);
    }
  }

  lemma FrontAndRest(t: string, n: nat)
    requires n <= |t|
    ensures t[..n] + t[n..] == t
  {}

  lemma KeepsFront(t: string, n: nat, rest: string)
    requires t != "" && DiscountEnd(t) == 0 && n == Passed(t) && rest == t[n..] && NoDiscounts(rest) == rest && t[..n] + rest == t
    ensures NoDiscounts(t) == t
  {}

  lemma PlainIsPrepared(t: string)
    requires Plain(t)
    ensures Prepared(t) == t && TrimRight(t) != ""
  {
    LowerKeeps(t);
    NoDiscountsKeeps(t);
  }

  lemma BoundIsFound(t: string, i: nat, word: string, digits: string)
    requires i + |word| + 1 <= |t| && t[i..] == word + " " + digits && digits != "" && IsDigit(digits[0])
    requires i == 0 || !IsWordChar(t[i - 1])
    ensures HasBound(t, word)
  {
    assert t[i + |word|..] == t[i..][|word|..] == " " + digits;
    LeadingBlanks(" ", digits);
    assert BoundAt(t, word, i);
  }

  lemma PrefixIsIn(s: string, word: string)
    ensures StartsWith(s, word) ==> forall c <- word :: c in s
  {}

  lemma NoBound(t: string, word: string, c: char)
    requires c in word && c !in t
    ensures !HasBound(t, word)
  {
    forall i | 0 <= i <= |t| ensures !BoundAt(t, word, i) {
      assert forall x <- t[i..] :: x in t;
      PrefixIsIn(t[i..], word);
    }
  }

  // ----- the four shapes -----

  predicate Quiet(c: char) { LowerChar(c) == c && c != '%' && !IsDigit(c) }

  /** What may stand before a number: nothing, or words in lower case. */
  predicate Lead(p: string) { (p != "" ==> !IsSpace(p[0])) && forall c <- p :: Quiet(c) }

  /** What may stand after one: a blank and words in lower case. */
  predicate Tail(s: string) {
    |s| >= 2 && IsSpace(s[0]) && !IsSpace(s[1]) && !IsSpace(s[|s| - 1]) && forall c <- s :: Quiet(c)
  }

  lemma TailParts(tail: string) returns (sp: string, rest: string)
    requires Tail(tail)
    ensures tail == sp + rest && (forall c <- sp :: IsSpace(c)) && rest != "" && !IsSpace(rest[0]) && forall c <- rest :: !IsDigit(c)
  {
    sp, rest := tail[..1], tail[1..];
    assert forall c <- rest :: c in tail;
  }

  lemma NumsAround(p: string, n: nat, tail: string)
    requires Lead(p) && Tail(tail)
    ensures Nums(p + Show(n) + tail) == [n]
  {
    var s := Show(n);
    ShownNumberIsRead(n);
    var sp, rest := TailParts(tail);
    NumsTakeLast(s, sp, rest);
    Regroup(s, sp, rest);
    NumsSkip(p, s + tail);
    Regroup(p, s, tail);
  }

  lemma PlainAround(p: string, n: nat, tail: string)
    requires Lead(p) && Tail(tail)
    ensures Plain(p + Show(n) + tail)
  {
    var s := Show(n);
    var t := p + s + tail;
    assert s[0] in s;
    assert t[0] == if p != "" then p[0] else s[0];
    assert t[|t| - 1] == tail[|tail| - 1];
    forall c | c in t ensures LowerChar(c) == c && c != '%' {
      assert c in p || c in s || c in tail;
    }
  }

  lemma Regroup(a: string, b: string, c: string)
    ensures a + b + c == a + (b + c)
  {}

  lemma NumsBefore(p: string, a: nat, r: string)
    requires Lead(p) && r != "" && !DigitOrSpace(r[0])
    ensures Nums(p + (Show(a) + " " + r)) == [a] + Nums(r)
  {
    ShownNumberIsRead(a);
    NumsTake(Show(a), " ", r);
    NumsSkip(p, Show(a) + " " + r);
  }

  lemma PlainBefore(p: string, a: nat, r: string)
    requires Lead(p) && Plain(r)
    ensures Plain(p + (Show(a) + " " + r))
  {
    var s := Show(a);
    var t := p + (s + " " + r);
    assert s[0] in s;
    assert t[0] == if p != "" then p[0] else s[0];
    assert t[|t| - 1] == r[|r| - 1];
    forall c | c in t ensures LowerChar(c) == c && c != '%' {
      assert c in p || c in s || c == ' ' || c in r;
    }
  }

  lemma Absent(p: string, n: nat, tail: string, c: char)
    requires c !in p && c !in tail && !IsDigit(c)
    ensures c !in p + Show(n) + tail
  {}

  predicate Currency(tail: string) { tail == " рублей" || tail == " ₽" }

  lemma CurrencyIsTail(tail: string)
    requires Currency(tail)
    ensures Tail(tail) && 'т' !in tail && 'д' !in tail
  {}

  lemma WordsLead()
    ensures Lead("") && Lead("от ") && Lead("до ")
  {}

  /** A marker word, then a number. */
  lemma MarkerIsFound(t: string, head: string, word: string, n: nat, rest: string)
    requires word != "" && t == head + (word + " " + (Show(n) + rest)) && (head == "" || !IsWordChar(head[|head| - 1]))
    ensures HasBound(t, word)
  {
    var i := |head|;
    assert t[i..] == word + " " + (Show(n) + rest);
    assert Show(n)[0] in Show(n);
    assert head != "" ==> t[i - 1] == head[i - 1];
    BoundIsFound(t, i, word, Show(n) + rest);
  }

  /** What the parser makes of the numbers and markers of a prepared text. */
  function Judged(lo: nat, hi: nat, from: bool, to: bool): Range {
    if from then Range(Amount(lo), if to then Amount(hi) else None)
    else Range(Amount(if to then 0 else lo), Amount(hi))
  }

  lemma OneIsJudged(t: string, n: nat)
    requires Plain(t) && Nums(t) == [n]
    ensures Parse(t) == Judged(n, n, HasBound(t, "от"), HasBound(t, "до"))
  {
    PlainIsPrepared(t);
    assert Least([n]) == Some(n) && Greatest([n]) == Some(n) by {
      assert n in [n];
    }
  }

  lemma TwoAreJudged(t: string, a: nat, b: nat)
    requires Plain(t) && Nums(t) == [a, b]
    ensures Parse(t) == Judged(if a <= b then a else b, if a <= b then b else a, HasBound(t, "от"), HasBound(t, "до"))
  {
    PlainIsPrepared(t);
    assert a in [a, b] && b in [a, b];
    assert Least([a, b]) == Some(if a <= b then a else b) && Greatest([a, b]) == Some(if a <= b then b else a);
  }

  lemma ParseOne(n: nat, tail: string)
    requires Currency(tail)
    ensures Parse(Show(n) + tail) == Range(Amount(n), Amount(n))
  {
    CurrencyIsTail(tail);
    OneUnmarked(n, tail);
    OneIsJudged(Show(n) + tail, n);
  }

  lemma OneUnmarked(n: nat, tail: string)
    requires Tail(tail) && 'т' !in tail && 'д' !in tail
    ensures var t := Show(n) + tail; Plain(t) && Nums(t) == [n] && !HasBound(t, "от") && !HasBound(t, "до")
  {
    assert "" + Show(n) == Show(n);
    NumsAround("", n, tail);
    PlainAround("", n, tail);
    NoBound(Show(n) + tail, "от", 'т');
    NoBound(Show(n) + tail, "до", 'д');
  }

  /** One number with a marker before it: only that marker is found. */
  lemma OneMarked(t: string, word: string, n: nat, tail: string)
    requires Lead(word + " ") && Tail(tail) && word != "" && t == word + " " + Show(n) + tail
    ensures Plain(t) && Nums(t) == [n] && HasBound(t, word)
  {
    NumsAround(word + " ", n, tail);
    PlainAround(word + " ", n, tail);
    Regroup(word + " ", Show(n), tail);
    assert t == "" + (word + " " + (Show(n) + tail));
    MarkerIsFound(t, "", word, n, tail);
  }

  lemma ParseFrom(n: nat, tail: string)
    requires Currency(tail)
    ensures Parse("от " + Show(n) + tail) == Range(Amount(n), None)
  {
    var t := "от " + Show(n) + tail;
    assert "от" + " " == "от ";
    CurrencyIsTail(tail);
    WordsLead();
    OneMarked(t, "от", n, tail);
    Absent("от ", n, tail, 'д');
    NoBound(t, "до", 'д');
    OneIsJudged(t, n);
  }

  lemma ParseTo(n: nat, tail: string)
    requires Currency(tail)
    ensures Parse("до " + Show(n) + tail) == Range(Amount(0), Amount(n))
  {
    var t := "до " + Show(n) + tail;
    assert "до" + " " == "до ";
    CurrencyIsTail(tail);
    WordsLead();
    OneMarked(t, "до", n, tail);
    Absent("до ", n, tail, 'т');
    NoBound(t, "от", 'т');
    OneIsJudged(t, n);
  }

  /** A marked number before a text that is already read. */
  lemma MarkedBefore(from: string, a: nat, r: string)
    requires Lead(from + " ") && from != "" && r != "" && !DigitOrSpace(r[0]) && Plain(r)
    ensures var t := from + " " + (Show(a) + " " + r);
      Plain(t) && Nums(t) == [a] + Nums(r) && HasBound(t, from)
  {
    var t := from + " " + (Show(a) + " " + r);
    NumsBefore(from + " ", a, r);
    PlainBefore(from + " ", a, r);
    Regroup(Show(a), " ", r);
    assert t == "" + (from + " " + (Show(a) + (" " + r)));
    MarkerIsFound(t, "", from, a, " " + r);
  }

  lemma MarkerAfter(head: string, to: string, b: nat, tail: string)
    requires to != ""
    ensures HasBound(head + " " + (to + " " + Show(b) + tail), to)
  {
    var h := head + " ";
    Regroup(to + " ", Show(b), tail);
    MarkerIsFound(h + (to + " " + Show(b) + tail), h, to, b, tail);
  }

  lemma Regroup5(a: string, b: string, sp: string, c: string, d: string, e: string)
    ensures a + b + (sp + c) + d + e == a + (b + sp + (c + d + e))
    ensures a + b + (sp + c) + d + e == a + b + sp + (c + d + e)
  {}

  /** The first of two marked numbers. */
  lemma FirstMarked(t: string, from: string, a: nat, to: string, b: nat, r: string, tail: string)
    requires Lead(from + " ") && from != "" && to != "" && !DigitOrSpace(to[0]) && r == to + " " + Show(b) + tail && Plain(r) && Nums(r) == [b]
    requires t == from + " " + (Show(a) + " " + r)
    ensures Plain(t) && Nums(t) == [a, b] && HasBound(t, from)
  {
    assert r[0] == to[0];
    MarkedBefore(from, a, r);
    assert [a] + [b] == [a, b];
  }

  /** Two numbers, each with a marker before it. */
  lemma BothMarked(from: string, a: nat, to: string, b: nat, tail: string)
    requires Lead(from + " ") && from != "" && Lead(to + " ") && to != "" && !DigitOrSpace(to[0]) && Tail(tail)
    ensures var t := from + " " + Show(a) + (" " + (to + " ")) + Show(b) + tail;
      Plain(t) && Nums(t) == [a, b] && HasBound(t, from) && HasBound(t, to)
  {
    var r := to + " " + Show(b) + tail;
    var t := from + " " + Show(a) + (" " + (to + " ")) + Show(b) + tail;
    Regroup5(from + " ", Show(a), " ", to + " ", Show(b), tail);
    OneMarked(r, to, b, tail);
    FirstMarked(t, from, a, to, b, r, tail);
    MarkerAfter(from + " " + Show(a), to, b, tail);
  }

  lemma ParseBoth(a: nat, b: nat, tail: string)
    requires Currency(tail)
    ensures Parse("от " + Show(a) + " до " + Show(b) + tail) == Range(Amount(if a <= b then a else b), Amount(if a <= b then b else a))
  {
    CurrencyIsTail(tail);
    WordsLead();
    var from, to := "от", "до";
    assert from + " " == "от " && to + " " == "до " && " " + (to + " ") == " до ";
    BothMarked(from, a, to, b, tail);
    TwoAreJudged("от " + Show(a) + " до " + Show(b) + tail, a, b);
  }

  lemma {:induction false} LowerIs(s: string, t: string)
    requires |s| == |t| && forall i | 0 <= i < |s| :: LowerChar(s[i]) == t[i]
    ensures Lower(s) == t
  {
    if s != "" { LowerIs(s[1..], t[1..]); }
  }

  /** A text without digits whose lower case starts with a free word says free. */
  lemma FreeText(s: string, t: string)
    requires s != "" && !IsSpace(s[0]) && !IsSpace(s[|s| - 1])
    requires |s| == |t| && (forall i | 0 <= i < |s| :: LowerChar(s[i]) == t[i]) && (forall c <- t :: Quiet(c))
    requires StartsWith(t, "беспл")
    ensures Parse(s) == Range(Amount(0), Amount(0))
  {
    LowerIs(s, t);
    NoDiscountsKeeps(t);
    NumsSkip(t, "");
    assert t + "" == t && t[0..] == t;
    assert Contains(t, "беспл");
  }

  lemma ParseFree()
    ensures Parse(FREE) == Range(Amount(0), Amount(0))
  {
    FreeText(FREE, "бесплатно");
  }

  // ----- Timepad -----

  /** The price a Timepad registration is understood to state. */
  function Whole(r: Option<real>): Option<real> { if r.Some? then Amount(r.value.Floor) else None }

  function Positive(r: Option<real>): Option<real> { if r.Some? && r.value > 0.0 then r else None }

  /** The whole roubles of the positive prices; a range the wrong way round keeps only its lower bound. */
  function InRoubles(lo: Option<real>, hi: Option<real>): Range {
    if lo.None? && hi.None? then Range(None, None)
    else if lo.None? then Range(Amount(0), Whole(hi))
    else if hi.None? || hi.value < lo.value then Range(Whole(lo), None)
    else Range(Whole(lo), Whole(hi))
  }

  /** For every registration the text reads back as those. */
  lemma TimepadReadsBack(priceMin: Option<real>, priceMax: Option<real>)
    ensures Parse(TimepadText(priceMin, priceMax)) == InRoubles(Positive(priceMin), Positive(priceMax))
  {
    var lo, hi := Positive(priceMin), Positive(priceMax);
    var tail := " рублей";
    if lo.Some? && hi.Some? && hi.value > lo.value {
      assert lo.value.Floor <= hi.value.Floor;
      ParseBoth(lo.value.Floor, hi.value.Floor, tail);
    } else if lo.Some? && hi.Some? && lo.value == hi.value {
      ParseOne(lo.value.Floor, tail);
    } else if lo.Some? {
      ParseFrom(lo.value.Floor, tail);
    } else if hi.Some? {
      ParseTo(hi.value.Floor, tail);
    }
  }

  predicate IsWhole(r: Option<real>) { r.Some? ==> r.value.Floor as real == r.value }

  /** The range a registration states: an upper price alone is a range from nothing. */
  function Stated(lo: Option<real>, hi: Option<real>): Range {
    Range(if lo.None? && hi.Some? then Some(0.0) else lo, hi)
  }

  /** The promised exact round trip holds exactly when the positive prices are whole and, if both are there,
      in order. */
  lemma TimepadRoundTripsIff(priceMin: Option<real>, priceMax: Option<real>)
    ensures var lo, hi := Positive(priceMin), Positive(priceMax);
      Parse(TimepadText(priceMin, priceMax)) == Stated(lo, hi) <==>
        IsWhole(lo) && IsWhole(hi) && (lo.Some? && hi.Some? ==> lo.value <= hi.value)
  {
    TimepadReadsBack(priceMin, priceMax);
  }

  lemma FreeRoublesIff(lo: Option<real>, hi: Option<real>)
    requires (lo.Some? ==> lo.value > 0.0) && (hi.Some? ==> hi.value > 0.0)
    ensures InRoubles(lo, hi) == Range(Amount(0), Amount(0)) <==> hi.Some? && hi.value < 1.0 && (lo.Some? ==> lo.value <= hi.value)
  {}

  /** "Never a false free": a paid registration reads back as free exactly when its last price is below one
      rouble and nothing above it is stated. */
  lemma TimepadSaysFreeIff(priceMin: Option<real>, priceMax: Option<real>)
    ensures var lo, hi := Positive(priceMin), Positive(priceMax);
      Parse(TimepadText(priceMin, priceMax)) == Range(Amount(0), Amount(0)) <==>
        hi.Some? && hi.value < 1.0 && (lo.Some? ==> lo.value <= hi.value)
  {
    TimepadReadsBack(priceMin, priceMax);
    FreeRoublesIff(Positive(priceMin), Positive(priceMax));
  }

  // ----- Yandex -----

  /** The range two prices stand for, lower one first; one price alone is both ends. */
  function Between(lo: Option<int>, hi: Option<int>): Range {
    if lo.None? && hi.None? then Range(None, None)
    else
      var a, b := if lo.Some? then lo.value else hi.value, if hi.Some? then hi.value else lo.value;
      if a <= b then Range(Amount(a), Amount(b)) else Range(Amount(b), Amount(a))
  }

  predicate NotNegative(r: Option<int>) { r.Some? ==> r.value >= 0 }

  lemma YandexReadsBack(lo: Option<int>, hi: Option<int>)
    requires NotNegative(lo) && NotNegative(hi)
    ensures Parse(YandexText(lo, hi).0) == Between(lo, hi)
  {
    var tail := " ₽";
    if lo.Some? || hi.Some? {
      if lo == Some(0) && (hi.None? || hi.value == 0) {
        ParseFree();
      } else if lo.Some? && hi.Some? && lo != hi {
        ParseBoth(lo.value, hi.value, tail);
      } else {
        ParseOne(if lo.Some? then lo.value else hi.value, tail);
      }
    }
  }

  /** Whatever the tickets, their prices come back exactly when none of them is negative. */
  lemma YandexRoundTripsIff(lo: Option<int>, hi: Option<int>)
    ensures Parse(YandexText(lo, hi).0) == Between(lo, hi) <==> NotNegative(lo) && NotNegative(hi)
  {
    if NotNegative(lo) && NotNegative(hi) {
      YandexReadsBack(lo, hi);
    } else {
      ParsedRangeIsOrdered(YandexText(lo, hi).0);
    }
  }

  /** The free flag and the parsed price agree, but for one case: a lone highest price of nothing. */
  lemma YandexFreeIff(lo: Option<int>, hi: Option<int>)
    requires NotNegative(lo) && NotNegative(hi)
    ensures Parse(YandexText(lo, hi).0) == Range(Amount(0), Amount(0)) <==> YandexText(lo, hi).1 || (lo.None? && hi == Some(0))
  {
    YandexReadsBack(lo, hi);
  }

  lemma RoundIsMonotone(x: real, y: real)
    requires x <= y
    ensures Round(x) <= Round(y)
  {}

  lemma {:induction false} MinsHold(tickets: seq<Ticket>, x: real)
    ensures x in Mins(tickets) <==> exists t <- tickets :: t.min == Some(x)
  {
    if tickets != [] {
      var n := |tickets| - 1;
      assert tickets == tickets[..n] + [tickets[n]];
      MinsHold(tickets[..n], x);
      assert (exists t <- tickets :: t.min == Some(x)) <==> (exists t <- tickets[..n] :: t.min == Some(x)) || tickets[n].min == Some(x);
    }
  }

  lemma {:induction false} MaxsHold(tickets: seq<Ticket>, x: real)
    ensures x in Maxs(tickets) <==> exists t <- tickets :: t.max == Some(x)
  {
    if tickets != [] {
      var n := |tickets| - 1;
      assert tickets == tickets[..n] + [tickets[n]];
      MaxsHold(tickets[..n], x);
      assert (exists t <- tickets :: t.max == Some(x)) <==> (exists t <- tickets[..n] :: t.max == Some(x)) || tickets[n].max == Some(x);
    }
  }

  lemma LowestBounds(tickets: seq<Ticket>, t: Ticket)
    requires t in tickets && t.min.Some?
    ensures Lo(tickets).Some? && Lo(tickets).value <= Roubles(t.min.value)
  {
    MinsHold(tickets, t.min.value);
    RoundIsMonotone(Lowest(Mins(tickets)) / 100.0, t.min.value / 100.0);
  }

  lemma HighestBounds(tickets: seq<Ticket>, t: Ticket)
    requires t in tickets && t.max.Some?
    ensures Hi(tickets).Some? && Roubles(t.max.value) <= Hi(tickets).value
  {
    MaxsHold(tickets, t.max.value);
    RoundIsMonotone(t.max.value / 100.0, Highest(Maxs(tickets)) / 100.0);
  }

  /** Some ticket gives this price, in whole roubles. */
  ghost predicate GivenByATicket(price: Option<real>, tickets: seq<Ticket>) {
    exists t <- tickets :: (t.min.Some? && price == Amount(Roubles(t.min.value))) || (t.max.Some? && price == Amount(Roubles(t.max.value)))
  }

  /** The tightest range around all tickets: no ticket's lowest price lies below it, none's highest above it,
      and both its ends are some ticket's. */
  ghost predicate Hugs(r: Range, tickets: seq<Ticket>) {
    && r.lo.Some? && r.hi.Some?
    && (forall t <- tickets | t.min.Some? :: r.lo.value <= Roubles(t.min.value) as real)
    && (forall t <- tickets | t.max.Some? :: Roubles(t.max.value) as real <= r.hi.value)
    && GivenByATicket(r.lo, tickets) && GivenByATicket(r.hi, tickets)
  }

  lemma EndsAreGiven(tickets: seq<Ticket>)
    ensures Lo(tickets).Some? ==> GivenByATicket(Amount(Lo(tickets).value), tickets)
    ensures Hi(tickets).Some? ==> GivenByATicket(Amount(Hi(tickets).value), tickets)
  {
    if Lo(tickets).Some? { MinsHold(tickets, Lowest(Mins(tickets))); }
    if Hi(tickets).Some? { MaxsHold(tickets, Highest(Maxs(tickets))); }
  }

  lemma BetweenHugs(tickets: seq<Ticket>)
    requires Lo(tickets).Some? || Hi(tickets).Some?
    ensures Hugs(Between(Lo(tickets), Hi(tickets)), tickets)
  {
    EndsAreGiven(tickets);
    forall t | t in tickets && t.min.Some? ensures Lo(tickets).Some? && Lo(tickets).value <= Roubles(t.min.value) { LowestBounds(tickets, t); }
    forall t | t in tickets && t.max.Some? ensures Hi(tickets).Some? && Roubles(t.max.value) <= Hi(tickets).value { HighestBounds(tickets, t); }
  }

  lemma NoPriceNoRange(tickets: seq<Ticket>)
    requires forall t <- tickets :: t.min.None? && t.max.None?
    ensures Lo(tickets).None? && Hi(tickets).None?
  {
    if Lo(tickets).Some? { MinsHold(tickets, Lowest(Mins(tickets))); }
    if Hi(tickets).Some? { MaxsHold(tickets, Highest(Maxs(tickets))); }
  }

  /** The stored range of a list of tickets, whichever of their prices are given, is the tightest one around
      them, and nothing when no price is given. */
  lemma ParsedRangeHugsTheTickets(tickets: seq<Ticket>)
    requires NotNegative(Lo(tickets)) && NotNegative(Hi(tickets))
    ensures var r := Parse(YandexText(Lo(tickets), Hi(tickets)).0);
      if forall t <- tickets :: t.min.None? && t.max.None? then r == Range(None, None) else Hugs(r, tickets)
  {
    YandexReadsBack(Lo(tickets), Hi(tickets));
    if forall t <- tickets :: t.min.None? && t.max.None? {
      NoPriceNoRange(tickets);
    } else {
      var t :| t in tickets && (t.min.Some? || t.max.Some?);
      if t.min.Some? { LowestBounds(tickets, t); } else { HighestBounds(tickets, t); }
      BetweenHugs(tickets);
    }
  }

  // ----- Afisha -----

  /** The schedule's lowest price reads back as that bound, or as free; the flag agrees with the parser. */
  lemma AfishaReadsBack(minPrice: Option<real>)
    ensures var (text, free) := AfishaText(minPrice);
      && Parse(text) == (if minPrice.None? then Range(None, None)
                         else if Round(minPrice.value) <= 0 then Range(Amount(0), Amount(0))
                         else Range(Amount(Round(minPrice.value)), None))
      && (free <==> Parse(text) == Range(Amount(0), Amount(0)))
  {
    if minPrice.Some? {
      if Round(minPrice.value) <= 0 { ParseFree(); } else { ParseFrom(Round(minPrice.value), " ₽"); }
    }
  }
}
