/** The price parser and the three price printers that feed it, on real strings.  Amounts are `real` where
  the source has floats. */
module Prices {
  import opened Collections
  import opened Text

  // ----- numbers as text -----

  function DigitChar(d: nat): char requires d < 10 { ('0' as int + d) as char }

  function DigitValue(c: char): nat requires IsDigit(c) { c as int - '0' as int }

  /** `str` of a number. */
  function Show(n: nat): (s: string)
    ensures s != "" && AllDigits(s)
  {
    if n < 10 then [DigitChar(n)] else Show(n / 10) + [DigitChar(n % 10)]
  }

  function ShowInt(n: int): string { if n < 0 then "-" + Show(-n) else Show(n) }

  predicate AllDigits(s: string) { forall c <- s :: IsDigit(c) }

  /** `int` of a string of digits. */
  function Value(s: string): nat
    requires AllDigits(s)
  {
    if s == "" then 0 else Value(s[..|s| - 1]) * 10 + DigitValue(s[|s| - 1])
  }

  lemma {:induction false} ValueOfShow(n: nat)
    ensures Value(Show(n)) == n
  {
    if n >= 10 {
      ValueOfShow(n / 10);
      var s := Show(n);
      assert s[..|s| - 1] == Show(n / 10);
    } else {
      assert Show(n)[..0] == "";
    }
  }

  // ----- the scans of the parser -----

  predicate DigitOrSpace(c: char) { IsDigit(c) || IsSpace(c) }

  function Lower(s: string): (r: string)
    ensures |r| == |s|
  {
    if s == "" then "" else [LowerChar(s[0])] + Lower(s[1..])
  }

  /** `replace(" ", "")`. */
  function NoSpaces(s: string): string {
    if s == "" then "" else (if s[0] == ' ' then "" else [s[0]]) + NoSpaces(s[1..])
  }

  /** `int(...)` of one match; any blank but the plain space is left in the match and fails it. */
  function ReadNumber(group: string): seq<nat> {
    var digits := NoSpaces(group);
    if digits != "" && AllDigits(digits) then [Value(digits)] else []
  }

  /** `_nums`: a match is a digit and the digits and blanks after it, up to the last digit. */
  function Nums(t: string): seq<nat>
    decreases |t|
  {
    if t == "" then []
    else if !IsDigit(t[0]) then Nums(t[1..])
    else
      var n := RunLength(t, DigitOrSpace);
      ReadNumber(TrimRight(t[..n])) + Nums(t[n..])
  }

  /** Where the discount ends that the text begins with, digits, blanks, per cent; 0 if there is none. */
  function DiscountEnd(t: string): (e: nat)
    ensures e <= |t|
  {
    var n := RunLength(t, IsDigit);
    var m := n + RunLength(t[n..], IsSpace);
    if 0 < n && m < |t| && t[m] == '%' then m + 1 else 0
  }

  /** What one search step passes over: a whole run of digits, or one other character. */
  function Passed(t: string): (n: nat)
    requires t != ""
    ensures 0 < n <= |t|
  {
    if IsDigit(t[0]) then RunLength(t, IsDigit) else 1
  }

  /** The text without discounts: `re.sub(r"\d+\s*%", "", t)`. */
  function NoDiscounts(t: string): string
    decreases |t|
  {
    if t == "" then ""
    else if DiscountEnd(t) > 0 then NoDiscounts(t[DiscountEnd(t)..])
    else t[..Passed(t)] + NoDiscounts(t[Passed(t)..])
  }

  predicate StartsWith(t: string, p: string) { |p| <= |t| && t[..|p|] == p }

  predicate IsWordChar(c: char) { IsTokenChar(LowerChar(c)) || c == 'ё' || c == 'Ё' || c == '_' }

  /** The word at position i starts there and a number follows it. */
  predicate BoundAt(t: string, word: string, i: nat)
    requires i <= |t|
  {
    && (i == 0 || !IsWordChar(t[i - 1]))
    && StartsWith(t[i..], word)
    && var rest := TrimLeft(t[i + |word|..]); rest != "" && IsDigit(rest[0])
  }

  /** `re.search(r"\bword\s*\d", t)`. */
  predicate HasBound(t: string, word: string) { exists i :: 0 <= i <= |t| && BoundAt(t, word, i) }

  predicate Contains(t: string, p: string) { exists i :: 0 <= i <= |t| && StartsWith(t[i..], p) }

  predicate SaysFree(t: string) { Contains(t, "беспл") || Contains(t, "вход свободн") || Contains(t, "free") }

  datatype Range = Range(lo: Option<real>, hi: Option<real>)

  function Amount(n: int): Option<real> { Some(n as real) }

  function Prepared(text: string): string { NoDiscounts(Lower(TrimLeft(TrimRight(text)))) }

  /** The range a prepared text states. */
  function Judge(t: string): Range {
    var nums := Nums(t);
    if nums == [] then if SaysFree(t) then Range(Amount(0), Amount(0)) else Range(None, None)
    else
      var from, to := HasBound(t, "от"), HasBound(t, "до");
      var lo, hi := Least(nums).value, Greatest(nums).value;
      if from && to then Range(Amount(lo), Amount(hi))
      else if from then Range(Amount(lo), None)
      else if to then Range(Amount(0), Amount(hi))
      else if |nums| == 1 then Range(Amount(nums[0]), Amount(nums[0]))
      else Range(Amount(lo), Amount(hi))
  }

  /** `parse_price_field`. */
  function Parse(text: string): Range {
    if TrimRight(text) == "" then Range(None, None) else Judge(Prepared(text))
  }

  /** The next match, and the text after it. */
  lemma NumsTaken(t: string, i: nat, n: nat)
    requires i < |t| && IsDigit(t[i]) && n == RunLength(t[i..], DigitOrSpace)
    ensures 0 < n <= |t| - i && Nums(t[i..]) == ReadNumber(TrimRight(t[i..][..n])) + Nums(t[i + n..])
  {
    assert t[i..][n..] == t[i + n..];
  }

  lemma NumsPassed(t: string, i: nat)
    requires i < |t| && !IsDigit(t[i])
    ensures Nums(t[i..]) == Nums(t[i + 1..])
  {
    assert t[i..][1..] == t[i + 1..];
  }

  lemma ListedNext(out: seq<nat>, group: seq<nat>, rest: seq<nat>)
    ensures out + (group + rest) == (out + group) + rest
  {}

  method Numbers(t: string) returns (out: seq<nat>)
    ensures out == Nums(t)
  {
    out := [];
    var i := 0;
    while i < |t|
      invariant i <= |t| && out + Nums(t[i..]) == Nums(t)
    {
      if IsDigit(t[i]) {
        var n := RunLength(t[i..], DigitOrSpace);
        NumsTaken(t, i, n);
        var number := ReadNumber(TrimRight(t[i..][..n]));
        ListedNext(out, number, Nums(t[i + n..]));
        out, i := out + number, i + n;
      } else {
        NumsPassed(t, i);
        i := i + 1;
      }
    }
  }

  // ----- the printers -----

  /** `_price_text` of Timepad: only a positive price counts, and kopecks are cut off. */
  function TimepadText(priceMin: Option<real>, priceMax: Option<real>): string {
    var lo := if priceMin.Some? && priceMin.value > 0.0 then priceMin else None;
    var hi := if priceMax.Some? && priceMax.value > 0.0 then priceMax else None;
    if lo.Some? && hi.Some? && hi.value > lo.value then
      "от " + Show(lo.value.Floor) + " до " + Show(hi.value.Floor) + " рублей"
    else if lo.Some? && hi.Some? && lo.value == hi.value then Show(lo.value.Floor) + " рублей"
    else if lo.Some? then "от " + Show(lo.value.Floor) + " рублей"
    else if hi.Some? then "до " + Show(hi.value.Floor) + " рублей"
    else ""
  }

  /** Python's `round`: a half goes to the even neighbour. */
  function Round(x: real): int {
    var f := x.Floor;
    var d := x - f as real;
    if d < 0.5 || (d == 0.5 && f % 2 == 0) then f else f + 1
  }

  const FREE := "Бесплатно"

  /** `_price` of Yandex Afisha, from the lowest and highest price of the tickets in roubles. */
  function YandexText(lo: Option<int>, hi: Option<int>): (string, bool) {
    if lo.None? && hi.None? then ("", false)
    else if lo == Some(0) && (hi.None? || hi.value == 0) then (FREE, true)
    else if lo.Some? && hi.Some? && lo != hi then ("от " + ShowInt(lo.value) + " до " + ShowInt(hi.value) + " ₽", false)
    else (ShowInt(if lo.Some? then lo.value else hi.value) + " ₽", false)
  }

  /** One ticket's prices, in kopecks. */
  datatype Ticket = Ticket(min: Option<real>, max: Option<real>)

  function Given(p: Option<real>): seq<real> { if p.Some? then [p.value] else [] }

  function Mins(tickets: seq<Ticket>): seq<real> {
    if tickets == [] then [] else Mins(tickets[..|tickets| - 1]) + Given(tickets[|tickets| - 1].min)
  }

  function Maxs(tickets: seq<Ticket>): seq<real> {
    if tickets == [] then [] else Maxs(tickets[..|tickets| - 1]) + Given(tickets[|tickets| - 1].max)
  }

  function Lowest(s: seq<real>): (m: real)
    requires s != []
    ensures m in s && forall x <- s :: m <= x
  {
    if |s| == 1 then s[0]
    else
      assert s == [s[0]] + s[1..];
      var m := Lowest(s[1..]); if s[0] <= m then s[0] else m
  }

  function Highest(s: seq<real>): (m: real)
    requires s != []
    ensures m in s && forall x <- s :: x <= m
  {
    if |s| == 1 then s[0]
    else
      assert s == [s[0]] + s[1..];
      var m := Highest(s[1..]); if s[0] >= m then s[0] else m
  }

  function Roubles(kopecks: real): int { Round(kopecks / 100.0) }

  function Lo(tickets: seq<Ticket>): Option<int> {
    if Mins(tickets) == [] then None else Some(Roubles(Lowest(Mins(tickets))))
  }

  function Hi(tickets: seq<Ticket>): Option<int> {
    if Maxs(tickets) == [] then None else Some(Roubles(Highest(Maxs(tickets))))
  }

  method YandexPrice(tickets: seq<Ticket>) returns (text: string, free: bool)
    ensures (text, free) == YandexText(Lo(tickets), Hi(tickets))
  {
    var mins, maxs := [], [];
    for i := 0 to |tickets|
      invariant mins == Mins(tickets[..i]) && maxs == Maxs(tickets[..i])
    {
      assert tickets[..i + 1][..i] == tickets[..i];
      if tickets[i].min.Some? { mins := mins + [tickets[i].min.value]; }
      if tickets[i].max.Some? { maxs := maxs + [tickets[i].max.value]; }
    }
    assert tickets[..|tickets|] == tickets;
    if mins == [] && maxs == [] { return "", false; }
    var lo := if mins != [] then Some(Roubles(Lowest(mins))) else None;
    var hi := if maxs != [] then Some(Roubles(Highest(maxs))) else None;
    if lo == Some(0) && (hi.None? || hi.value == 0) { return FREE, true; }
    if lo.Some? && hi.Some? && lo != hi {
      return "от " + ShowInt(lo.value) + " до " + ShowInt(hi.value) + " ₽", false;
    }
    var value := if lo.Some? then lo.value else hi.value;
    return ShowInt(value) + " ₽", false;
  }

  /** `_price` of Afisha. */
  function AfishaText(minPrice: Option<real>): (string, bool) {
    if minPrice.None? then ("", false)
    else
      var value := Round(minPrice.value);
      if value <= 0 then (FREE, true) else ("от " + Show(value) + " ₽", false)
  }
}
