/** Public event codes: a number in Crockford base 32 behind a city prefix, and reading one back from what a
  person typed.  Upper case is that of the Latin alphabet. */
module Codes {
  import opened Collections
  import Text

  const SYMBOLS := "0123456789ABCDEFGHJKMNPQRSTVWXYZ"
  const DEFAULT_CITY := "MSK"
  const WIDTH := 4

  function Symbol(v: nat): char
    requires v < 32
  {
    (v + if v < 10 then 48 else if v < 18 then 55 else if v < 20 then 56 else if v < 22 then 57 else if v < 27 then 58 else 59) as char
  }

  /** The code points above spell the alphabet. */
  lemma SymbolsSpellTheAlphabet(v: nat)
    requires v < 32
    ensures SYMBOLS[v] == Symbol(v)
  {}

  /** The value of an upper-case symbol; the letters left out read as the digits they resemble. */
  function SymbolValue(c: char): (v: Option<nat>)
    ensures v.Some? ==> v.value < 32
  {
    if '0' <= c <= '9' then Some(c as nat - '0' as nat)
    else if 'A' <= c <= 'H' then Some(c as nat - 'A' as nat + 10)
    else if 'J' <= c <= 'K' then Some(c as nat - 'J' as nat + 18)
    else if 'M' <= c <= 'N' then Some(c as nat - 'M' as nat + 20)
    else if 'P' <= c <= 'T' then Some(c as nat - 'P' as nat + 22)
    else if 'V' <= c <= 'Z' then Some(c as nat - 'V' as nat + 27)
    else if c == 'I' || c == 'L' then Some(1)
    else if c == 'O' || c == 'U' then Some(0)
    else None
  }

  function UpperChar(c: char): char { if 'a' <= c <= 'z' then (c as int - 32) as char else c }

  predicate IsSeparator(c: char) { c == '-' || c == '·' || c == ' ' }

  // ----- encoding -----

  function Digits(n: nat): string { if n == 0 then "" else Digits(n / 32) + [Symbol(n % 32)] }

  function Zeros(k: nat): string { if k == 0 then "" else "0" + Zeros(k - 1) }

  function PadLeft(s: string, width: nat): string { if |s| >= width then s else Zeros(width - |s|) + s }

  function EncodeOf(n: int): string { if n <= 0 then Zeros(WIDTH) else PadLeft(Digits(n), WIDTH) }

  function Reversed(s: string): string { if s == "" then "" else Reversed(s[1..]) + [s[0]] }

  lemma {:induction false} ReversedGrows(s: string, c: char)
    ensures Reversed(s + [c]) == [c] + Reversed(s)
  {
    if s != "" {
      assert (s + [c])[1..] == s[1..] + [c];
      ReversedGrows(s[1..], c);
    }
  }

  method EncodeNo(n: int) returns (code: string)
    ensures code == EncodeOf(n)
  {
    if n <= 0 { return Zeros(WIDTH); }
    var m, out := n, "";
    while m > 0
      invariant m >= 0 && Digits(n) == Digits(m) + Reversed(out)
    {
      ReversedGrows(out, Symbol(m % 32));
      out := out + [Symbol(m % 32)];
      m := m / 32;
    }
    code := PadLeft(Reversed(out), WIDTH);
  }

  // ----- decoding -----

  function Strip(s: string): string { Text.TrimLeft(Text.TrimRight(s)) }

  /** The number the symbols of a string stand for, or nothing if it holds a foreign character. */
  function ValueOf(s: string): Option<nat> {
    if s == "" then Some(0)
    else
      var c := UpperChar(s[|s| - 1]);
      var front := ValueOf(s[..|s| - 1]);
      if front.None? || IsSeparator(c) then front
      else if SymbolValue(c).None? then None
      else Some(front.value * 32 + SymbolValue(c).value)
  }

  /** Blanks at the ends do not count. */
  function DecodeOf(s: string): Option<nat> { ValueOf(Strip(s)) }

  method DecodeNo(text: string) returns (r: Option<nat>)
    ensures r == DecodeOf(text)
  {
    var n: nat := 0;
    var s := Strip(text);
    for i := 0 to |s|
      invariant ValueOf(s[..i]) == Some(n)
    {
      assert s[..i + 1][..i] == s[..i];
      var c := UpperChar(s[i]);
      if IsSeparator(c) { continue; }
      if SymbolValue(c).None? {
        ForeignStays(s, i + 1);
        return None;
      }
      n := n * 32 + SymbolValue(c).value;
    }
    assert s[..|s|] == s;
    r := Some(n);
  }

  lemma {:induction false} ForeignStays(s: string, i: nat)
    requires i <= |s| && ValueOf(s[..i]).None?
    ensures ValueOf(s).None?
  {
    if i < |s| {
      assert s[..|s| - 1][..i] == s[..i];
      ForeignStays(s[..|s| - 1], i);
    } else {
      assert s[..i] == s;
    }
  }

  // ----- what a person may type for a number -----

  /** One symbol typed for another: either case, or a letter that looks like the digit. */
  predicate TypedFor(typed: char, symbol: char) {
    !IsSeparator(UpperChar(typed)) && SymbolValue(UpperChar(typed)).Some?
    && SymbolValue(UpperChar(typed)) == SymbolValue(symbol)
  }

  /** The text types the code: symbol for symbol, with separators anywhere and leading zeros as they like. */
  ghost predicate Types(text: string, code: string) {
    if text == "" then forall c <- code :: c == '0'
    else
      var n := |text| - 1;
      if IsSeparator(UpperChar(text[n])) then Types(text[..n], code)
      else if code == "" then SymbolValue(UpperChar(text[n])) == Some(0) && Types(text[..n], code)
      else TypedFor(text[n], code[|code| - 1]) && Types(text[..n], code[..|code| - 1])
  }

  lemma SymbolsRead(v: nat)
    requires v < 32
    ensures SymbolValue(Symbol(v)) == Some(v) && UpperChar(Symbol(v)) == Symbol(v) && !IsSeparator(Symbol(v))
    ensures Symbol(v) == '0' <==> v == 0
  {}

  lemma {:induction false} ZerosRead(code: string)
    requires forall c <- code :: c == '0'
    ensures ValueOf(code) == Some(0)
  {
    if code != "" {
      var n := |code| - 1;
      assert code[n] in code;
      assert forall c <- code[..n] :: c in code;
      ZerosRead(code[..n]);
    }
  }

  lemma {:induction false} ZerosAre(k: nat)
    ensures forall c <- Zeros(k) :: c == '0'
    ensures |Zeros(k)| == k
  {
    if k > 0 { ZerosAre(k - 1); }
  }

  lemma DecodeAppends(s: string, v: nat)
    requires v < 32
    ensures ValueOf(s + [Symbol(v)]) == if ValueOf(s).Some? then Some(ValueOf(s).value * 32 + v) else None
  {
    SymbolsRead(v);
    var t := s + [Symbol(v)];
    assert t[..|t| - 1] == s;
  }

  lemma {:induction false} DigitsRead(n: nat, pad: string)
    requires forall c <- pad :: c == '0'
    ensures ValueOf(pad + Digits(n)) == Some(n)
  {
    if n == 0 {
      assert pad + Digits(n) == pad;
      ZerosRead(pad);
    } else {
      DigitsRead(n / 32, pad);
      DecodeAppends(pad + Digits(n / 32), n % 32);
      assert pad + Digits(n) == pad + Digits(n / 32) + [Symbol(n % 32)];
    }
  }

  /** Every number comes back from its code, and nothing else does: the encoder writes a number that is not
      positive as zeros. */
  lemma EncodedReadsBack(n: int)
    ensures DecodeOf(EncodeOf(n)) == Some(if n >= 0 then n else 0)
  {
    CodesAreCanonical(n);
    NothingToStrip(EncodeOf(n));
    CodeHasValue(n);
  }

  lemma CodeHasValue(n: int)
    ensures ValueOf(EncodeOf(n)) == Some(if n >= 0 then n else 0)
  {
    ZerosAre(WIDTH);
    if n <= 0 {
      ZerosRead(Zeros(WIDTH));
    } else {
      var d := Digits(n);
      if |d| < WIDTH {
        ZerosAre(WIDTH - |d|);
        DigitsRead(n, Zeros(WIDTH - |d|));
      } else {
        DigitsRead(n, "");
        assert "" + d == d;
      }
    }
  }

  /** Only symbols of the alphabet: none of the letters left out of it. */
  predicate Canonical(code: string) {
    forall c <- code :: SymbolValue(c).Some? && UpperChar(c) == c && !IsSeparator(c) && c !in {'I', 'L', 'O', 'U'}
  }

  lemma NothingToStrip(code: string)
    requires Canonical(code)
    ensures Strip(code) == code
  {
    if code != "" {
      assert code[0] in code && code[|code| - 1] in code;
    }
  }

  /** Typing a code in any of these ways resolves to the number the code itself stands for. */
  lemma {:induction false} TypedReadsAlike(text: string, code: string)
    requires Canonical(code) && Types(text, code)
    ensures ValueOf(text) == ValueOf(code)
    decreases text
  {
    if text == "" {
      ZerosRead(code);
    } else {
      var n := |text| - 1;
      var c := UpperChar(text[n]);
      if IsSeparator(c) || code == "" {
        TypedReadsAlike(text[..n], code);
      } else {
        var m := |code| - 1;
        assert code[m] in code;
        TypedReadsAlike(text[..n], code[..m]);
      }
      NeverForeign(code);
    }
  }

  lemma {:induction false} NeverForeign(code: string)
    requires Canonical(code)
    ensures ValueOf(code).Some?
  {
    if code != "" {
      assert code[|code| - 1] in code;
      NeverForeign(code[..|code| - 1]);
    }
  }

  lemma {:induction false} DigitsAreCanonical(n: nat)
    ensures Canonical(Digits(n))
  {
    if n > 0 {
      DigitsAreCanonical(n / 32);
      SymbolsRead(n % 32);
    }
  }

  lemma CodesAreCanonical(n: int)
    ensures Canonical(EncodeOf(n))
  {
    ZerosAre(WIDTH);
    if n > 0 {
      DigitsAreCanonical(n);
      if |Digits(n)| < WIDTH { ZerosAre(WIDTH - |Digits(n)|); }
    }
  }

  lemma {:induction false} ZeroIsZeros(code: string)
    requires Canonical(code) && ValueOf(code) == Some(0)
    ensures forall c <- code :: c == '0'
  {
    if code != "" {
      var n := |code| - 1;
      assert code[n] in code;
      assert forall c <- code[..n] :: c in code;
      ZeroIsZeros(code[..n]);
      assert code == code[..n] + [code[n]];
    }
  }

  lemma SameLastDigit(v: nat, x: nat, w: nat, y: nat)
    requires v * 32 + x == w * 32 + y && x < 32 && y < 32
    ensures v == w && x == y
  {}

  lemma FrontIsCanonical(code: string)
    requires Canonical(code) && code != ""
    ensures var m := |code| - 1;
      Canonical(code[..m]) && ValueOf(code[..m]).Some? && SymbolValue(code[m]).Some?
      && ValueOf(code) == Some(ValueOf(code[..m]).value * 32 + SymbolValue(code[m]).value)
  {
    var m := |code| - 1;
    assert code[m] in code;
    forall c | c in code[..m] ensures c in code {}
    NeverForeign(code[..m]);
  }

  /** The last symbols of a text and a code that stand for one number agree. */
  lemma LastSymbolTyped(text: string, code: string)
    requires Canonical(code) && code != "" && text != "" && !IsSeparator(UpperChar(text[|text| - 1]))
    requires ValueOf(text).Some? && ValueOf(text) == ValueOf(code)
    ensures TypedFor(text[|text| - 1], code[|code| - 1]) && ValueOf(text[..|text| - 1]) == ValueOf(code[..|code| - 1])
    ensures ValueOf(text[..|text| - 1]).Some? && Canonical(code[..|code| - 1])
  {
    var n, m := |text| - 1, |code| - 1;
    FrontIsCanonical(code);
    SameLastDigit(ValueOf(text[..n]).value, SymbolValue(UpperChar(text[n])).value, ValueOf(code[..m]).value, SymbolValue(code[m]).value);
  }

  /** A text that stands for the number of a code types the code. */
  lemma {:induction false} ReadMeansTyped(text: string, code: string)
    requires Canonical(code) && ValueOf(text).Some? && ValueOf(text) == ValueOf(code)
    ensures Types(text, code)
    decreases text
  {
    if text == "" {
      ZeroIsZeros(code);
    } else {
      var n := |text| - 1;
      if IsSeparator(UpperChar(text[n])) || code == "" {
        ReadMeansTyped(text[..n], code);
      } else {
        LastSymbolTyped(text, code);
        ReadMeansTyped(text[..n], code[..|code| - 1]);
      }
    }
  }

  lemma {:induction false} EndBlankIsNothing(s: string)
    requires ValueOf(s).Some?
    ensures ValueOf(Text.TrimRight(s)) == ValueOf(s)
  {
    if s != "" && Text.IsSpace(s[|s| - 1]) { EndBlankIsNothing(s[..|s| - 1]); }
  }

  lemma {:induction false} FirstBlankIsNothing(s: string)
    requires ValueOf(s).Some? && s != "" && Text.IsSpace(s[0])
    ensures ValueOf(s[1..]) == ValueOf(s)
  {
    var n := |s| - 1;
    if n > 0 {
      FirstBlankIsNothing(s[..n]);
      assert s[..n][1..] == s[1..][..n - 1];
    }
  }

  lemma {:induction false} LeadingBlanksAreNothing(s: string)
    requires ValueOf(s).Some?
    ensures ValueOf(Text.TrimLeft(s)) == ValueOf(s)
  {
    if s != "" && Text.IsSpace(s[0]) {
      FirstBlankIsNothing(s);
      LeadingBlanksAreNothing(s[1..]);
    }
  }

  /** Blanks at the ends apart, a person gets an event exactly by typing its number, in any of the ways. */
  lemma TypedNumberResolvesIff(n: nat, text: string)
    ensures DecodeOf(text) == Some(n) <==> Types(Strip(text), EncodeOf(n))
    ensures Types(text, EncodeOf(n)) ==> DecodeOf(text) == Some(n)
  {
    CodesAreCanonical(n);
    CodeHasValue(n);
    if DecodeOf(text) == Some(n) { ReadMeansTyped(Strip(text), EncodeOf(n)); }
    if Types(Strip(text), EncodeOf(n)) { TypedReadsAlike(Strip(text), EncodeOf(n)); }
    if Types(text, EncodeOf(n)) {
      TypedReadsAlike(text, EncodeOf(n));
      EndBlankIsNothing(text);
      LeadingBlanksAreNothing(Text.TrimRight(text));
    }
  }

  // ----- whole codes -----

  function Upper(s: string): string { if s == "" then "" else [UpperChar(s[0])] + Upper(s[1..]) }

  function Tidied(c: char): string { if c == ' ' then "" else if c == '·' then "-" else [c] }

  /** `replace("·", "-").replace(" ", "")`. */
  function Tidy(s: string): string {
    if s == "" then "" else Tidied(s[0]) + Tidy(s[1..])
  }

  function EventCode(number: int, city: string): string { city + "-" + EncodeOf(number) }

  /** The prefix and the number, or nothing if the number holds a foreign character. */
  function ParseEventCode(code: string): Option<(string, nat)> {
    var raw := Tidy(Upper(Strip(code)));
    var i := Text.RunLength(raw, c => c != '-');
    var city := if i < |raw| && i > 0 then raw[..i] else DEFAULT_CITY;
    var n := DecodeOf(if i < |raw| then raw[i + 1..] else raw);
    if n.None? then None else Some((city, n.value))
  }

  predicate IsPrefix(city: string) { city != "" && forall c <- city :: 'A' <= c <= 'Z' }

  lemma {:induction false} UpperAndTidyKeep(s: string)
    requires forall c <- s :: UpperChar(c) == c && c != ' ' && c != '·'
    ensures Upper(s) == s && Tidy(s) == s
  {
    if s != "" {
      assert s[0] in s;
      assert forall c <- s[1..] :: c in s;
      UpperAndTidyKeep(s[1..]);
    }
  }

  lemma ShapeOfCode(city: string, e: string)
    requires IsPrefix(city) && Canonical(e)
    ensures var s := city + "-" + e; Tidy(Upper(Strip(s))) == s
  {
    var s := city + "-" + e;
    forall c | c in s ensures UpperChar(c) == c && c != ' ' && c != '·' && !Text.IsSpace(c) {
      assert c in city || c == '-' || c in e;
      assert SymbolValue(c).Some? ==> !Text.IsSpace(c);
    }
    assert s[0] in s && s[|s| - 1] in s;
    UpperAndTidyKeep(s);
  }

  /** The code of an event resolves to its city and its number, exactly when the number is not negative. */
  lemma CodeRoundTripsIff(number: int, city: string)
    requires IsPrefix(city)
    ensures var r := ParseEventCode(EventCode(number, city));
      r.Some? && r.value.0 == city && (r.value.1 == number <==> number >= 0)
  {
    var s, e := EventCode(number, city), EncodeOf(number);
    CodesAreCanonical(number);
    ShapeOfCode(city, e);
    EncodedReadsBack(number);
    var i := Text.RunLength(s, c => c != '-');
    assert forall k | 0 <= k < |city| :: s[k] == city[k] && city[k] in city;
    assert s[|city|] == '-';
    assert i == |city|;
    assert s[..i] == city && s[i + 1..] == e;
  }

  // ----- the letters and signs a person may use -----

  lemma LookAlikes()
    ensures SymbolValue('O') == SymbolValue('U') == SymbolValue('0') == Some(0) && SymbolValue('I') == SymbolValue('L') == SymbolValue('1') == Some(1)
    ensures forall c | 'a' <= c <= 'z' :: 'A' <= UpperChar(c) <= 'Z' && UpperChar(c) as int == c as int - 32
  {}

  lemma TypedByHand(text: string)
    requires text == "04·p n-"
    ensures DecodeOf(text) == Some(4821)
  {
    assert Strip(text) == text;
    assert text[..6][..5] == text[..5] && text[..5][..4] == text[..4] && text[..4][..3] == text[..3] && text[..3][..2] == text[..2]
      && text[..2][..1] == text[..1] && text[..1][..0] == "";
    assert ValueOf(text[..1]) == Some(0) && ValueOf(text[..2]) == Some(4) && ValueOf(text[..3]) == Some(4);
    assert ValueOf(text[..4]) == Some(4 * 32 + 22) && ValueOf(text[..5]) == Some(150) && ValueOf(text[..6]) == Some(150 * 32 + 21);
  }

  lemma Joins<T>(a: seq<T>, b: seq<T>, c: seq<T>)
    ensures a + (b + c) == (a + b) + c
  {}

  lemma {:induction false} UpperConcat(a: string, b: string)
    ensures Upper(a + b) == Upper(a) + Upper(b)
  {
    if a == "" {
      assert a + b == b && "" + Upper(b) == Upper(b);
    } else {
      assert (a + b)[1..] == a[1..] + b;
      UpperConcat(a[1..], b);
      Joins([UpperChar(a[0])], Upper(a[1..]), Upper(b));
    }
  }

  lemma {:induction false} TidyConcat(a: string, b: string)
    ensures Tidy(a + b) == Tidy(a) + Tidy(b)
  {
    if a == "" {
      assert a + b == b && "" + Tidy(b) == Tidy(b);
    } else {
      assert (a + b)[1..] == a[1..] + b;
      TidyConcat(a[1..], b);
      Joins(Tidied(a[0]), Tidy(a[1..]), Tidy(b));
    }
  }

  /** What stands before the first dash is the city, what follows it the number. */
  lemma DashDivides(code: string, city: string, rest: string)
    requires Tidy(Upper(Strip(code))) == city + "-" + rest && city != "" && '-' !in city
    ensures ParseEventCode(code) == if DecodeOf(rest).Some? then Some((city, DecodeOf(rest).value)) else None
  {
    var raw := city + "-" + rest;
    assert forall k | 0 <= k < |city| :: raw[k] == city[k] && city[k] in city;
    assert raw[|city|] == '-';
    assert Text.RunLength(raw, c => c != '-') == |city|;
    assert raw[..|city|] == city && raw[|city| + 1..] == rest;
  }

  lemma UpperParts()
    ensures Upper("msk·") == "MSK·" && Upper("04pn") == "04PN"
  {}

  lemma TidyParts()
    ensures Tidy("MSK·") == "MSK-" && Tidy("04PN") == "04PN"
  {}

  lemma SpelledOut(code: string, city: string, number: string)
    requires code == city + number && city == "msk·" && number == "04pn"
    ensures Tidy(Upper(Strip(code))) == "MSK" + "-" + "04PN"
  {
    assert code[0] == 'm' && code[|code| - 1] == 'n';
    assert Strip(code) == code;
    UpperConcat(city, number);
    UpperParts();
    TidyConcat("MSK·", "04PN");
    TidyParts();
  }

  /** The documented spelling "msk·04pn" is the event MSK-04PN. */
  lemma DocumentedSpelling(code: string, number: string)
    requires code == "msk·04pn" && number == "04PN"
    ensures ParseEventCode(code) == Some(("MSK", 4821))
  {
    SpelledOut(code, "msk·", "04pn");
    DashDivides(code, "MSK", number);
    EncodedReadsBack(4821);
    CodeOf4821();
  }

  lemma CodeOf4821()
    ensures EncodeOf(4821) == "04PN"
  {
    assert Digits(4) == Digits(0) + "4" && Digits(150) == Digits(4) + "P" && Digits(4821) == Digits(150) + "N";
    assert Zeros(1) == "0" + Zeros(0);
  }
}
