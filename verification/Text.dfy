/** The normalisations the matchers share: lower case, ё to е, transliteration, and the `findall`
  of a character class.  Digits and blanks are the ASCII ones and the no-break space; lower case is
  that of the Latin and Russian alphabets. */
module Text {
  import opened Collections

  function LowerChar(c: char): char {
    if 'A' <= c <= 'Z' || 'А' <= c <= 'Я' then (c as int + 32) as char
    else if c == 'Ё' then 'ё'
    else c
  }

  /** `lower()` and then ё to е. */
  function Fold(s: string): string {
    if s == "" then "" else [if LowerChar(s[0]) == 'ё' then 'е' else LowerChar(s[0])] + Fold(s[1..])
  }

  function Latin(c: char): string {
    match c
    case 'а' => "a" case 'б' => "b" case 'в' => "v" case 'г' => "g" case 'д' => "d" case 'е' => "e"
    case 'ё' => "e" case 'ж' => "zh" case 'з' => "z" case 'и' => "i" case 'й' => "y" case 'к' => "k"
    case 'л' => "l" case 'м' => "m" case 'н' => "n" case 'о' => "o" case 'п' => "p" case 'р' => "r"
    case 'с' => "s" case 'т' => "t" case 'у' => "u" case 'ф' => "f" case 'х' => "kh" case 'ц' => "ts"
    case 'ч' => "ch" case 'ш' => "sh" case 'щ' => "shch" case 'ъ' => "" case 'ы' => "y" case 'ь' => ""
    case 'э' => "e" case 'ю' => "yu" case 'я' => "ya"
    case other => [other]
  }

  function Translit(s: string): string {
    if s == "" then "" else Latin(LowerChar(s[0])) + Translit(s[1..])
  }

  predicate IsDigit(c: char) { '0' <= c <= '9' }
  predicate IsSpace(c: char) { c == ' ' || '\t' <= c <= '\r' || c == '\U{00A0}' }
  predicate IsLatinTokenChar(c: char) { IsDigit(c) || 'a' <= c <= 'z' }
  predicate IsTokenChar(c: char) { IsLatinTokenChar(c) || 'а' <= c <= 'я' }

  function RunLength(s: string, ok: char -> bool): (n: nat)
    ensures n <= |s| && (forall i | 0 <= i < n :: ok(s[i])) && (n < |s| ==> !ok(s[n]))
  {
    if s == "" || !ok(s[0]) then 0 else 1 + RunLength(s[1..], ok)
  }

  /** `findall` of one or more characters of a class: the maximal runs, left to right. */
  function Runs(s: string, ok: char -> bool): seq<string>
    decreases |s|
  {
    if s == "" then []
    else if !ok(s[0]) then Runs(s[1..], ok)
    else var n := RunLength(s, ok); [s[..n]] + Runs(s[n..], ok)
  }

  /** Reading one token: a maximal run, then the rest. */
  lemma RunsToken(t: string, rest: string, ok: char -> bool)
    requires t != "" && (forall c <- t :: ok(c)) && (rest == "" || !ok(rest[0]))
    ensures Runs(t + rest, ok) == [t] + Runs(rest, ok)
  {
    var s := t + rest;
    var n := RunLength(s, ok);
    assert forall i | 0 <= i < |t| :: s[i] == t[i];
    assert rest != "" ==> s[|t|] == rest[0];
    assert n == |t|;
    assert s[..n] == t && s[n..] == rest;
  }

  function Join(parts: seq<string>): string {
    if parts == [] then "" else parts[0] + Join(parts[1..])
  }

  /** The word set of a name or title, in its own alphabet. */
  function Words(s: string): set<string> { Elements(Runs(Fold(s), IsTokenChar)) }

  function TranslitTokens(s: string): seq<string> { Runs(Translit(s), IsLatinTokenChar) }

  function TranslitKey(s: string): string { Join(TranslitTokens(s)) }

  function Filter(s: string, ok: char -> bool): string {
    if s == "" then "" else (if ok(s[0]) then [s[0]] else "") + Filter(s[1..], ok)
  }

  /** `title_nkey`: the title in its own alphabet, letters and digits only. */
  function NKey(s: string): string { Filter(Fold(s), IsTokenChar) }

  /** A four-digit edition year, 19xx or 20xx, at the start of s. */
  predicate YearAt(s: string) {
    |s| >= 4 && (s[..2] == "19" || s[..2] == "20") && IsDigit(s[2]) && IsDigit(s[3])
  }

  predicate IsYear(s: string) { |s| == 4 && YearAt(s) }

  function FindYears(s: string): set<string>
    decreases |s|
  {
    if s == "" then {} else if YearAt(s) then {s[..4]} + FindYears(s[4..]) else FindYears(s[1..])
  }

  /** The digit runs that are not edition years. */
  function Numbers(s: string): set<string> {
    set n | n in Runs(s, IsDigit) && !IsYear(n)
  }

  /** Remove every age rating ("18+", "6 +"): digits, blanks, plus. */
  function StripAge(s: string): string
    decreases |s|
  {
    if s == "" then ""
    else
      var d := RunLength(s, IsDigit);
      var w := RunLength(s[d..], IsSpace);
      if d > 0 && d + w < |s| && s[d + w] == '+' then StripAge(s[d + w + 1..])
      else [s[0]] + StripAge(s[1..])
  }

  function TrimRight(s: string): string {
    if s != "" && IsSpace(s[|s| - 1]) then TrimRight(s[..|s| - 1]) else s
  }

  function TrimLeft(s: string): string {
    if s != "" && IsSpace(s[0]) then TrimLeft(s[1..]) else s
  }
}
