/** The title tests told on letters, words, years and numbers. */
module TitleLaws {
  import opened Text
  import opened TextLaws
  import opened TitleMatch
  import opened TitleReading

  // ----- stems -----

  /** The second word is the first, of four letters or more, with at most two more. */
  ghost predicate Declined(s: string, t: string) { |s| >= 4 && exists e: string :: |e| <= 2 && t == s + e }

  /** Two words of six letters or more that differ in the last, a short declension ending in both. */
  ghost predicate EndsOtherwise(s: string, t: string) {
    exists u: string, c, d :: |u| >= 5 && s == u + [c] && t == u + [d] && IsDeclensionTail(c) && IsDeclensionTail(d)
  }

  lemma PrefixGrows(s: string, t: string)
    ensures IsPrefix(s, t) && |t| - |s| <= 2 <==> exists e: string :: |e| <= 2 && t == s + e
  {
    if IsPrefix(s, t) && |t| - |s| <= 2 { assert t == s + t[|s|..]; }
    if e: string :| |e| <= 2 && t == s + e { assert t[..|s|] == s; }
  }

  lemma TailSwaps(s: string, t: string)
    ensures EndsOtherwise(s, t) <==>
      |s| == |t| >= 6 && s[..|s| - 1] == t[..|t| - 1] && IsDeclensionTail(s[|s| - 1]) && IsDeclensionTail(t[|t| - 1])
  {
    if EndsOtherwise(s, t) {
      var u, c, d :| |u| >= 5 && s == u + [c] && t == u + [d] && IsDeclensionTail(c) && IsDeclensionTail(d);
      assert s[..|s| - 1] == u && t[..|t| - 1] == u;
    }
    if |s| == |t| >= 6 && s[..|s| - 1] == t[..|t| - 1] {
      var u := s[..|s| - 1];
      assert s == u + [s[|s| - 1]] && t == u + [t[|t| - 1]];
    }
  }

  lemma StemEqIff(s: string, t: string)
    ensures StemEq(s, t) <==> s == t || Declined(s, t) || Declined(t, s) || EndsOtherwise(s, t)
  {
    PrefixGrows(s, t);
    PrefixGrows(t, s);
    TailSwaps(s, t);
  }

  /** The names of the source's examples, and the short words its rule is to keep apart. */
  lemma DocumentedStems()
    ensures StemEq("владимир", "владимира") && StemEq("сергей", "сергея") && !StemEq("кошка", "кошки") && !StemEq("лев", "льва")
  {
    assert "владимира"[..8] == "владимир";
    assert "сергей"[..5] == "серге" && "сергея"[..5] == "серге";
    assert "кошка"[4] != "кошки"[4];
  }

  // ----- spelling -----

  /** The second is the small letter of the first. */
  predicate SmallOf(c: char, d: char) { ('A' <= c <= 'Z' || 'А' <= c <= 'Я') && d as int == c as int + 32 }

  /** The same letter up to case and to ё. */
  predicate SameLetter(c: char, d: char) {
    c == d || SmallOf(c, d) || SmallOf(d, c) || (c in {'е', 'Е', 'ё', 'Ё'} && d in {'е', 'Е', 'ё', 'Ё'})
  }

  lemma SameLetterReadsAlike(c: char, d: char)
    requires SameLetter(c, d)
    ensures (if LowerChar(c) == 'ё' then 'е' else LowerChar(c)) == (if LowerChar(d) == 'ё' then 'е' else LowerChar(d))
    ensures Latin(LowerChar(c)) == Latin(LowerChar(d))
  {}

  /** Case and ё make no difference to any test: the words and the keys of two spellings agree. */
  lemma {:induction false} SpellingDoesNotMatter(a: string, b: string)
    requires |a| == |b| && forall i | 0 <= i < |a| :: SameLetter(a[i], b[i])
    ensures Fold(a) == Fold(b) && Translit(a) == Translit(b)
    ensures Words(a) == Words(b) && TranslitKey(a) == TranslitKey(b) && NKey(a) == NKey(b)
  {
    if a != "" {
      SpellingDoesNotMatter(a[1..], b[1..]);
      SameLetterReadsAlike(a[0], b[0]);
    }
  }

  lemma Joins<T>(a: seq<T>, b: seq<T>, c: seq<T>)
    ensures a + (b + c) == (a + b) + c
  {}

  lemma {:induction false} FilterConcat(a: string, b: string, ok: char -> bool)
    ensures Filter(a + b, ok) == Filter(a, ok) + Filter(b, ok)
  {
    if a == "" {
      assert a + b == b && "" + Filter(b, ok) == Filter(b, ok);
    } else {
      assert (a + b)[1..] == a[1..] + b;
      FilterConcat(a[1..], b, ok);
      Joins(if ok(a[0]) then [a[0]] else "", Filter(a[1..], ok), Filter(b, ok));
    }
  }

  /** Signs and blanks make no difference to the letters of a title. */
  lemma SignsDoNotMatter(a: string, c: char, b: string)
    requires !IsTokenChar(LowerChar(c)) && c != 'ё' && c != 'Ё'
    ensures NKey(a + [c] + b) == NKey(a + b)
  {
    FoldConcat(a + [c], b);
    FoldConcat(a, [c]);
    FoldConcat(a, b);
    assert Fold([c]) == [LowerChar(c)];
    FilterConcat(Fold(a) + [LowerChar(c)], Fold(b), IsTokenChar);
    FilterConcat(Fold(a), [LowerChar(c)], IsTokenChar);
    FilterConcat(Fold(a), Fold(b), IsTokenChar);
    assert Filter([LowerChar(c)], IsTokenChar) == "";
  }

  lemma {:induction false} LettersAreKept(s: string)
    requires forall c <- s :: IsTokenChar(c)
    ensures Filter(s, IsTokenChar) == s
  {
    if s != "" {
      LettersAreKept(s[1..]);
      assert s[0] in s && s == [s[0]] + s[1..];
    }
  }

  /** And a title of small letters and digits is its own letters. */
  lemma PlainTitleIsItsLetters(s: string)
    requires forall c <- s :: IsTokenChar(c)
    ensures NKey(s) == s
  {
    FoldPlain(s);
    LettersAreKept(s);
  }

  lemma LatinLetters(c: char)
    ensures Latin(c) == [c] || forall x <- Latin(c) :: 'a' <= x <= 'z'
  {}

  lemma LetterIsItsOwn(x: char)
    requires 'a' <= x <= 'z'
    ensures LowerChar(x) == x && Latin(x) == [x]
  {}

  lemma LowerIsLower(c: char)
    ensures LowerChar(LowerChar(c)) == LowerChar(c)
  {}

  lemma LatinIsItsOwn(c: char)
    ensures forall x <- Latin(LowerChar(c)) :: LowerChar(x) == x && Latin(x) == [x]
  {
    var l := Latin(LowerChar(c));
    LatinLetters(LowerChar(c));
    LowerIsLower(c);
    forall x | x in l ensures LowerChar(x) == x && Latin(x) == [x] {
      if 'a' <= x <= 'z' { LetterIsItsOwn(x); }
    }
  }

  lemma {:induction false} OwnLettersStay(l: string)
    requires forall x <- l :: LowerChar(x) == x && Latin(x) == [x]
    ensures Translit(l) == l
  {
    if l != "" {
      assert l[0] in l && l == [l[0]] + l[1..];
      OwnLettersStay(l[1..]);
    }
  }

  /** A name spelled in Latin letters has the key of its Cyrillic twin. */
  lemma {:induction false} LatinTwinsAgree(s: string)
    ensures Translit(Translit(s)) == Translit(s) && TranslitKey(Translit(s)) == TranslitKey(s)
  {
    if s != "" {
      LatinTwinsAgree(s[1..]);
      LatinIsItsOwn(s[0]);
      OwnLettersStay(Latin(LowerChar(s[0])));
      TranslitConcat(Latin(LowerChar(s[0])), Translit(s[1..]));
    }
  }

  // ----- years -----

  /** A year of an edition: four digits that make a number from 1900 to 2099. */
  lemma YearIff(s: string)
    ensures IsYear(s) <==> |s| == 4 && (forall c <- s :: IsDigit(c)) && 1900 <= 1000 * (s[0] as int - 48) + 100 * (s[1] as int - 48) + 10 * (s[2] as int - 48) + (s[3] as int - 48) <= 2099
  {
    if |s| == 4 {
      assert forall i | 0 <= i < 4 :: s[i] in s;
      assert s[..2] == [s[0], s[1]] && s == [s[0], s[1], s[2], s[3]];
    }
  }

  // ----- the alphabet -----

  const RUSSIAN := "абвгдеёжзийклмнопрстуфхцчшщъыьэюя"
  const IN_LATIN := ["a", "b", "v", "g", "d", "e", "e", "zh", "z", "i", "y", "k", "l", "m", "n", "o", "p", "r", "s", "t", "u", "f", "kh", "ts", "ch", "sh",
                     "shch", "", "y", "", "e", "yu", "ya"]

  lemma FirstLetters(i: nat)
    requires i < 12
    ensures |RUSSIAN| == |IN_LATIN| == 33 && Latin(RUSSIAN[i]) == IN_LATIN[i]
  {}

  lemma MiddleLetters(i: nat)
    requires 12 <= i < 23
    ensures |RUSSIAN| == |IN_LATIN| == 33 && Latin(RUSSIAN[i]) == IN_LATIN[i]
  {}

  lemma LastLetters(i: nat)
    requires 23 <= i < 33
    ensures |RUSSIAN| == |IN_LATIN| == 33 && Latin(RUSSIAN[i]) == IN_LATIN[i]
  {}

  /** Letter by letter, the Russian alphabet in Latin. */
  lemma AlphabetInLatin(i: nat)
    requires i < |RUSSIAN|
    ensures i < |IN_LATIN| && Latin(RUSSIAN[i]) == IN_LATIN[i]
  {
    if i < 12 { FirstLetters(i); } else if i < 23 { MiddleLetters(i); } else { LastLetters(i); }
  }
}
