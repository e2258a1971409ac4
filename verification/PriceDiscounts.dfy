/** "скидка до 20%": a number with a per cent sign is neither a price nor a bound, wherever it stands. */
module PriceDiscounts {
  import opened Collections
  import opened Text
  import opened Prices
  import opened PriceRoundTrips

  predicate Blank(w: string) { forall c <- w :: IsSpace(c) }

  /** The text goes on with a per cent sign, blanks or not before it. */
  predicate PercentFirst(t: string) { exists i | 0 <= i < |t| :: t[i] == '%' && Blank(t[..i]) }

  // ----- what is taken out -----

  predicate PercentNext(t: string) { var r := TrimLeft(t); r != "" && r[0] == '%' }

  lemma {:induction false} PercentNextIff(t: string)
    ensures PercentNext(t) <==> PercentFirst(t)
  {
    if t != "" && IsSpace(t[0]) {
      PercentNextIff(t[1..]);
      if PercentNext(t[1..]) {
        var i :| 0 <= i < |t[1..]| && t[1..][i] == '%' && Blank(t[1..][..i]);
        assert t[..i + 1] == [t[0]] + t[1..][..i];
        assert t[i + 1] == '%' && Blank(t[..i + 1]);
      }
      if PercentFirst(t) {
        var i :| 0 <= i < |t| && t[i] == '%' && Blank(t[..i]);
        assert t[1..][..i - 1] == t[1..i];
        assert forall c <- t[1..i] :: c in t[..i];
        assert t[1..][i - 1] == '%' && Blank(t[1..][..i - 1]);
      }
    } else if t != "" {
      if PercentFirst(t) {
        var i :| 0 <= i < |t| && t[i] == '%' && Blank(t[..i]);
        if i > 0 { assert t[0] in t[..i]; }
      }
      if t[0] == '%' { assert Blank(t[..0]); }
    }
  }

  lemma {:induction false} RunThrough(a: string, b: string, ok: char -> bool)
    ensures RunLength(a + b, ok) == if RunLength(a, ok) < |a| then RunLength(a, ok) else |a| + RunLength(b, ok)
  {
    if a == "" {
      assert a + b == b;
    } else {
      assert (a + b)[1..] == a[1..] + b;
      RunThrough(a[1..], b, ok);
    }
  }

  lemma {:induction false} TrimLeftIsRun(t: string)
    ensures TrimLeft(t) == t[RunLength(t, IsSpace)..]
  {
    if t != "" && IsSpace(t[0]) { TrimLeftIsRun(t[1..]); }
  }

  lemma DropFront(a: string, b: string, n: nat)
    requires n <= |a|
    ensures (a + b)[..n] == a[..n] && (a + b)[n..] == a[n..] + b
  {}

  lemma ClearsDropped(t: string, e: nat, rest: string)
    requires t != "" && e == DiscountEnd(t) && e > 0 && rest == t[e..]
    ensures NoDiscounts(t) == NoDiscounts(rest)
  {}

  lemma ClearsKept(t: string, n: nat, rest: string)
    requires t != "" && DiscountEnd(t) == 0 && n == Passed(t) && rest == t[n..]
    ensures NoDiscounts(t) == t[..n] + NoDiscounts(rest)
  {}

  /** No discount is split between the two. */
  predicate SeamIsClean(a: string, b: string) {
    !PercentNext(b) && !(a != "" && IsDigit(a[|a| - 1]) && b != "" && IsDigit(b[0]))
  }

  lemma SeamMovesOn(a: string, b: string, n: nat)
    requires SeamIsClean(a, b) && n <= |a|
    ensures SeamIsClean(a[n..], b)
  {}

  lemma SameStep(a: string, b: string)
    requires a != "" && SeamIsClean(a, b)
    ensures Passed(a + b) == Passed(a) && DiscountEnd(a + b) == DiscountEnd(a)
  {
    var n := RunLength(a, IsDigit);
    RunThrough(a, b, IsDigit);
    if n > 0 {
      if n == |a| && b != "" { assert IsDigit(a[n - 1]); }
      DropFront(a, b, n);
      RunThrough(a[n..], b, IsSpace);
      TrimLeftIsRun(b);
    }
  }

  lemma Regroup3(a: string, b: string, c: string)
    ensures a + (b + c) == (a + b) + c
  {}

  lemma DroppedAlike(a: string, rest: string, b: string, t: string, tail: string, e: nat)
    requires a != "" && t != "" && e == DiscountEnd(a) == DiscountEnd(t) && e > 0 && rest == a[e..] && tail == t[e..]
    requires NoDiscounts(tail) == NoDiscounts(rest) + NoDiscounts(b)
    ensures NoDiscounts(t) == NoDiscounts(a) + NoDiscounts(b)
  {
    ClearsDropped(a, e, rest);
    ClearsDropped(t, e, tail);
  }

  lemma KeptAlike(a: string, rest: string, b: string, t: string, tail: string, n: nat)
    requires a != "" && t != "" && DiscountEnd(a) == DiscountEnd(t) == 0 && n == Passed(a) == Passed(t) && rest == a[n..] && tail == t[n..]
    requires t[..n] == a[..n] && NoDiscounts(tail) == NoDiscounts(rest) + NoDiscounts(b)
    ensures NoDiscounts(t) == NoDiscounts(a) + NoDiscounts(b)
  {
    ClearsKept(a, n, rest);
    ClearsKept(t, n, tail);
    Regroup3(a[..n], NoDiscounts(rest), NoDiscounts(b));
  }

  lemma NothingToClear()
    ensures NoDiscounts("") == ""
  {}

  lemma EmptyFront(b: string)
    ensures "" + b == b
  {}

  /** Two texts are cleared of discounts one by one. */
  lemma {:induction false} ClearsApart(a: string, b: string)
    requires SeamIsClean(a, b)
    ensures NoDiscounts(a + b) == NoDiscounts(a) + NoDiscounts(b)
    decreases |a|
  {
    if a == "" {
      NothingToClear();
      EmptyFront(b);
      EmptyFront(NoDiscounts(b));
    } else {
      var n := if DiscountEnd(a) > 0 then DiscountEnd(a) else Passed(a);
      var rest := a[n..];
      SeamMovesOn(a, b, n);
      ClearsApart(rest, b);
      ClearsFront(a, b, n, rest);
    }
  }

  lemma ClearsFront(a: string, b: string, n: nat, rest: string)
    requires SeamIsClean(a, b) && a != "" && n == (if DiscountEnd(a) > 0 then DiscountEnd(a) else Passed(a)) && rest == a[n..]
    requires NoDiscounts(rest + b) == NoDiscounts(rest) + NoDiscounts(b)
    ensures NoDiscounts(a + b) == NoDiscounts(a) + NoDiscounts(b)
  {
    SameStep(a, b);
    DropFront(a, b, n);
    if DiscountEnd(a) > 0 { DroppedAlike(a, rest, b, a + b, rest + b, n); } else { KeptAlike(a, rest, b, a + b, rest + b, n); }
  }

  lemma DiscountIsFound(d: string, w: string, b: string)
    requires d != "" && AllDigits(d) && Blank(w)
    ensures DiscountEnd(d + (w + ("%" + b))) == |d| + |w| + 1
  {
    var rest := w + ("%" + b);
    if w != "" { assert w[0] in w; }
    RunEnds(d, rest, IsDigit);
    RunEnds(w, "%" + b, IsSpace);
    assert (d + rest)[|d|..] == rest && rest[|w|] == '%';
  }

  lemma LastPart(d: string, w: string, p: string, b: string)
    ensures |d| + |w| + |p| <= |d + (w + (p + b))| && (d + (w + (p + b)))[|d| + |w| + |p|..] == b
  {}

  lemma DiscountGoes(d: string, w: string, b: string)
    requires d != "" && AllDigits(d) && Blank(w)
    ensures NoDiscounts(d + (w + ("%" + b))) == NoDiscounts(b)
  {
    DiscountIsFound(d, w, b);
    LastPart(d, w, "%", b);
    ClearsDropped(d + (w + ("%" + b)), |d| + |w| + 1, b);
  }

  lemma DiscountSeam(a: string, d: string, rest: string)
    requires d != "" && AllDigits(d) && !(a != "" && IsDigit(a[|a| - 1]))
    ensures SeamIsClean(a, d + rest)
  {
    assert (d + rest)[0] == d[0] && d[0] in d;
  }

  /** The text with a discount in it clears to what it clears to without. */
  lemma DiscountClears(a: string, d: string, w: string, b: string)
    requires d != "" && AllDigits(d) && Blank(w) && !(a != "" && IsDigit(a[|a| - 1])) && !PercentNext(b)
    ensures NoDiscounts(a + (d + (w + ("%" + b)))) == NoDiscounts(a + b)
  {
    DiscountSeam(a, d, w + ("%" + b));
    ClearsApart(a, d + (w + ("%" + b)));
    DiscountGoes(d, w, b);
    ClearsApart(a, b);
  }

  // ----- what the parser reads of the blanks around a text -----

  lemma {:induction false} TrimRightTail(x: string, s: string)
    requires Blank(s)
    ensures TrimRight(x + s) == TrimRight(x)
  {
    if s == "" {
      assert x + s == x;
    } else {
      var n := |s| - 1;
      assert (x + s)[..|x + s| - 1] == x + s[..n];
      assert forall c <- s[..n] :: c in s;
      TrimRightTail(x, s[..n]);
    }
  }

  /** A tail without digits adds no number. */
  lemma {:induction false} NumsTail(x: string, s: string)
    requires forall c <- s :: !IsDigit(c)
    ensures Nums(x + s) == Nums(x)
    decreases |x|
  {
    if x == "" {
      assert x + s == s && s + "" == s;
      NumsSkip(s, "");
    } else if !IsDigit(x[0]) {
      DropFront(x, s, 1);
      NumsTail(x[1..], s);
    } else {
      var n := RunLength(x, DigitOrSpace);
      RunThrough(x, s, DigitOrSpace);
      if n < |x| {
        DropFront(x, s, n);
        NumsTail(x[n..], s);
      } else {
        NumsLastRun(x, s, RunLength(s, DigitOrSpace));
      }
    }
  }

  lemma NumsStep(t: string, m: nat, rest: string)
    requires t != "" && IsDigit(t[0]) && m == RunLength(t, DigitOrSpace) && rest == t[m..]
    ensures Nums(t) == ReadNumber(TrimRight(t[..m])) + Nums(rest)
  {}

  lemma NoNums(s: string)
    requires forall c <- s :: !IsDigit(c)
    ensures Nums(s) == []
  {
    NumsSkip(s, "");
    assert s + "" == s;
  }

  lemma NumsLastRun(x: string, s: string, k: nat)
    requires x != "" && IsDigit(x[0]) && RunLength(x, DigitOrSpace) == |x| && k == RunLength(s, DigitOrSpace) && forall c <- s :: !IsDigit(c)
    requires RunLength(x + s, DigitOrSpace) == |x| + k
    ensures Nums(x + s) == Nums(x)
  {
    assert (x + s)[..|x| + k] == x + s[..k] && (x + s)[|x| + k..] == s[k..];
    forall c | c in s[..k] ensures IsSpace(c) { assert c in s && DigitOrSpace(c); }
    TrimRightTail(x, s[..k]);
    forall c | c in s[k..] ensures c in s {}
    NoNums(s[k..]);
    NoNums("");
    NumsStep(x + s, |x| + k, s[k..]);
    assert x[..|x|] == x && x[|x|..] == "";
    NumsStep(x, |x|, "");
  }

  predicate DigitAhead(t: string) { var r := TrimLeft(t); r != "" && IsDigit(r[0]) }

  lemma {:induction false} AheadTail(y: string, s: string)
    requires forall c <- s :: !IsDigit(c)
    ensures DigitAhead(y + s) <==> DigitAhead(y)
  {
    if y == "" {
      TrimLeftIsRun(s);
      assert y + s == s;
      if TrimLeft(s) != "" { assert TrimLeft(s)[0] == s[RunLength(s, IsSpace)]; }
    } else {
      DropFront(y, s, 1);
      AheadTail(y[1..], s);
    }
  }

  lemma BoundAtTail(x: string, s: string, word: string, i: nat)
    requires (forall c <- s :: !IsDigit(c)) && i + |word| <= |x|
    ensures BoundAt(x + s, word, i) <==> BoundAt(x, word, i)
  {
    DropFront(x, s, i);
    DropFront(x, s, i + |word|);
    assert (x[i..] + s)[..|word|] == x[i..][..|word|];
    AheadTail(x[i + |word|..], s);
  }

  lemma NoBoundInTail(x: string, s: string, word: string, i: nat)
    requires (forall c <- s :: !IsDigit(c)) && |x| < i + |word| && i <= |x + s|
    ensures !BoundAt(x + s, word, i)
  {
    if i + |word| <= |x + s| {
      var t := (x + s)[i + |word|..];
      assert t == s[i + |word| - |x|..];
      assert forall c <- t :: c in s;
      AheadTail("", t);
      assert "" + t == t;
    }
  }

  /** A tail without digits adds no bound. */
  lemma BoundTail(x: string, s: string, word: string)
    requires forall c <- s :: !IsDigit(c)
    ensures HasBound(x + s, word) <==> HasBound(x, word)
  {
    forall i: nat | i + |word| <= |x| ensures BoundAt(x + s, word, i) <==> BoundAt(x, word, i) { BoundAtTail(x, s, word, i); }
    forall i: nat | |x| < i + |word| && i <= |x + s| ensures !BoundAt(x + s, word, i) { NoBoundInTail(x, s, word, i); }
    if HasBound(x + s, word) {
      var i :| 0 <= i <= |x + s| && BoundAt(x + s, word, i);
      assert i + |word| <= |x|;
    }
    if HasBound(x, word) {
      var i :| 0 <= i <= |x| && BoundAt(x, word, i);
      assert i + |word| <= |x|;
    }
  }

  lemma BoundAtFront(c: char, x: string, word: string, i: nat)
    requires IsSpace(c) && i <= |x|
    ensures BoundAt([c] + x, word, i + 1) <==> BoundAt(x, word, i)
  {
    assert ([c] + x)[i + 1..] == x[i..];
    if i + |word| <= |x| { assert ([c] + x)[i + 1 + |word|..] == x[i + |word|..]; }
  }

  lemma BoundFront(c: char, x: string, word: string)
    requires IsSpace(c) && word != "" && !IsSpace(word[0])
    ensures HasBound([c] + x, word) <==> HasBound(x, word)
  {
    forall i: nat | i <= |x| ensures BoundAt([c] + x, word, i + 1) <==> BoundAt(x, word, i) { BoundAtFront(c, x, word, i); }
    if HasBound([c] + x, word) {
      var i :| 0 <= i <= |[c] + x| && BoundAt([c] + x, word, i);
      assert ([c] + x)[0..][..|word|][0] == c;
      assert i > 0 && BoundAt(x, word, i - 1);
    }
    if HasBound(x, word) {
      var i :| 0 <= i <= |x| && BoundAt(x, word, i);
      assert BoundAt([c] + x, word, i + 1);
    }
  }

  lemma ContainsTail(x: string, s: string, f: string)
    requires f != "" && f[|f| - 1] !in s
    ensures Contains(x + s, f) <==> Contains(x, f)
  {
    if Contains(x + s, f) {
      var i :| 0 <= i <= |x + s| && StartsWith((x + s)[i..], f);
      assert (x + s)[i + |f| - 1] == (x + s)[i..][..|f|][|f| - 1] == f[|f| - 1];
      assert forall k | 0 <= k < |s| :: s[k] != f[|f| - 1];
      assert x[i..][..|f|] == (x + s)[i..][..|f|];
    }
    if Contains(x, f) {
      var i :| 0 <= i <= |x| && StartsWith(x[i..], f);
      assert x[i..][..|f|] == (x + s)[i..][..|f|];
    }
  }

  lemma ContainsFront(c: char, x: string, f: string)
    requires f != "" && f[0] != c
    ensures Contains([c] + x, f) <==> Contains(x, f)
  {
    if Contains([c] + x, f) {
      var i :| 0 <= i <= |[c] + x| && StartsWith(([c] + x)[i..], f);
      assert ([c] + x)[i] == ([c] + x)[i..][..|f|][0] == f[0];
      assert ([c] + x)[i..] == x[i - 1..];
    }
    if Contains(x, f) {
      var i :| 0 <= i <= |x| && StartsWith(x[i..], f);
      assert ([c] + x)[i + 1..] == x[i..];
    }
  }

  // ----- the parser and the blanks around a text -----

  lemma JudgedAlike(t: string, t': string)
    requires Nums(t) == Nums(t') && SaysFree(t) == SaysFree(t')
    requires HasBound(t, "от") == HasBound(t', "от") && HasBound(t, "до") == HasBound(t', "до")
    ensures Judge(t) == Judge(t')
  {}

  /** Without digits, and without the letters the words for "free" end in. */
  predicate Idle(s: string) { forall c <- s :: !IsDigit(c) && c != 'л' && c != 'н' && c != 'e' }

  lemma JudgeTail(x: string, s: string)
    requires Idle(s)
    ensures Judge(x + s) == Judge(x)
  {
    NumsTail(x, s);
    BoundTail(x, s, "от");
    BoundTail(x, s, "до");
    ContainsTail(x, s, "беспл");
    ContainsTail(x, s, "вход свободн");
    ContainsTail(x, s, "free");
    JudgedAlike(x + s, x);
  }

  lemma NumsFront(c: char, x: string)
    requires IsSpace(c)
    ensures Nums([c] + x) == Nums(x)
  {
    NumsSkip([c], x);
  }

  lemma JudgeFront(c: char, x: string)
    requires IsSpace(c)
    ensures Judge([c] + x) == Judge(x)
  {
    NumsFront(c, x);
    BoundFront(c, x, "от");
    BoundFront(c, x, "до");
    ContainsFront(c, x, "беспл");
    ContainsFront(c, x, "вход свободн");
    ContainsFront(c, x, "free");
    JudgedAlike([c] + x, x);
  }

  lemma {:induction false} LowerConcat(a: string, b: string)
    ensures Lower(a + b) == Lower(a) + Lower(b)
  {
    if a == "" {
      EmptyFront(b);
      EmptyFront(Lower(b));
    } else {
      DropFront(a, b, 1);
      LowerConcat(a[1..], b);
      Regroup3([LowerChar(a[0])], Lower(a[1..]), Lower(b));
    }
  }

  lemma {:induction false} LowerKeepsAt(t: string, i: nat)
    requires i < |t|
    ensures Lower(t)[i] == LowerChar(t[i])
  {
    if i > 0 { LowerKeepsAt(t[1..], i - 1); }
  }

  /** The range a text states, blanks at its ends left in. */
  function Stated(text: string): Range { Judge(NoDiscounts(Lower(text))) }

  lemma LowerOfBlank(w: string)
    requires forall c <- w :: IsSpace(c) || IsDigit(c) || c == '%'
    ensures Lower(w) == w
  {
    LowerKeeps(w);
  }

  lemma OneBlankClears(c: char)
    requires IsSpace(c)
    ensures NoDiscounts([c]) == [c] && !PercentNext([c])
  {
    ClearsKept([c], 1, "");
    NothingToClear();
    PercentNextIff([c]);
  }

  lemma StatedEndsBlank(text: string, front: string, c: char)
    requires IsSpace(c) && text == front + [c]
    ensures Stated(text) == Stated(front)
  {
    LowerConcat(front, [c]);
    LowerOfBlank([c]);
    OneBlankClears(c);
    ClearsApart(Lower(front), [c]);
    JudgeTail(NoDiscounts(Lower(front)), [c]);
  }

  lemma StatedBeginsBlank(c: char, rest: string)
    requires IsSpace(c)
    ensures Stated([c] + rest) == Stated(rest)
  {
    LowerConcat([c], rest);
    LowerOfBlank([c]);
    assert ([c] + Lower(rest))[1..] == Lower(rest);
    ClearsKept([c] + Lower(rest), 1, Lower(rest));
    JudgeFront(c, NoDiscounts(Lower(rest)));
  }

  lemma {:induction false} StatedTrimmedRight(text: string)
    ensures Stated(TrimRight(text)) == Stated(text)
  {
    if text != "" && IsSpace(text[|text| - 1]) {
      var front := text[..|text| - 1];
      StatedTrimmedRight(front);
      assert text == front + [text[|text| - 1]];
      StatedEndsBlank(text, front, text[|text| - 1]);
    }
  }

  lemma {:induction false} StatedTrimmedLeft(text: string)
    ensures Stated(TrimLeft(text)) == Stated(text)
  {
    if text != "" && IsSpace(text[0]) {
      StatedTrimmedLeft(text[1..]);
      StatedBeginsBlank(text[0], text[1..]);
      assert text == [text[0]] + text[1..];
    }
  }

  lemma NothingStated()
    ensures Stated("") == Range(None, None)
  {
    NothingToClear();
  }

  /** Trimming first or not, the parser reads the same. */
  lemma ParseIsStated(text: string)
    ensures Parse(text) == Stated(text)
  {
    StatedTrimmedRight(text);
    StatedTrimmedLeft(TrimRight(text));
    if TrimRight(text) == "" { NothingStated(); }
  }

  // ----- a discount is neither a price nor a bound -----

  lemma LowerLast(a: string)
    requires a != ""
    ensures Lower(a) != "" && (IsDigit(Lower(a)[|Lower(a)| - 1]) <==> IsDigit(a[|a| - 1]))
  {
    LowerKeepsAt(a, |a| - 1);
  }

  lemma {:induction false} LowerPercentNext(b: string)
    ensures PercentNext(Lower(b)) <==> PercentNext(b)
  {
    if b != "" {
      LowerPercentNext(b[1..]);
      assert Lower(b)[1..] == Lower(b[1..]);
    }
  }

  lemma LowerDiscount(d: string, w: string, b: string)
    requires AllDigits(d) && Blank(w)
    ensures Lower(d + (w + ("%" + b))) == d + (w + ("%" + Lower(b)))
  {
    LowerConcat(d, w + ("%" + b));
    LowerConcat(w, "%" + b);
    LowerConcat("%", b);
    LowerOfBlank(d);
    LowerOfBlank(w);
    LowerOfBlank("%");
  }

  lemma StatedWithout(a: string, d: string, w: string, b: string)
    requires d != "" && AllDigits(d) && Blank(w) && !(a != "" && IsDigit(a[|a| - 1])) && !PercentNext(b)
    ensures Stated(a + (d + (w + ("%" + b)))) == Stated(a + b)
  {
    LowerConcat(a, d + (w + ("%" + b)));
    LowerDiscount(d, w, b);
    LowerConcat(a, b);
    if a != "" { LowerLast(a); }
    LowerPercentNext(b);
    DiscountClears(Lower(a), d, w, Lower(b));
  }

  /** Digits, blanks and a per cent sign read as nothing, whatever stands before and after them: the text states what
      it states without them.  The digits are all of their number, and no second per cent sign follows. */
  lemma DiscountReadsAsNothing(a: string, d: string, w: string, b: string)
    requires d != "" && AllDigits(d) && Blank(w) && (a != "" ==> !IsDigit(a[|a| - 1])) && !PercentFirst(b)
    ensures Parse(a + d + w + "%" + b) == Parse(a + b)
  {
    PercentNextIff(b);
    InOne(a, d, w, "%", b);
    StatedWithout(a, d, w, b);
    ParsedAlike(a + d + w + "%" + b, a + (d + (w + ("%" + b))), a + b);
  }

  lemma InOne(a: string, b: string, c: string, d: string, e: string)
    ensures a + b + c + d + e == a + (b + (c + (d + e)))
  {}

  lemma ParsedAlike(t: string, t': string, u: string)
    requires t == t' && Stated(t') == Stated(u)
    ensures Parse(t) == Parse(u)
  {
    ParseIsStated(t);
    ParseIsStated(u);
  }

  lemma StatedTail(p: string, s: string)
    requires Idle(s) && Lower(s) == s && NoDiscounts(s) == s && !PercentNext(s)
    ensures Stated(p + s) == Stated(p)
  {
    LowerConcat(p, s);
    if s != "" { assert s[0] in s; }
    ClearsApart(Lower(p), s);
    JudgeTail(NoDiscounts(Lower(p)), s);
  }

  lemma ClosingDiscount(p: string, s: string, d: string, w: string)
    requires d != "" && AllDigits(d) && Blank(w) && s != "" && Idle(s) && forall c <- s :: LowerChar(c) == c && c != '%'
    ensures Parse(p + s + d + w + "%") == Parse(p)
  {
    assert s[|s| - 1] in s;
    DiscountReadsAsNothing(p + s, d, w, "");
    assert p + s + d + w + "%" + "" == p + s + d + w + "%" && p + s + "" == p + s;
    PlainTailAddsNothing(p, s);
  }

  /** A closing "скидка до 20%" changes nothing, whatever the text says before it. */
  lemma DiscountPhraseAddsNothing(p: string, d: string, w: string)
    requires d != "" && AllDigits(d) && Blank(w)
    ensures Parse(p + " скидка до " + d + w + "%") == Parse(p)
  {
    ClosingDiscount(p, " скидка до ", d, w);
  }

  lemma PlainTail(s: string)
    requires Idle(s) && forall c <- s :: LowerChar(c) == c && c != '%'
    ensures Lower(s) == s && NoDiscounts(s) == s && !PercentNext(s)
  {
    LowerKeeps(s);
    NoDiscountsKeeps(s);
    PercentNextIff(s);
  }

  /** Such words after a text change nothing: no number, no bound, and not that it is free. */
  lemma PlainTailAddsNothing(p: string, s: string)
    requires Idle(s) && forall c <- s :: LowerChar(c) == c && c != '%'
    ensures Parse(p + s) == Parse(p)
  {
    PlainTail(s);
    ParseIsStated(p + s);
    StatedTail(p, s);
    ParseIsStated(p);
  }

  lemma NothingCounted(t: string)
    requires forall c <- t :: !IsDigit(c) && c != '%'
    ensures Stated(t) == Range(None, None) || Stated(t) == Range(Amount(0), Amount(0))
  {
    NumberlessLower(t);
    NoDiscountsKeeps(Lower(t));
    NoNums(Lower(t));
  }

  lemma NumberlessLower(t: string)
    requires forall c <- t :: !IsDigit(c) && c != '%'
    ensures forall c <- Lower(t) :: !IsDigit(c) && c != '%'
  {
    forall c | c in Lower(t) ensures !IsDigit(c) && c != '%' {
      var i :| 0 <= i < |Lower(t)| && Lower(t)[i] == c;
      LowerKeepsAt(t, i);
    }
  }

  /** A text whose only number is a discount states no amount: nothing, or that it is free. */
  lemma OnlyADiscount(a: string, d: string, w: string, b: string)
    requires d != "" && AllDigits(d) && Blank(w) && (forall c <- a :: !IsDigit(c) && c != '%') && (forall c <- b :: !IsDigit(c) && c != '%')
    ensures var r := Parse(a + d + w + "%" + b); r == Range(None, None) || r == Range(Amount(0), Amount(0))
  {
    if a != "" { assert a[|a| - 1] in a; }
    assert forall i | 0 <= i < |b| :: b[i] in b;
    DiscountReadsAsNothing(a, d, w, b);
    ParseIsStated(a + b);
    forall c | c in a + b ensures !IsDigit(c) && c != '%' { assert c in a || c in b; }
    NothingCounted(a + b);
  }

  /** "500 рублей до 20%" states 500 roubles, not up to 500. */
  lemma FiveHundredIsNoBound(text: string)
    requires text == "500 рублей до 20%"
    ensures Parse(text) == Range(Amount(500), Amount(500))
  {
    ShowFiveHundred();
    assert text == "500" + " рублей" + " до " + "20" + "" + "%";
    PricedWithDiscount(text, 500, " рублей", " до ", "20", "");
  }

  lemma PricedWithDiscount(text: string, n: nat, tail: string, s: string, d: string, w: string)
    requires text == Show(n) + tail + s + d + w + "%" && Currency(tail) && d != "" && AllDigits(d) && Blank(w)
    requires s != "" && Idle(s) && forall c <- s :: LowerChar(c) == c && c != '%'
    ensures Parse(text) == Range(Amount(n), Amount(n))
  {
    ClosingDiscount(Show(n) + tail, s, d, w);
    ParseOne(n, tail);
  }

  lemma ShowFiveHundred()
    ensures Show(500) == "500"
  {
    assert Show(5) == "5" && Show(50) == Show(5) + "0" && Show(500) == Show(50) + "0";
  }

  // ----- bounds and roubles -----

  /** The word is a bound where it stands on its own with a number behind it. */
  ghost predicate BoundIn(t: string, word: string, a: string, w: string, d: char, b: string) {
    t == a + (word + (w + ([d] + b))) && Blank(w) && IsDigit(d) && (a == "" || !IsWordChar(a[|a| - 1]))
  }

  lemma {:induction false} DigitAheadIff(t: string)
    ensures DigitAhead(t) <==> exists w, d, b :: t == w + ([d] + b) && Blank(w) && IsDigit(d)
  {
    TrimLeftIsRun(t);
    var n := RunLength(t, IsSpace);
    if DigitAhead(t) {
      assert t == t[..n] + ([t[n]] + t[n + 1..]);
      assert Blank(t[..n]);
    }
    if w, d, b :| t == w + ([d] + b) && Blank(w) && IsDigit(d) {
      RunEnds(w, [d] + b, IsSpace);
      assert t[|w|] == d;
    }
  }

  lemma BoundIsIn(t: string, word: string, i: nat)
    requires i <= |t| && BoundAt(t, word, i)
    ensures exists a, w, d, b :: BoundIn(t, word, a, w, d, b)
  {
    var rest := t[i + |word|..];
    assert DigitAhead(rest);
    DigitAheadIff(rest);
    var w, d, b :| rest == w + ([d] + b) && Blank(w) && IsDigit(d);
    assert t[i..] == t[i..][..|word|] + rest;
    assert t == t[..i] + t[i..];
    assert BoundIn(t, word, t[..i], w, d, b);
  }

  lemma BoundInIs(t: string, word: string, a: string, w: string, d: char, b: string)
    requires BoundIn(t, word, a, w, d, b)
    ensures HasBound(t, word)
  {
    var rest := w + ([d] + b);
    assert t[|a|..] == word + rest && (word + rest)[..|word|] == word && t[|a| + |word|..] == rest;
    DigitAheadIff(rest);
    assert BoundAt(t, word, |a|);
  }

  /** A word bounds a price exactly where it stands on its own with a number behind it. */
  lemma HasBoundIff(t: string, word: string)
    ensures HasBound(t, word) <==> exists a, w, d, b :: BoundIn(t, word, a, w, d, b)
  {
    if HasBound(t, word) {
      var i :| 0 <= i <= |t| && BoundAt(t, word, i);
      BoundIsIn(t, word, i);
    }
    if a, w, d, b :| BoundIn(t, word, a, w, d, b) { BoundInIs(t, word, a, w, d, b); }
  }

  /** Roubles are the nearest to the kopecks, the even one of two as near. */
  lemma RoublesAreNearest(kopecks: real)
    ensures var r := 100.0 * Roubles(kopecks) as real;
      -50.0 <= kopecks - r <= 50.0 && (kopecks - r == 50.0 || kopecks - r == -50.0 ==> Roubles(kopecks) % 2 == 0)
  {}

  // ----- texts without numbers -----

  /** The words stand somewhere in the text. */
  ghost predicate Holds(t: string, words: string) { exists a, b :: t == a + (words + b) }

  lemma ContainsIff(t: string, words: string)
    ensures Contains(t, words) <==> Holds(t, words)
  {
    if Contains(t, words) {
      var i :| 0 <= i <= |t| && StartsWith(t[i..], words);
      assert t[i..] == words + t[i..][|words|..] && t == t[..i] + t[i..];
    }
    if Holds(t, words) {
      var a, b :| t == a + (words + b);
      assert t[|a|..] == words + b && (words + b)[..|words|] == words;
    }
  }

  /** A text without a number is free exactly if it says so in one of three ways, in capitals or not; else it states
      nothing. */
  lemma NumberlessText(t: string)
    requires forall c <- t :: !IsDigit(c) && c != '%'
    ensures Parse(t) ==
      if Holds(Lower(t), "беспл") || Holds(Lower(t), "вход свободн") || Holds(Lower(t), "free") then Range(Amount(0), Amount(0)) else Range(None, None)
  {
    NumberlessLower(t);
    NoDiscountsKeeps(Lower(t));
    NoNums(Lower(t));
    ContainsIff(Lower(t), "беспл");
    ContainsIff(Lower(t), "вход свободн");
    ContainsIff(Lower(t), "free");
    ParseIsStated(t);
  }
}
