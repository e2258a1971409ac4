/** The string-aware brace matcher of `_extract_model`, against the JSON grammar of RFC 8259. */
module BraceScanner {
  import opened Collections

  // ----- JSON texts -----

  /** One piece of a string (section 7): an unescaped character, a two-character escape, or \uXXXX. */
  datatype Piece = Plain(c: char) | Escape(c: char) | Unicode(h1: char, h2: char, h3: char, h4: char)

  predicate IsHex(c: char) { '0' <= c <= '9' || 'a' <= c <= 'f' || 'A' <= c <= 'F' }

  predicate ValidPiece(p: Piece) {
    match p
    case Plain(c) => c != '"' && c != '\\' && c >= ' '
    case Escape(c) => c in {'"', '\\', '/', 'b', 'f', 'n', 'r', 't'}
    case Unicode(a, b, c, d) => IsHex(a) && IsHex(b) && IsHex(c) && IsHex(d)
  }

  function PieceText(p: Piece): string {
    match p
    case Plain(c) => [c]
    case Escape(c) => ['\\', c]
    case Unicode(a, b, c, d) => ['\\', 'u', a, b, c, d]
  }

  type JString = seq<Piece>

  /** Digits, signs and letters: the characters of numbers (section 6) and of true, false and null. */
  predicate IsScalarChar(c: char) {
    '0' <= c <= '9' || 'a' <= c <= 'z' || c == 'E' || c == '+' || c == '-' || c == '.'
  }

  predicate IsWs(s: string) {
    forall c <- s :: c == ' ' || c == '\t' || c == '\n' || c == '\r'
  }

  /** A value with its text: scalars, strings, and arrays and objects whose elements carry the blanks
      the text has around them. */
  datatype Value =
    | Scalar(text: string)
    | Str(s: JString)
    | Arr(inner: string, items: Items)
    | Obj(inner: string, members: Members)

  datatype Items = NoItems | Item(before: string, v: Value, after: string, rest: Items)
  datatype Members = NoMembers | Member(before: string, key: JString, mid: string, mid2: string, v: Value, after: string, rest: Members)

  predicate ValidString(s: JString) { forall p <- s :: ValidPiece(p) }

  predicate Valid(v: Value) {
    match v
    case Scalar(text) => text != "" && forall c <- text :: IsScalarChar(c)
    case Str(s) => ValidString(s)
    case Arr(inner, items) => IsWs(inner) && ValidItems(items)
    case Obj(inner, members) => IsWs(inner) && ValidMembers(members)
  }

  predicate ValidItems(items: Items) {
    match items
    case NoItems => true
    case Item(before, v, after, rest) => IsWs(before) && IsWs(after) && Valid(v) && ValidItems(rest)
  }

  predicate ValidMembers(members: Members) {
    match members
    case NoMembers => true
    case Member(before, key, mid, mid2, v, after, rest) =>
      IsWs(before) && ValidString(key) && IsWs(mid) && IsWs(mid2) && Valid(v) && IsWs(after) && ValidMembers(rest)
  }

  function PiecesText(s: JString): string {
    if s == [] then "" else PieceText(s[0]) + PiecesText(s[1..])
  }

  function StringText(s: JString): string { "\"" + PiecesText(s) + "\"" }

  /** `inner` is the blank of an empty array or object. */
  function Text(v: Value): string {
    match v
    case Scalar(text) => text
    case Str(s) => StringText(s)
    case Arr(inner, items) => "[" + (if items.NoItems? then inner else ItemsText(items)) + "]"
    case Obj(inner, members) => "{" + ObjectBody(inner, members) + "}"
  }

  function ObjectBody(inner: string, members: Members): string
    decreases members, 1
  {
    if members.NoMembers? then inner else MembersText(members)
  }

  function ItemsText(items: Items): string {
    match items
    case NoItems => ""
    case Item(before, v, after, rest) => before + Text(v) + after + (if rest.NoItems? then "" else "," + ItemsText(rest))
  }

  function MembersText(members: Members): string
    decreases members, 0
  {
    match members
    case NoMembers => ""
    case Member(before, key, mid, mid2, v, after, rest) =>
      before + StringText(key) + mid + ":" + mid2 + Text(v) + after + (if rest.NoMembers? then "" else "," + MembersText(rest))
  }

  // ----- the scan -----

  datatype Scan = Scan(depth: int, inStr: bool, esc: bool)

  /** One character; `Stop` is the break at depth zero. */
  datatype Outcome = Go(scan: Scan) | Stop

  function Step(s: Scan, c: char): Outcome {
    if s.inStr then
      if s.esc then Go(s.(esc := false))
      else if c == '\\' then Go(s.(esc := true))
      else if c == '"' then Go(s.(inStr := false))
      else Go(s)
    else if c == '"' then Go(s.(inStr := true))
    else if c == '{' then Go(s.(depth := s.depth + 1))
    else if c == '}' then (if s.depth - 1 == 0 then Stop else Go(s.(depth := s.depth - 1)))
    else Go(s)
  }

  /** Read a whole text; None if the scan stops inside it. */
  function Run(s: Scan, t: string): Option<Scan>
    decreases |t|
  {
    if t == "" then Some(s)
    else
      match Step(s, t[0])
      case Stop => None
      case Go(s') => Run(s', t[1..])
  }

  /** The first place the scan stops, counted from the start of t, or -1. */
  function StopAt(s: Scan, t: string): int
    decreases |t|
  {
    if t == "" then -1
    else
      match Step(s, t[0])
      case Stop => 1
      case Go(s') => var n := StopAt(s', t[1..]); if n < 0 then -1 else n + 1
  }

  const FRESH := Scan(0, false, false)

  function Find(html: string, c: char, from: nat): int
    requires from <= |html|
    decreases |html| - from
  {
    if from == |html| then -1 else if html[from] == c then from else Find(html, c, from + 1)
  }

  /** The loop of `_extract_model`: the end of the object literal that opens at `start`, or -1. */
  method MatchBraces(html: string, start: nat) returns (end: int)
    requires start <= |html|
    ensures end == (var n := StopAt(FRESH, html[start..]); if n < 0 then -1 else start + n)
  {
    var depth, inStr, esc := 0, false, false;
    end := -1;
    var j := start;
    while j < |html|
      invariant start <= j <= |html|
      invariant var n := StopAt(FRESH, html[start..]); var m := StopAt(Scan(depth, inStr, esc), html[j..]);
        (n < 0 <==> m < 0) && (n >= 0 ==> start + n == j + m)
    {
      var c := html[j];
      assert html[j..][1..] == html[j + 1..];
      if inStr {
        if esc {
          esc := false;
        } else if c == '\\' {
          esc := true;
        } else if c == '"' {
          inStr := false;
        }
      } else {
        if c == '"' {
          inStr := true;
        } else if c == '{' {
          depth := depth + 1;
        } else if c == '}' {
          depth := depth - 1;
          if depth == 0 {
            end := j + 1;
            return;
          }
        }
      }
      j := j + 1;
    }
  }

  // ----- the scan reads values whole -----

  lemma {:induction false} RunConcat(s: Scan, a: string, b: string)
    ensures Run(s, a + b) == match Run(s, a) case None => None case Some(s') => Run(s', b)
    decreases |a|
  {
    if a == "" {
      assert a + b == b;
    } else {
      assert (a + b)[1..] == a[1..] + b;
      match Step(s, a[0])
      case Stop =>
      case Go(s') => RunConcat(s', a[1..], b);
    }
  }

  lemma {:induction false} StopAfter(s: Scan, a: string, b: string)
    requires Run(s, a).Some?
    ensures StopAt(s, a + b) == var n := StopAt(Run(s, a).value, b); if n < 0 then -1 else |a| + n
    decreases |a|
  {
    if a == "" {
      assert a + b == b;
    } else {
      assert (a + b)[1..] == a[1..] + b;
      StopAfter(Step(s, a[0]).scan, a[1..], b);
    }
  }

  /** Outside a string, text without quotes and braces leaves the scan where it was. */
  lemma {:induction false} RunQuiet(s: Scan, t: string)
    requires !s.inStr && !s.esc && forall c <- t :: c != '"' && c != '{' && c != '}'
    ensures Run(s, t) == Some(s)
    decreases |t|
  {
    if t != "" {
      assert t[0] in t && forall c <- t[1..] :: c in t;
      RunQuiet(s, t[1..]);
    }
  }

  lemma RunPiece(s: Scan, p: Piece)
    requires s.inStr && !s.esc && ValidPiece(p)
    ensures Run(s, PieceText(p)) == Some(s)
  {
    match p
    case Plain(c) =>
      assert [c][1..] == "";
    case Escape(c) =>
      assert ['\\', c][1..] == [c] && [c][1..] == "";
    case Unicode(a, b, c, d) =>
      RunHex(s, [a, b, c, d]);
      assert ['\\', 'u', a, b, c, d][1..] == ['u', a, b, c, d] && ['u', a, b, c, d][1..] == [a, b, c, d];
  }

  lemma {:induction false} RunHex(s: Scan, t: string)
    requires s.inStr && !s.esc && forall c <- t :: IsHex(c)
    ensures Run(s, t) == Some(s)
    decreases |t|
  {
    if t != "" {
      assert t[0] in t;
      RunHex(s, t[1..]);
    }
  }

  lemma {:induction false} RunPieces(s: Scan, ps: JString)
    requires s.inStr && !s.esc && ValidString(ps)
    ensures Run(s, PiecesText(ps)) == Some(s)
    decreases |ps|
  {
    if ps != [] {
      assert ps[0] in ps;
      RunPiece(s, ps[0]);
      RunPieces(s, ps[1..]);
      RunConcat(s, PieceText(ps[0]), PiecesText(ps[1..]));
    }
  }

  /** Whatever a string holds, braces and escaped quotes included, the scan comes out as it went in. */
  lemma RunString(s: Scan, ps: JString)
    requires !s.inStr && !s.esc && ValidString(ps)
    ensures Run(s, StringText(ps)) == Some(s)
  {
    var inside := s.(inStr := true);
    RunPieces(inside, ps);
    RunConcat(inside, PiecesText(ps), "\"");
    assert ("\"" + PiecesText(ps) + "\"")[1..] == PiecesText(ps) + "\"";
    assert "\""[1..] == "";
  }

  /** Reading a value, or the inside of an array or object, at depth one or more changes nothing and
      never stops the scan. */
  lemma {:induction false} RunValue(s: Scan, v: Value)
    requires s.depth >= 1 && !s.inStr && !s.esc && Valid(v)
    ensures Run(s, Text(v)) == Some(s)
    decreases v, 1
  {
    match v
    case Scalar(text) => RunQuiet(s, text);
    case Str(ps) => RunString(s, ps);
    case Arr(inner, items) =>
      var body := if items.NoItems? then inner else ItemsText(items);
      if items.NoItems? { RunQuiet(s, inner); } else { RunItems(s, items); }
      RunQuiet(s, "[");
      RunQuiet(s, "]");
      RunConcat(s, "[", body);
      RunConcat(s, "[" + body, "]");
    case Obj(inner, members) =>
      var body := ObjectBody(inner, members);
      var deeper := s.(depth := s.depth + 1);
      RunBody(deeper, inner, members);
      assert "{"[1..] == "" && "}"[1..] == "";
      assert Run(s, "{") == Some(deeper) && Run(deeper, "}") == Some(s);
      RunConcat(s, "{", body);
      RunConcat(s, "{" + body, "}");
  }

  lemma {:induction false} RunBody(s: Scan, inner: string, members: Members)
    requires s.depth >= 1 && !s.inStr && !s.esc && IsWs(inner) && ValidMembers(members)
    ensures Run(s, ObjectBody(inner, members)) == Some(s)
    decreases members, 1
  {
    if members.NoMembers? { RunQuiet(s, inner); } else { RunMembers(s, members); }
  }

  lemma {:induction false} RunItems(s: Scan, items: Items)
    requires s.depth >= 1 && !s.inStr && !s.esc && ValidItems(items)
    ensures Run(s, ItemsText(items)) == Some(s)
    decreases items, 0
  {
    match items
    case NoItems =>
    case Item(before, v, after, rest) =>
      var tail := if rest.NoItems? then "" else "," + ItemsText(rest);
      RunQuiet(s, before);
      RunValue(s, v);
      RunQuiet(s, after);
      RunItems(s, rest);
      RunQuiet(s, ",");
      RunConcat(s, ",", ItemsText(rest));
      RunConcat(s, before, Text(v));
      RunConcat(s, before + Text(v), after);
      RunConcat(s, before + Text(v) + after, tail);
  }

  lemma {:induction false} RunMembers(s: Scan, members: Members)
    requires s.depth >= 1 && !s.inStr && !s.esc && ValidMembers(members)
    ensures Run(s, MembersText(members)) == Some(s)
    decreases members, 0
  {
    match members
    case NoMembers =>
    case Member(before, key, mid, mid2, v, after, rest) =>
      var tail := if rest.NoMembers? then "" else "," + MembersText(rest);
      RunQuiet(s, before);
      RunString(s, key);
      RunQuiet(s, mid);
      RunQuiet(s, ":");
      RunQuiet(s, mid2);
      RunValue(s, v);
      RunQuiet(s, after);
      RunMembers(s, rest);
      RunQuiet(s, ",");
      RunConcat(s, ",", MembersText(rest));
      RunConcat(s, before, StringText(key));
      RunConcat(s, before + StringText(key), mid);
      RunConcat(s, before + StringText(key) + mid, ":");
      RunConcat(s, before + StringText(key) + mid + ":", mid2);
      RunConcat(s, before + StringText(key) + mid + ":" + mid2, Text(v));
      RunConcat(s, before + StringText(key) + mid + ":" + mid2 + Text(v), after);
      RunConcat(s, before + StringText(key) + mid + ":" + mid2 + Text(v) + after, tail);
  }

  /** The scan inverts the printer: from the opening brace of any JSON object it stops at that object's
      last brace, whatever follows, and nowhere before it. */
  lemma ScanEndsAtTheObject(v: Value, suffix: string)
    requires Valid(v) && v.Obj?
    ensures StopAt(FRESH, Text(v) + suffix) == |Text(v)|
  {
    var body := ObjectBody(v.inner, v.members);
    var open := Scan(1, false, false);
    RunBody(open, v.inner, v.members);
    assert "{"[1..] == "";
    assert Run(FRESH, "{") == Some(open);
    RunConcat(FRESH, "{", body);
    StopAfter(FRESH, "{" + body, "}" + suffix);
    assert Text(v) + suffix == "{" + body + ("}" + suffix);
  }

  lemma {:induction false} StopsEarlyAnyway(s: Scan, a: string, b: string)
    requires StopAt(s, a) >= 0
    ensures StopAt(s, a + b) == StopAt(s, a) <= |a|
    decreases |a|
  {
    assert (a + b)[1..] == a[1..] + b;
    match Step(s, a[0])
    case Stop =>
    case Go(s') => StopsEarlyAnyway(s', a[1..], b);
  }

  /** A page cut off inside the object is never mistaken for a whole one. */
  lemma TruncatedObjectIsRefused(v: Value, cut: nat)
    requires Valid(v) && v.Obj? && cut < |Text(v)|
    ensures StopAt(FRESH, Text(v)[..cut]) < 0
  {
    var head, tail := Text(v)[..cut], Text(v)[cut..];
    assert head + tail == Text(v) && Text(v) + "" == Text(v);
    ScanEndsAtTheObject(v, "");
    if StopAt(FRESH, head) >= 0 { StopsEarlyAnyway(FRESH, head, tail); }
  }

  /** The span `_extract_model` hands to the JSON parser: after the marker, blanks, then the object. */
  lemma ExtractsTheWholeObject(page: string, marker: nat, blanks: string, v: Value, suffix: string)
    requires Valid(v) && v.Obj? && IsWs(blanks)
    requires marker <= |page| && page[marker..] == blanks + Text(v) + suffix
    ensures Find(page, '{', marker) == marker + |blanks|
    ensures var start := marker + |blanks|;
      var n := StopAt(FRESH, page[start..]); n >= 0 && start + n <= |page| && page[start..start + n] == Text(v)
  {
    var start := marker + |blanks|;
    assert page[start..] == page[marker..][|blanks|..] == Text(v) + suffix;
    ScanEndsAtTheObject(v, suffix);
    assert page[start] == page[start..][0] == '{';
    forall i | marker <= i < start
      ensures page[i] != '{'
    {
      assert page[i] == page[marker..][i - marker] == blanks[i - marker];
      assert blanks[i - marker] in blanks;
    }
    FindSkips(page, '{', marker, start);
    assert page[start..start + |Text(v)|] == page[start..][..|Text(v)|];
  }

  lemma {:induction false} FindSkips(html: string, c: char, from: nat, to: nat)
    requires from <= to < |html| && html[to] == c && forall i | from <= i < to :: html[i] != c
    ensures Find(html, c, from) == to
    decreases |html| - from
  {
    if from < to { FindSkips(html, c, from + 1, to); }
  }
}
