/** What the emitted records say: each carries the text of its post, or the longer full text of a clipped one. */
module PagingTexts {
  import opened Collections
  import Text
  import opened Paging
  import opened PagingRuns

  // ----- the post a record comes from -----

  /** A message the server showed, newer than the cursor, with text, and not known to lie before the window, of which
      the record keeps the number and the first 12000 characters. */
  ghost predicate ComesFrom(c: Call, minId: int, cutoff: int, r: Record, k: nat, before: Option<int>, n: nat) {
    && c.serve(k, before).Shown? && n < |c.serve(k, before).page.blocks|
    && var b := c.serve(k, before).page.blocks[n];
       && b.id == Some(r.id) && r.id > minId && b.text != ""
       && (b.stamps == [] || !b.stamps[0].Aware? || b.stamps[0].at >= cutoff)
       && r.text == if |b.text| > 12000 then b.text[..12000] else b.text
  }

  ghost predicate IsPost(c: Call, minId: int, cutoff: int, r: Record) {
    exists k, before, n :: ComesFrom(c, minId, cutoff, r, k, before, n)
  }

  ghost predicate ArePosts(c: Call, minId: int, cutoff: int, s: seq<Record>) {
    forall r <- s :: IsPost(c, minId, cutoff, r)
  }

  lemma {:induction false} AssignHas(d: seq<Record>, r: Record, x: Record)
    requires x in Assign(d, r)
    ensures x in d || x == r
  {
    if d != [] && d[0].id != r.id && x != d[0] { AssignHas(d[1..], r, x); }
  }

  lemma {:induction false} CollectsPosts(c: Call, k: nat, before: Option<int>, n: nat, d: seq<Record>, minId: int, cutoff: int)
    requires c.serve(k, before).Shown? && n <= |c.serve(k, before).page.blocks| && ArePosts(c, minId, cutoff, d)
    ensures ArePosts(c, minId, cutoff, Collect(d, c.serve(k, before).page.blocks[..n], minId, cutoff))
  {
    if n > 0 {
      var blocks := c.serve(k, before).page.blocks;
      CollectsPosts(c, k, before, n - 1, d, minId, cutoff);
      assert blocks[..n][..n - 1] == blocks[..n - 1];
      var b := blocks[n - 1];
      if Wanted(b, minId, cutoff) {
        var r := Record(b.id.value, Cut(b.text));
        assert ComesFrom(c, minId, cutoff, r, k, before, n - 1);
        forall x | x in Assign(Collect(d, blocks[..n - 1], minId, cutoff), r) ensures IsPost(c, minId, cutoff, x) {
          AssignHas(Collect(d, blocks[..n - 1], minId, cutoff), r, x);
        }
      }
    }
  }

  lemma {:induction false} AssignPuts(d: seq<Record>, r: Record, x: Record)
    ensures r in Assign(d, r)
    ensures x in d && x.id != r.id ==> x in Assign(d, r)
  {
    if d != [] {
      AssignPuts(d[1..], r, x);
      assert d == [d[0]] + d[1..];
    }
  }

  /** Of several messages under one number the last one shown on a page is kept. */
  lemma {:induction false} LastMessageIsKept(d: seq<Record>, blocks: seq<Block>, minId: int, cutoff: int, n: nat)
    requires n < |blocks| && Wanted(blocks[n], minId, cutoff)
    requires forall k | n < k < |blocks| && blocks[k].id == blocks[n].id :: !Wanted(blocks[k], minId, cutoff)
    ensures Record(blocks[n].id.value, Cut(blocks[n].text)) in Collect(d, blocks, minId, cutoff)
    decreases |blocks|
  {
    var last := |blocks| - 1;
    var before, kept := Collect(d, blocks[..last], minId, cutoff), Record(blocks[n].id.value, Cut(blocks[n].text));
    if n < last { LastMessageIsKept(d, blocks[..last], minId, cutoff, n); }
    if Wanted(blocks[last], minId, cutoff) { AssignPuts(before, Record(blocks[last].id.value, Cut(blocks[last].text)), kept); }
  }

  lemma PageCollectsPosts(c: Call, k: nat, minId: int, cutoff: int, w: Walk)
    requires ArePosts(c, minId, cutoff, w.got) && !Step(c.serve, k, minId, cutoff, w).Raise?
    ensures ArePosts(c, minId, cutoff, Step(c.serve, k, minId, cutoff, w).w.got)
  {
    var blocks := c.serve(k, w.before).page.blocks;
    CollectsPosts(c, k, w.before, |blocks|, w.got, minId, cutoff);
    assert blocks[..|blocks|] == blocks;
  }

  lemma {:induction false} WalkCollectsPosts(c: Call, k: nat, pages: nat, minId: int, cutoff: int, w: Walk)
    requires ArePosts(c, minId, cutoff, w.got) && WalkOn(c.serve, k, pages, minId, cutoff, w).Done?
    ensures ArePosts(c, minId, cutoff, WalkOn(c.serve, k, pages, minId, cutoff, w).w.got)
    decreases pages - k
  {
    if k < pages {
      PageCollectsPosts(c, k, minId, cutoff, w);
      var o := Step(c.serve, k, minId, cutoff, w);
      if o.Go? { WalkCollectsPosts(c, k + 1, pages, minId, cutoff, o.w); }
    }
  }

  lemma {:induction false} InsertHas(r: Record, s: seq<Record>, x: Record)
    ensures x in Insert(r, s) ==> x in s || x == r
  {
    if s != [] && s[0].id >= r.id { InsertHas(r, s[1..], x); }
  }

  lemma {:induction false} SortedHas(s: seq<Record>, x: Record)
    requires x in NewestFirst(s)
    ensures x in s
  {
    var n := |s| - 1;
    InsertHas(s[n], NewestFirst(s[..n]), x);
    if x != s[n] { SortedHas(s[..n], x); }
  }

  // ----- clipped texts -----

  /** The text ends in an ellipsis, blanks apart. */
  ghost predicate EndsInEllipsis(text: string) {
    exists i | 0 <= i < |text| :: text[i] == '…' && forall j | i < j < |text| :: Text.IsSpace(text[j])
  }

  lemma {:induction false} ClippedIff(text: string)
    ensures Clipped(text) <==> EndsInEllipsis(text)
  {
    if text != "" {
      var n := |text| - 1;
      ClippedIff(text[..n]);
      if EndsInEllipsis(text) {
        var i :| 0 <= i < |text| && text[i] == '…' && forall j | i < j < |text| :: Text.IsSpace(text[j]);
        if i < n { assert text[..n][i] == '…' && forall j | i < j < n :: Text.IsSpace(text[..n][j]); }
      }
      if Text.IsSpace(text[n]) && EndsInEllipsis(text[..n]) {
        var i :| 0 <= i < n && text[..n][i] == '…' && forall j | i < j < n :: Text.IsSpace(text[..n][j]);
        assert text[i] == '…' && forall j | i < j < |text| :: Text.IsSpace(text[j]);
      }
      if text[n] == '…' { assert EndsInEllipsis(text); }
    }
  }

  ghost function ClippedBefore(s: seq<Record>, i: nat): set<nat>
    requires i <= |s|
  {
    set j: nat | j < i && EndsInEllipsis(s[j].text)
  }

  lemma {:induction false} ClippedAreCounted(s: seq<Record>, i: nat)
    requires i <= |s|
    ensures ClippedCount(s[..i]) == |ClippedBefore(s, i)|
  {
    if i == 0 {
      assert ClippedBefore(s, 0) == {};
    } else {
      ClippedAreCounted(s, i - 1);
      ClippedIff(s[i - 1].text);
      assert s[..i][..i - 1] == s[..i - 1];
      OneMoreClipped(s, i);
    }
  }

  lemma OneMoreClipped(s: seq<Record>, i: nat)
    requires 0 < i <= |s|
    ensures |ClippedBefore(s, i)| == |ClippedBefore(s, i - 1)| + if EndsInEllipsis(s[i - 1].text) then 1 else 0
  {
    if EndsInEllipsis(s[i - 1].text) {
      assert ClippedBefore(s, i) == ClippedBefore(s, i - 1) + {i - 1};
    } else {
      assert ClippedBefore(s, i) == ClippedBefore(s, i - 1);
    }
  }

  // ----- one fetch -----

  /** The post's text, or its full text if it is clipped, among the first 40 clipped ones, and the full text longer. */
  ghost predicate Carries(c: Call, posts: seq<Record>, i: nat, r: Record)
    requires i < |posts|
  {
    var p := posts[i];
    r.id == p.id &&
    if EndsInEllipsis(p.text) && |ClippedBefore(posts, i)| < 40 && c.full(p).Some? && |c.full(p).value| > |p.text|
    then r.text == if |c.full(p).value| > 12000 then c.full(p).value[..12000] else c.full(p).value
    else r.text == p.text
  }

  /** The records of a fetch are posts the server showed, newest first, each with its post's text or the full one. */
  lemma RecordsCarryTheirTexts(c: Call, cursor: Option<nat>) returns (posts: seq<Record>)
    requires FetchOf(c, cursor).Fetched?
    ensures NewToOld(posts) && ArePosts(c, MinId(cursor), Cutoff(c, MinId(cursor)), posts)
    ensures |FetchOf(c, cursor).records| == |posts|
    ensures forall i | 0 <= i < |posts| :: Carries(c, posts, i, FetchOf(c, cursor).records[i])
  {
    var minId := MinId(cursor);
    var start := Walk(None, minId, [], []);
    var w := WalkOf(c, cursor).w;
    WalkKeeps(c, [], 0, PageBudget(c, minId), minId, Cutoff(c, minId), start);
    WalkCollectsPosts(c, 0, PageBudget(c, minId), minId, Cutoff(c, minId), start);
    posts := NewestFirst(w.got);
    SortingHolds(w.got, 0);
    forall r | r in posts ensures IsPost(c, minId, Cutoff(c, minId), r) { SortedHas(w.got, r); }
    forall i | 0 <= i < |posts| ensures |FetchOf(c, cursor).records| == |posts| && Carries(c, posts, i, FetchOf(c, cursor).records[i]) {
      BudgetGoesFirst(posts, MAX_RESOLVES, c.full, i);
      ClippedIff(posts[i].text);
      ClippedAreCounted(posts, i);
    }
    if posts != [] { BudgetGoesFirst(posts, MAX_RESOLVES, c.full, 0); }
  }

  /** A message of the channel that is newer than the cursor, has text, and bears no zoned time before the window of 14
      days, 7 once there is a cursor, is emitted if and only if the pages reached down to it. */
  lemma PostIsEmittedIff(c: Call, cursor: Option<nat>, channel: seq<Block>, b: Block)
    requires FetchOf(c, cursor).Fetched? && Shows(c, channel) && b in channel
    requires b.id.Some? && b.id.value > (if cursor.Some? then cursor.value else 0) && b.text != ""
    requires b.stamps == [] || !b.stamps[0].Aware? || b.stamps[0].at >= c.now - 86400 * if cursor.Some? && cursor.value > 0 then 7 else 14
    ensures (exists r <- FetchOf(c, cursor).records :: r.id == b.id.value) <==> Reach(c, cursor) <= b.id.value
  {
    EmittedIffReached(c, cursor, channel, b);
  }

  // ----- when a fetch goes on, and when it fails -----

  /** A time on the page, in the head or in a message. */
  ghost predicate OnPage(page: Page, t: Stamp) {
    t in page.head || exists b <- page.blocks :: t in b.stamps
  }

  lemma {:induction false} BlockStampsAre(blocks: seq<Block>, t: Stamp)
    ensures t in BlockStamps(blocks) <==> exists b <- blocks :: t in b.stamps
  {
    if blocks != [] {
      var n := |blocks| - 1;
      BlockStampsAre(blocks[..n], t);
      assert blocks == blocks[..n] + [blocks[n]];
    }
  }

  lemma StampsAre(page: Page)
    ensures forall t :: t in Stamps(page) <==> OnPage(page, t)
  {
    forall t ensures t in Stamps(page) <==> OnPage(page, t) { BlockStampsAre(page.blocks, t); }
  }

  /** Times with and without a zone on one page. */
  ghost predicate MixesZones(page: Page) {
    (exists a: int :: OnPage(page, Aware(a))) && exists n: int :: OnPage(page, Naive(n))
  }

  lemma MixedIff(page: Page)
    ensures Mixed(Stamps(page)) <==> MixesZones(page)
  {
    StampsAre(page);
    if Mixed(Stamps(page)) {
      var s, t :| s in Stamps(page) && t in Stamps(page) && s.Aware? && t.Naive?;
      assert OnPage(page, Aware(s.at)) && OnPage(page, Naive(t.at));
    }
    if MixesZones(page) {
      var a, n :| OnPage(page, Aware(a)) && OnPage(page, Naive(n));
      assert Aware(a) in Stamps(page) && Naive(n) in Stamps(page);
    }
  }

  lemma PastWindowIff(page: Page, cutoff: int)
    ensures PastWindow(Stamps(page), cutoff) <==> exists a: int :: a < cutoff && OnPage(page, Aware(a))
  {
    StampsAre(page);
    if PastWindow(Stamps(page), cutoff) {
      var s :| s in Stamps(page) && s.Aware? && s.at < cutoff;
      assert OnPage(page, Aware(s.at));
    }
    if a: int :| a < cutoff && OnPage(page, Aware(a)) { assert Aware(a) in Stamps(page); }
  }

  /** The lowest number on a page. */
  ghost predicate LowestOn(page: Page, n: int) {
    (exists b <- page.blocks :: b.id == Some(n)) && forall b <- page.blocks | b.id.Some? :: n <= b.id.value
  }

  lemma FloorIs(page: Page)
    ensures Least(Numbers(page.blocks)).None? <==> forall b <- page.blocks :: b.id.None?
    ensures forall n :: Least(Numbers(page.blocks)) == Some(n) <==> LowestOn(page, n)
  {
    forall n ensures n in Numbers(page.blocks) <==> exists b <- page.blocks :: b.id == Some(n) { NumbersAre(page.blocks, n); }
    forall b | b in page.blocks && b.id.Some? ensures b.id.value in Numbers(page.blocks) {}
    var m := Least(Numbers(page.blocks));
    if m.Some? { assert exists b <- page.blocks :: b.id == Some(m.value); }
    forall n | LowestOn(page, n) ensures m == Some(n) { assert n in Numbers(page.blocks); }
  }

  /** A page that mixes zones raises, as does a first page without messages; otherwise the fetch asks for the page before
      the lowest number shown, exactly if that number is below the one asked for and no zoned time on the page lies
      before the window. */
  lemma GoesOnIff(page: Page, first: bool, minId: int, cutoff: int, w: Walk)
    ensures var o := Visit(page, first, minId, cutoff, w);
      && (o == Raise(MixedTimes) <==> MixesZones(page))
      && (o == Raise(PreviewUnavailable) <==> !MixesZones(page) && first && forall b <- page.blocks :: b.id.None?)
      && (o.Go? <==> !MixesZones(page) && (exists n :: LowestOn(page, n) && (w.before.Some? ==> n < w.before.value))
                     && forall a: int :: a < cutoff ==> !OnPage(page, Aware(a)))
      && (o.Go? ==> o.w.before.Some? && LowestOn(page, o.w.before.value))
  {
    MixedIff(page);
    PastWindowIff(page, cutoff);
    FloorIs(page);
  }

  /** A redirect means the preview is off, another failure is the server's, and nothing else comes of the first reply. */
  lemma FirstReplyDecides(c: Call, cursor: Option<nat>)
    ensures c.serve(0, None) == Redirect ==> FetchOf(c, cursor) == Refused(PreviewUnavailable)
    ensures c.serve(0, None) == Failed ==> FetchOf(c, cursor) == Refused(HttpError)
    ensures c.serve(0, None).Shown? && MixesZones(c.serve(0, None).page) ==> FetchOf(c, cursor) == Refused(MixedTimes)
    ensures c.serve(0, None).Shown? && !MixesZones(c.serve(0, None).page) && (forall b <- c.serve(0, None).page.blocks :: b.id.None?) ==>
      FetchOf(c, cursor) == Refused(PreviewUnavailable)
  {
    var minId := MinId(cursor);
    if c.serve(0, None).Shown? { GoesOnIff(c.serve(0, None).page, true, minId, Cutoff(c, minId), Walk(None, minId, [], [])); }
  }

  lemma {:induction false} NewestGrows(serve: Server, k: nat, pages: nat, minId: int, cutoff: int, w: Walk)
    requires WalkOn(serve, k, pages, minId, cutoff, w).Done?
    ensures WalkOn(serve, k, pages, minId, cutoff, w).w.newest >= w.newest
    decreases pages - k
  {
    if k < pages {
      var o := Step(serve, k, minId, cutoff, w);
      if o.Go? { NewestGrows(serve, k + 1, pages, minId, cutoff, o.w); }
    }
  }

  /** The cursor a fetch leaves is no lower than any number on the first page above the old one, kept or not. */
  lemma CursorPassesFirstPage(c: Call, cursor: Option<nat>, b: Block)
    requires FetchOf(c, cursor).Fetched? && c.serve(0, None).Shown? && b in c.serve(0, None).page.blocks
    requires b.id.Some? && b.id.value > MinId(cursor)
    ensures FetchOf(c, cursor).cursor.Some? && FetchOf(c, cursor).cursor.value >= b.id.value
  {
    var minId := MinId(cursor);
    var pages := PageBudget(c, minId);
    var start := Walk(None, minId, [], []);
    var o := Step(c.serve, 0, minId, Cutoff(c, minId), start);
    NumbersAre(c.serve(0, None).page.blocks, b.id.value);
    assert o.w.newest >= b.id.value;
    if o.Go? { NewestGrows(c.serve, 1, pages, minId, Cutoff(c, minId), o.w); }
  }
}
