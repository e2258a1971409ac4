/** What the preview pager promises: `before` only falls, the cursor only rises, nothing is emitted twice,
  and a post has exactly one chance to be emitted. */
module PagingRuns {
  import opened Collections
  import opened Paging

  // ----- which numbers a dict and a page hold -----

  ghost predicate HasId(s: seq<Record>, id: int) { exists r <- s :: r.id == id }

  ghost predicate DistinctIds(s: seq<Record>) { forall i, j :: 0 <= i < j < |s| ==> s[i].id != s[j].id }

  ghost predicate Offers(blocks: seq<Block>, id: int, minId: int, cutoff: int) {
    exists b <- blocks :: Wanted(b, minId, cutoff) && b.id.value == id
  }

  lemma {:induction false} AssignHolds(d: seq<Record>, r: Record, id: int)
    ensures HasId(Assign(d, r), id) <==> HasId(d, id) || id == r.id
  {
    if d == [] {
      assert r in Assign(d, r);
    } else {
      assert d == [d[0]] + d[1..];
      if d[0].id == r.id {
        assert r in Assign(d, r);
      } else {
        AssignHolds(d[1..], r, id);
      }
      assert HasId(d, id) <==> d[0].id == id || HasId(d[1..], id);
    }
  }

  lemma {:induction false} AssignKeepsDistinct(d: seq<Record>, r: Record)
    requires DistinctIds(d)
    ensures DistinctIds(Assign(d, r))
  {
    if d != [] && d[0].id != r.id {
      AssignKeepsDistinct(d[1..], r);
      AssignHolds(d[1..], r, d[0].id);
      if HasId(d[1..], d[0].id) { assert false; }
    }
  }

  lemma {:induction false} CollectHolds(d: seq<Record>, blocks: seq<Block>, minId: int, cutoff: int, id: int)
    ensures HasId(Collect(d, blocks, minId, cutoff), id) <==> HasId(d, id) || Offers(blocks, id, minId, cutoff)
    ensures DistinctIds(d) ==> DistinctIds(Collect(d, blocks, minId, cutoff))
  {
    if blocks != [] {
      var n := |blocks| - 1;
      var b := blocks[n];
      assert blocks == blocks[..n] + [b];
      CollectHolds(d, blocks[..n], minId, cutoff, id);
      var front := Collect(d, blocks[..n], minId, cutoff);
      assert Offers(blocks, id, minId, cutoff) <==> Offers(blocks[..n], id, minId, cutoff) || (Wanted(b, minId, cutoff) && b.id.value == id);
      if Wanted(b, minId, cutoff) {
        var r := Record(b.id.value, Cut(b.text));
        AssignHolds(front, r, id);
        if DistinctIds(d) { AssignKeepsDistinct(front, r); }
      }
    }
  }

  lemma {:induction false} NumbersAre(blocks: seq<Block>, id: int)
    ensures id in Numbers(blocks) <==> exists b <- blocks :: b.id == Some(id)
  {
    if blocks != [] {
      var n := |blocks| - 1;
      assert blocks == blocks[..n] + [blocks[n]];
      NumbersAre(blocks[..n], id);
      assert (exists b <- blocks :: b.id == Some(id)) <==> (exists b <- blocks[..n] :: b.id == Some(id)) || blocks[n].id == Some(id);
    }
  }

  // ----- one step of the walk -----

  ghost predicate Descending(s: seq<int>) { forall i, j :: 0 <= i < j < |s| ==> s[i] > s[j] }

  /** What the walk has collected lies between the old cursor, the floor reached and the newest seen. */
  ghost predicate Bounded(w: Walk, minId: int) {
    && minId <= w.newest
    && (w.before.Some? ==> w.before.value <= w.newest)
    && DistinctIds(w.got)
    && (forall id | HasId(w.got, id) :: minId < id <= w.newest && w.before.Some? && w.before.value <= id)
  }

  lemma VisitKeepsBounded(page: Page, first: bool, minId: int, cutoff: int, w: Walk)
    requires Bounded(w, minId) && (first <==> w.before.None?)
    requires !Visit(page, first, minId, cutoff, w).Raise?
    ensures Bounded(Visit(page, first, minId, cutoff, w).w, minId) && Visit(page, first, minId, cutoff, w).w.before.Some?
  {
    var w' := Visit(page, first, minId, cutoff, w).w;
    var floor := Least(Numbers(page.blocks));
    forall id | HasId(w'.got, id)
      ensures minId < id <= w'.newest && w'.before.Some? && w'.before.value <= id
    {
      CollectHolds(w.got, page.blocks, minId, cutoff, id);
      if !HasId(w.got, id) {
        NumbersAre(page.blocks, id);
        assert id in Numbers(page.blocks);
      }
    }
    CollectHolds(w.got, page.blocks, minId, cutoff, 0);
  }

  /** The server shows every post of the channel from the page's lowest number up to `before`; a page with
      no numbers says there are none below.  Other blocks on the page are unrestricted. */
  ghost predicate Contiguous(channel: seq<Block>, before: Option<int>, page: Page) {
    forall p <- channel ::
      p.id.Some? && (before.Some? ==> p.id.value < before.value)
      && (Least(Numbers(page.blocks)).Some? ==> Least(Numbers(page.blocks)).value <= p.id.value)
      ==> p in page.blocks
  }

  /** Of the posts of the channel that are wanted, exactly those from `before` up were collected. */
  ghost predicate Exact(channel: seq<Block>, w: Walk, minId: int, cutoff: int) {
    forall p <- channel | Wanted(p, minId, cutoff) ::
      HasId(w.got, p.id.value) <==> w.before.Some? && w.before.value <= p.id.value
  }

  lemma VisitKeepsExact(channel: seq<Block>, page: Page, first: bool, minId: int, cutoff: int, w: Walk)
    requires Bounded(w, minId) && Exact(channel, w, minId, cutoff) && (first <==> w.before.None?)
    requires Contiguous(channel, w.before, page)
    requires !Visit(page, first, minId, cutoff, w).Raise?
    ensures Exact(channel, Visit(page, first, minId, cutoff, w).w, minId, cutoff)
  {
    var w' := Visit(page, first, minId, cutoff, w).w;
    VisitKeepsBounded(page, first, minId, cutoff, w);
    forall p | p in channel && Wanted(p, minId, cutoff)
      ensures HasId(w'.got, p.id.value) <==> w'.before.Some? && w'.before.value <= p.id.value
    {
      CollectHolds(w.got, page.blocks, minId, cutoff, p.id.value);
      if w'.before.value <= p.id.value && !HasId(w.got, p.id.value) {
        assert p in page.blocks;
        assert Offers(page.blocks, p.id.value, minId, cutoff);
      }
    }
  }

  // ----- the whole walk -----

  ghost predicate Shows(c: Call, channel: seq<Block>) {
    forall k: nat, before: Option<int> | c.serve(k, before).Shown? :: Contiguous(channel, before, c.serve(k, before).page)
  }

  /** One request of the walk. */
  lemma PageKeeps(c: Call, channel: seq<Block>, k: nat, minId: int, cutoff: int, w: Walk)
    requires Bounded(w, minId) && (k == 0 <==> w.before.None?)
    requires c.serve(k, w.before).Shown? && !Visit(c.serve(k, w.before).page, k == 0, minId, cutoff, w).Raise?
    ensures var w' := Visit(c.serve(k, w.before).page, k == 0, minId, cutoff, w).w;
      && Bounded(w', minId) && w'.before.Some?
      && (Shows(c, channel) && Exact(channel, w, minId, cutoff) ==> Exact(channel, w', minId, cutoff))
  {
    var page := c.serve(k, w.before).page;
    VisitKeepsBounded(page, k == 0, minId, cutoff, w);
    if Shows(c, channel) && Exact(channel, w, minId, cutoff) { VisitKeepsExact(channel, page, k == 0, minId, cutoff, w); }
  }

  lemma {:induction false} WalkKeeps(c: Call, channel: seq<Block>, k: nat, pages: nat, minId: int, cutoff: int, w: Walk)
    requires Bounded(w, minId) && (k == 0 <==> w.before.None?) && k < pages
    requires WalkOn(c.serve, k, pages, minId, cutoff, w).Done?
    ensures var w' := WalkOn(c.serve, k, pages, minId, cutoff, w).w;
      && Bounded(w', minId) && w'.before.Some?
      && (Shows(c, channel) && Exact(channel, w, minId, cutoff) ==> Exact(channel, w', minId, cutoff))
    decreases pages - k
  {
    PageKeeps(c, channel, k, minId, cutoff, w);
    var o := Visit(c.serve(k, w.before).page, k == 0, minId, cutoff, w);
    if o.Go? && k + 1 < pages {
      WalkKeeps(c, channel, k + 1, pages, minId, cutoff, o.w);
    }
  }

  /** The next value of `before` is below every value asked for so far. */
  ghost predicate Below(w: Walk) {
    Descending(w.asked) && forall a <- w.asked :: w.before.Some? && w.before.value < a
  }

  lemma VisitStaysBelow(page: Page, first: bool, minId: int, cutoff: int, w: Walk)
    requires Below(w) && !Visit(page, first, minId, cutoff, w).Raise?
    ensures var o := Visit(page, first, minId, cutoff, w);
      Descending(o.w.asked) && |o.w.asked| <= |w.asked| + 1 && (o.Go? ==> Below(o.w))
  {
    assert forall i | 0 <= i < |w.asked| :: w.asked[i] in w.asked;
  }

  lemma {:induction false} AskedDescends(serve: Server, k: nat, pages: nat, minId: int, cutoff: int, w: Walk)
    requires Below(w) && k <= pages && |w.asked| <= k
    requires WalkOn(serve, k, pages, minId, cutoff, w).Done?
    ensures var w' := WalkOn(serve, k, pages, minId, cutoff, w).w; Descending(w'.asked) && |w'.asked| <= pages
    decreases pages - k
  {
    if k < pages {
      VisitStaysBelow(serve(k, w.before).page, k == 0, minId, cutoff, w);
      var o := Step(serve, k, minId, cutoff, w);
      if o.Go? { AskedDescends(serve, k + 1, pages, minId, cutoff, o.w); }
    }
  }

  /** `before` strictly decreases from request to request, whatever the server answers. */
  lemma BeforeFalls(c: Call, cursor: Option<nat>)
    requires WalkOf(c, cursor).Done?
    ensures Descending(WalkOf(c, cursor).w.asked) && |WalkOf(c, cursor).w.asked| <= PageBudget(c, MinId(cursor))
  {
    var minId := MinId(cursor);
    AskedDescends(c.serve, 0, PageBudget(c, minId), minId, Cutoff(c, minId), Walk(None, minId, [], []));
  }

  // ----- sorting and full texts -----

  ghost predicate NewToOld(s: seq<Record>) { forall i, j :: 0 <= i < j < |s| ==> s[i].id > s[j].id }

  lemma {:induction false} InsertHolds(r: Record, s: seq<Record>, id: int)
    ensures HasId(Insert(r, s), id) <==> HasId(s, id) || id == r.id
  {
    if s == [] || s[0].id < r.id {
      assert r in Insert(r, s);
      assert forall x <- s :: x in Insert(r, s);
    } else {
      InsertHolds(r, s[1..], id);
      assert s == [s[0]] + s[1..];
      assert HasId(s, id) <==> s[0].id == id || HasId(s[1..], id);
      assert HasId(Insert(r, s), id) <==> s[0].id == id || HasId(Insert(r, s[1..]), id);
    }
  }

  lemma {:induction false} InsertSorts(r: Record, s: seq<Record>)
    requires NewToOld(s) && !HasId(s, r.id)
    ensures NewToOld(Insert(r, s))
  {
    if s != [] && s[0].id >= r.id {
      assert s[0] in s;
      assert s == [s[0]] + s[1..];
      InsertSorts(r, s[1..]);
      var t := Insert(r, s[1..]);
      forall i | 0 <= i < |t| ensures t[i].id < s[0].id {
        assert t[i] in t;
        InsertHolds(r, s[1..], t[i].id);
      }
    }
  }

  lemma {:induction false} SortingHolds(s: seq<Record>, id: int)
    requires DistinctIds(s)
    ensures HasId(NewestFirst(s), id) <==> HasId(s, id)
    ensures NewToOld(NewestFirst(s))
  {
    if s != [] {
      var n := |s| - 1;
      SortingHolds(s[..n], id);
      SortingHolds(s[..n], s[n].id);
      InsertHolds(s[n], NewestFirst(s[..n]), id);
      assert s == s[..n] + [s[n]];
      assert HasId(s, id) <==> HasId(s[..n], id) || s[n].id == id;
      assert !HasId(s[..n], s[n].id);
      InsertSorts(s[n], NewestFirst(s[..n]));
    }
  }

  function ClippedCount(s: seq<Record>): nat {
    if s == [] then 0 else ClippedCount(s[..|s| - 1]) + if Clipped(s[|s| - 1].text) then 1 else 0
  }

  lemma {:induction false} ClippedCountFromFront(s: seq<Record>)
    requires s != []
    ensures ClippedCount(s) == ClippedCount(s[1..]) + if Clipped(s[0].text) then 1 else 0
  {
    var n := |s| - 1;
    if n > 0 {
      ClippedCountFromFront(s[..n]);
      assert s[..n][1..] == s[1..][..n - 1];
    }
  }

  /** The budget goes to the first posts in the order given: a post gets its full text looked up exactly
      when it is clipped and fewer than `budget` clipped ones stand before it. */
  lemma {:induction false} BudgetGoesFirst(s: seq<Record>, budget: nat, full: Pages, i: nat)
    requires i < |s|
    ensures |Resolve(s, budget, full)| == |s|
    ensures Resolve(s, budget, full)[i] ==
      if Clipped(s[i].text) && ClippedCount(s[..i]) < budget then Unclip(s[i], full(s[i])) else s[i]
  {
    if i > 0 {
      var spent := budget > 0 && Clipped(s[0].text);
      BudgetGoesFirst(s[1..], if spent then budget - 1 else budget, full, i - 1);
      ClippedCountFromFront(s[..i]);
      assert s[..i][1..] == s[1..][..i - 1];
    } else if |s| > 1 {
      BudgetGoesFirst(s[1..], if budget > 0 && Clipped(s[0].text) then budget - 1 else budget, full, 0);
    }
  }

  lemma ResolveHolds(s: seq<Record>, budget: nat, full: Pages, id: int)
    ensures HasId(Resolve(s, budget, full), id) <==> HasId(s, id)
    ensures NewToOld(s) ==> NewToOld(Resolve(s, budget, full))
  {
    var t := Resolve(s, budget, full);
    forall i | 0 <= i < |s| ensures |t| == |s| && t[i].id == s[i].id {
      BudgetGoesFirst(s, budget, full, i);
    }
    assert |t| == |s|;
    if HasId(s, id) {
      var i :| 0 <= i < |s| && s[i].id == id;
      assert t[i] in t;
    }
    if HasId(t, id) {
      var i :| 0 <= i < |t| && t[i].id == id;
      assert s[i] in s;
    }
  }

  // ----- one fetch -----

  function NextCursor(f: Fetched, cursor: Option<nat>): int
    requires f.Fetched?
  {
    if f.cursor.Some? then f.cursor.value else MinId(cursor)
  }

  /** Records come newest first, each above the old cursor and none above the new one, which never falls. */
  lemma FetchIsBounded(c: Call, cursor: Option<nat>)
    requires FetchOf(c, cursor).Fetched?
    ensures var f := FetchOf(c, cursor);
      && NextCursor(f, cursor) >= MinId(cursor)
      && (f.cursor.None? ==> f.records == [])
      && NewToOld(f.records)
      && forall r <- f.records :: MinId(cursor) < r.id <= NextCursor(f, cursor)
  {
    var f := FetchOf(c, cursor);
    var minId := MinId(cursor);
    var w := WalkOf(c, cursor).w;
    WalkKeeps(c, [], 0, PageBudget(c, minId), minId, Cutoff(c, minId), Walk(None, minId, [], []));
    var sorted := NewestFirst(w.got);
    SortingHolds(w.got, 0);
    ResolveHolds(sorted, MAX_RESOLVES, c.full, 0);
    forall r | r in f.records
      ensures minId < r.id <= w.newest
    {
      ResolveHolds(sorted, MAX_RESOLVES, c.full, r.id);
      SortingHolds(w.got, r.id);
    }
    assert f.records != [] ==> f.records[0] in f.records;
  }

  /** How far down a successful fetch got: the lowest number on its last page that made progress. */
  function Reach(c: Call, cursor: Option<nat>): int {
    var w := WalkOf(c, cursor);
    if w.Done? && w.w.before.Some? then w.w.before.value else 0
  }

  /** Lossless exactly as far down as the pages went: a wanted post of the channel is emitted if and only
      if it is not below the reach. */
  lemma EmittedIffReached(c: Call, cursor: Option<nat>, channel: seq<Block>, p: Block)
    requires FetchOf(c, cursor).Fetched? && Shows(c, channel)
    requires p in channel && Wanted(p, MinId(cursor), Cutoff(c, MinId(cursor)))
    ensures HasId(FetchOf(c, cursor).records, p.id.value) <==> Reach(c, cursor) <= p.id.value
    ensures Reach(c, cursor) <= NextCursor(FetchOf(c, cursor), cursor)
  {
    var minId := MinId(cursor);
    var w := WalkOf(c, cursor).w;
    WalkKeeps(c, channel, 0, PageBudget(c, minId), minId, Cutoff(c, minId), Walk(None, minId, [], []));
    SortingHolds(w.got, p.id.value);
    ResolveHolds(NewestFirst(w.got), MAX_RESOLVES, c.full, p.id.value);
  }

  /** Once a cursor exists a fetch sees one page, so a burst longer than a page is cut off at its floor. */
  lemma IncrementalReachIsOnePage(c: Call, cursor: Option<nat>)
    requires FetchOf(c, cursor).Fetched? && cursor.Some? && cursor.value > 0 && c.maxPages.None?
    ensures c.serve(0, None).Shown? && Least(Numbers(c.serve(0, None).page.blocks)) == Some(Reach(c, cursor))
  {
    var minId := MinId(cursor);
    var o := Step(c.serve, 0, minId, Cutoff(c, minId), Walk(None, minId, [], []));
    assert PageBudget(c, minId) == 1;
    if o.Go? { assert WalkOn(c.serve, 1, 1, minId, Cutoff(c, minId), o.w) == Done(o.w); }
  }

  // ----- runs of fetches -----

  /** One call of a run: the cursor it got, what it emitted and the cursor it left.  A call that raised
      emitted nothing and left the cursor alone. */
  datatype Turn = Turn(at: Option<nat>, emitted: seq<Record>, next: Option<int>)

  function TurnOf(c: Call, at: Option<nat>): Turn {
    match FetchOf(c, at)
    case Refused(_) => Turn(at, [], at)
    case Fetched(records, next) => Turn(at, records, next)
  }

  ghost predicate Follows(calls: seq<Call>, run: seq<Turn>, i: nat)
    requires i < |calls| == |run|
  {
    run[i] == TurnOf(calls[i], run[i].at) && (i + 1 < |run| ==> run[i + 1].at == run[i].next)
  }

  ghost predicate IsRun(calls: seq<Call>, run: seq<Turn>) {
    |calls| == |run| && forall i | 0 <= i < |run| :: Follows(calls, run, i)
  }

  function Value(cursor: Option<int>): int { if cursor.Some? then cursor.value else 0 }

  lemma TurnIsBounded(calls: seq<Call>, run: seq<Turn>, i: nat)
    requires IsRun(calls, run) && i < |run|
    ensures Value(run[i].at) <= Value(run[i].next)
    ensures NewToOld(run[i].emitted)
    ensures forall r <- run[i].emitted :: Value(run[i].at) < r.id <= Value(run[i].next)
  {
    assert Follows(calls, run, i);
    if FetchOf(calls[i], run[i].at).Fetched? { FetchIsBounded(calls[i], run[i].at); }
  }

  lemma NextTurn(calls: seq<Call>, run: seq<Turn>, i: nat)
    requires IsRun(calls, run) && i + 1 < |run|
    ensures run[i + 1].at == run[i].next
  {
    assert Follows(calls, run, i);
  }

  lemma {:induction false} CursorNeverFalls(calls: seq<Call>, run: seq<Turn>, i: nat, j: nat)
    requires IsRun(calls, run) && i < j < |run|
    ensures Value(run[i].next) <= Value(run[j].at)
  {
    NextTurn(calls, run, j - 1);
    if i < j - 1 {
      CursorNeverFalls(calls, run, i, j - 1);
      TurnIsBounded(calls, run, j - 1);
    }
  }

  /** Over any run of fetches, whatever the server shows, no number is emitted twice; later fetches only
      emit later posts. */
  lemma NoPostTwice(calls: seq<Call>, run: seq<Turn>, i: nat, j: nat)
    requires IsRun(calls, run) && i <= j < |run|
    ensures i < j ==> forall a <- run[i].emitted, b <- run[j].emitted :: a.id < b.id
    ensures i == j ==> NewToOld(run[i].emitted)
  {
    TurnIsBounded(calls, run, i);
    TurnIsBounded(calls, run, j);
    if i < j { CursorNeverFalls(calls, run, i, j); }
  }

  /** The i-th call of the run succeeds and wants a post of the channel its server shows. */
  ghost predicate Wants(c: Call, at: Option<nat>, channel: seq<Block>, p: Block) {
    FetchOf(c, at).Fetched? && Shows(c, channel) && p in channel && Wanted(p, MinId(at), Cutoff(c, MinId(at)))
  }

  lemma FirstChance(calls: seq<Call>, run: seq<Turn>, channel: seq<Block>, p: Block, i: nat)
    requires IsRun(calls, run) && i < |run| && Wants(calls[i], run[i].at, channel, p)
    ensures HasId(run[i].emitted, p.id.value) <==> Reach(calls[i], run[i].at) <= p.id.value
    ensures Reach(calls[i], run[i].at) <= Value(run[i].next)
  {
    assert Follows(calls, run, i);
    EmittedIffReached(calls[i], run[i].at, channel, p);
    FetchIsBounded(calls[i], run[i].at);
  }

  /** A post has one chance.  A successful fetch that wants it emits it exactly when its pages reach down to
      it, and either way no later fetch of the run emits it. */
  lemma OneChance(calls: seq<Call>, run: seq<Turn>, channel: seq<Block>, p: Block, i: nat, j: nat)
    requires IsRun(calls, run) && i <= j < |run| && Wants(calls[i], run[i].at, channel, p)
    ensures HasId(run[j].emitted, p.id.value) <==> j == i && Reach(calls[i], run[i].at) <= p.id.value
  {
    FirstChance(calls, run, channel, p, i);
    if j > i {
      TurnIsBounded(calls, run, i);
      TurnIsBounded(calls, run, j);
      CursorNeverFalls(calls, run, i, j);
    }
  }
}
