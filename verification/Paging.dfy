/** The public channel preview: paging back through `?before=`, the cursor, and what a run of fetches
  emits.  Pages are what the server chose to answer; nothing is assumed of them unless a lemma says so. */
module Paging {
  import opened Collections
  import Text

  const TEXT_LIMIT := 12000
  const LOOKBACK_DAYS := 7
  const BACKFILL_PAGES := 8
  const BACKFILL_LOOKBACK_DAYS := 14
  const MAX_RESOLVES := 40
  const DAY := 86400

  // ----- pages -----

  datatype Stamp = Aware(at: int) | Naive(at: int) | Unreadable

  /** One message of a page: its number if it has one, its text, and the times in it. */
  datatype Block = Block(id: Option<int>, text: string, stamps: seq<Stamp>)

  /** A page: the times before its first message, and its messages. */
  datatype Page = Page(head: seq<Stamp>, blocks: seq<Block>)

  datatype Reply = Redirect | Failed | Shown(page: Page)

  datatype Record = Record(id: int, text: string)

  datatype Error = PreviewUnavailable | HttpError | MixedTimes

  // ----- reading one page -----

  function Cut(text: string): string { if |text| > TEXT_LIMIT then text[..TEXT_LIMIT] else text }

  /** The message is new, has text, and its time is not known to lie before the window. */
  predicate Wanted(b: Block, minId: int, cutoff: int) {
    && b.id.Some? && b.id.value > minId
    && b.text != ""
    && !(b.stamps != [] && b.stamps[0].Aware? && b.stamps[0].at < cutoff)
  }

  /** Assigning a dict entry: a known number keeps its place. */
  function Assign(d: seq<Record>, r: Record): seq<Record> {
    if d == [] then [r] else if d[0].id == r.id then [r] + d[1..] else [d[0]] + Assign(d[1..], r)
  }

  /** `collected` after the records of these messages were put into it. */
  function Collect(d: seq<Record>, blocks: seq<Block>, minId: int, cutoff: int): seq<Record> {
    if blocks == [] then d
    else
      var n := |blocks| - 1;
      var before := Collect(d, blocks[..n], minId, cutoff);
      if Wanted(blocks[n], minId, cutoff) then Assign(before, Record(blocks[n].id.value, Cut(blocks[n].text))) else before
  }

  function Numbers(blocks: seq<Block>): seq<int> {
    if blocks == [] then []
    else
      var n := |blocks| - 1;
      Numbers(blocks[..n]) + if blocks[n].id.Some? then [blocks[n].id.value] else []
  }

  function Stamps(page: Page): seq<Stamp> { page.head + BlockStamps(page.blocks) }

  function BlockStamps(blocks: seq<Block>): seq<Stamp> {
    if blocks == [] then []
    else BlockStamps(blocks[..|blocks| - 1]) + blocks[|blocks| - 1].stamps
  }

  /** Times with and without a zone cannot be compared, so `min` of a mixture raises. */
  predicate Mixed(stamps: seq<Stamp>) {
    (exists s <- stamps :: s.Aware?) && (exists s <- stamps :: s.Naive?)
  }

  /** The oldest time of the page is known and lies before the window. */
  predicate PastWindow(stamps: seq<Stamp>, cutoff: int) {
    exists s <- stamps :: s.Aware? && s.at < cutoff
  }

  // ----- the paging loop -----

  /** The loop variables, and the `?before=` values asked for so far. */
  datatype Walk = Walk(before: Option<int>, newest: int, got: seq<Record>, asked: seq<int>)

  datatype Outcome = Go(w: Walk) | Stop(w: Walk) | Raise(e: Error)

  function Max(a: int, b: int): int { if a >= b then a else b }

  function Newest(newest: int, page: Page, minId: int): int {
    var m := Greatest(Numbers(page.blocks));
    if m.Some? && m.value > minId then Max(newest, m.value) else newest
  }

  function Asking(w: Walk): Walk {
    if w.before.Some? then w.(asked := w.asked + [w.before.value]) else w
  }

  /** What one iteration does with the page it was shown. */
  function Visit(page: Page, first: bool, minId: int, cutoff: int, w: Walk): Outcome {
    var floor := Least(Numbers(page.blocks));
    if Mixed(Stamps(page)) then Raise(MixedTimes)
    else if first && floor.None? then Raise(PreviewUnavailable)
    else
      var w' := Asking(w).(newest := Newest(w.newest, page, minId), got := Collect(w.got, page.blocks, minId, cutoff));
      if floor.None? || (w.before.Some? && floor.value >= w.before.value) then Stop(w')
      else if PastWindow(Stamps(page), cutoff) then Stop(w'.(before := floor))
      else Go(w'.(before := floor))
  }

  /** The server's answers: which page it shows may depend on the moment as well as on `before`. */
  type Server = (nat, Option<int>) -> Reply

  function Step(serve: Server, k: nat, minId: int, cutoff: int, w: Walk): Outcome {
    match serve(k, w.before)
    case Redirect => Raise(PreviewUnavailable)
    case Failed => Raise(HttpError)
    case Shown(page) => Visit(page, k == 0, minId, cutoff, w)
  }

  datatype Walked = Done(w: Walk) | Raised(e: Error)

  function WalkOn(serve: Server, k: nat, pages: nat, minId: int, cutoff: int, w: Walk): Walked
    decreases pages - k
  {
    if k >= pages then Done(w)
    else
      match Step(serve, k, minId, cutoff, w)
      case Raise(e) => Raised(e)
      case Stop(w') => Done(w')
      case Go(w') => WalkOn(serve, k + 1, pages, minId, cutoff, w')
  }

  // ----- after the loop -----

  function Insert(r: Record, s: seq<Record>): seq<Record> {
    if s == [] || s[0].id < r.id then [r] + s else [s[0]] + Insert(r, s[1..])
  }

  /** `sorted(..., reverse=True)`: newest first, equal numbers in their old order. */
  function NewestFirst(s: seq<Record>): seq<Record> {
    if s == [] then [] else Insert(s[|s| - 1], NewestFirst(s[..|s| - 1]))
  }

  /** `rstrip().endswith("…")`. */
  predicate Clipped(text: string) {
    text != "" && (text[|text| - 1] == '…' || (Text.IsSpace(text[|text| - 1]) && Clipped(text[..|text| - 1])))
  }

  type Pages = Record -> Option<string>

  function Unclip(r: Record, full: Option<string>): Record {
    if full.Some? && |full.value| > |r.text| then r.(text := Cut(full.value)) else r
  }

  /** The full text of clipped posts, for the first `budget` of them. */
  function Resolve(s: seq<Record>, budget: nat, full: Pages): seq<Record> {
    if s == [] then []
    else if budget > 0 && Clipped(s[0].text) then [Unclip(s[0], full(s[0]))] + Resolve(s[1..], budget - 1, full)
    else [s[0]] + Resolve(s[1..], budget, full)
  }

  /** Everything one call depends on besides its cursor. */
  datatype Call = Call(serve: Server, full: Pages, maxPages: Option<int>, now: int)

  function MinId(cursor: Option<nat>): nat { if cursor.Some? then cursor.value else 0 }

  function PageBudget(c: Call, minId: nat): nat {
    var n := if c.maxPages.Some? then c.maxPages.value else if minId == 0 then BACKFILL_PAGES else 1;
    Max(1, n)
  }

  function Cutoff(c: Call, minId: nat): int {
    c.now - DAY * if minId == 0 then BACKFILL_LOOKBACK_DAYS else LOOKBACK_DAYS
  }

  function WalkOf(c: Call, cursor: Option<nat>): Walked {
    var minId := MinId(cursor);
    WalkOn(c.serve, 0, PageBudget(c, minId), minId, Cutoff(c, minId), Walk(None, minId, [], []))
  }

  /** The records and the next cursor, or the exception. */
  datatype Fetched = Fetched(records: seq<Record>, cursor: Option<int>) | Refused(e: Error)

  function FetchOf(c: Call, cursor: Option<nat>): Fetched {
    match WalkOf(c, cursor)
    case Raised(e) => Refused(e)
    case Done(w) =>
      Fetched(Resolve(NewestFirst(w.got), MAX_RESOLVES, c.full), if w.newest != 0 then Some(w.newest) else cursor)
  }

  // ----- the loops -----

  method ParsePage(d: seq<Record>, blocks: seq<Block>, minId: int, cutoff: int) returns (r: seq<Record>)
    ensures r == Collect(d, blocks, minId, cutoff)
  {
    r := d;
    for i := 0 to |blocks|
      invariant r == Collect(d, blocks[..i], minId, cutoff)
    {
      var b := blocks[i];
      assert blocks[..i + 1][..i] == blocks[..i];
      if b.id.None? || b.id.value <= minId { continue; }
      if b.text == "" { continue; }
      if |b.stamps| > 0 && b.stamps[0].Aware? && b.stamps[0].at < cutoff { continue; }
      r := Assign(r, Record(b.id.value, Cut(b.text)));
    }
    assert blocks[..|blocks|] == blocks;
  }

  method PageNumbers(blocks: seq<Block>) returns (ids: seq<int>)
    ensures ids == Numbers(blocks)
  {
    ids := [];
    for i := 0 to |blocks|
      invariant ids == Numbers(blocks[..i])
    {
      assert blocks[..i + 1][..i] == blocks[..i];
      if blocks[i].id.Some? { ids := ids + [blocks[i].id.value]; }
    }
    assert blocks[..|blocks|] == blocks;
  }

  /** The body of the loop once a page is in hand. */
  method ReadPage(page: Page, first: bool, minId: int, cutoff: int, w: Walk) returns (o: Outcome)
    ensures o == Visit(page, first, minId, cutoff, w)
  {
    var ids := PageNumbers(page.blocks);
    var floor := Least(ids);
    if Mixed(Stamps(page)) { return Raise(MixedTimes); }
    if first && floor.None? { return Raise(PreviewUnavailable); }
    var newest := w.newest;
    var top := Greatest(ids);
    if top.Some? && top.value > minId { newest := Max(newest, top.value); }
    var collected := ParsePage(w.got, page.blocks, minId, cutoff);
    var w' := Asking(w).(newest := newest, got := collected);
    if floor.None? || (w.before.Some? && floor.value >= w.before.value) { return Stop(w'); }
    w' := w'.(before := floor);
    o := if PastWindow(Stamps(page), cutoff) then Stop(w') else Go(w');
  }

  /** One fetch, as the loop runs it. */
  method Fetch(c: Call, cursor: Option<nat>) returns (r: Fetched)
    ensures r == FetchOf(c, cursor)
  {
    var minId := MinId(cursor);
    var pages, cutoff := PageBudget(c, minId), Cutoff(c, minId);
    var w := Walk(None, minId, [], []);
    var k, more := 0, true;
    while more && k < pages
      invariant k <= pages
      invariant WalkOf(c, cursor) == if more then WalkOn(c.serve, k, pages, minId, cutoff, w) else Done(w)
      decreases more, pages - k
    {
      var reply := c.serve(k, w.before);
      if reply.Redirect? { return Refused(PreviewUnavailable); }
      if reply.Failed? { return Refused(HttpError); }
      var o := ReadPage(reply.page, k == 0, minId, cutoff, w);
      if o.Raise? { return Refused(o.e); }
      w, more := o.w, o.Go?;
      if more { k := k + 1; }
    }
    r := Fetched(Resolve(NewestFirst(w.got), MAX_RESOLVES, c.full), if w.newest != 0 then Some(w.newest) else cursor);
  }
}
