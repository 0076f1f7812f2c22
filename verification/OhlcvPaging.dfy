/** Windowed candle fetches, page by page (crates/bat-markets/src/facade.rs). Binance and MEXC are
    paged forwards by candle close times, Bybit backwards by candle open times. A page request is a
    call into the environment: `fetch(n, start, end)` is what the `n`-th request returns. */
module OhlcvPaging {
  import opened Basics
  import opened KlineCalendar

  datatype Candle = Candle(instrument: string, openTime: int, data: int)

  datatype FetchError = ConfigError | Unsupported | UnexpectedInstrument | NoCloseTime | Remote | Panic

  type Fetch = (nat, int, int) -> Result<seq<Candle>, FetchError>

  /** `close` gives the close time of a candle from its open time, when there is one. */
  datatype Request = Request(venue: Venue, ids: seq<string>, close: int -> Option<int>, start: int, end: int)

  function WindowRequest(venue: Venue, ids: seq<string>, interval: KlineInterval, start: int, end: int): Request {
    Request(venue, ids, t => CloseTime(interval, t), start, end)
  }

  /** A candle does not close before it opens; so much of the calendar termination needs. */
  ghost predicate ClosesForward(q: Request) {
    forall t :: q.close(t).Some? ==> t <= q.close(t).value
  }

  lemma CalendarClosesForward(venue: Venue, ids: seq<string>, interval: KlineInterval, start: int, end: int)
    ensures ClosesForward(WindowRequest(venue, ids, interval, start, end))
  {
    forall t | CloseTime(interval, t).Some? ensures t <= CloseTime(interval, t).value {
      CloseMonotone(interval, t, t);
    }
  }

  const MAX_INSTRUMENTS := 30
  const MAX_I64 := 0x7fff_ffff_ffff_ffff

  // ----- one page -----------------------------------------------------------------------------

  predicate InWindow(q: Request, c: Candle) {
    q.start <= c.openTime <= q.end
  }

  /** The candles of a page that open inside the window, in page order. */
  function Kept(q: Request, page: seq<Candle>): seq<Candle> {
    if page == [] then []
    else
      Kept(q, page[..|page| - 1]) + (if InWindow(q, page[|page| - 1]) then [page[|page| - 1]] else [])
  }

  predicate Foreign(q: Request, page: seq<Candle>) {
    exists c :: c in page && InWindow(q, c) && c.instrument !in q.ids
  }

  function MaxOpen(candles: seq<Candle>, least: int): int {
    if candles == [] then least
    else
      var m, t := MaxOpen(candles[..|candles| - 1], least), candles[|candles| - 1].openTime;
      if m < t then t else m
  }

  function MinOpen(candles: seq<Candle>, most: int): int {
    if candles == [] then most
    else
      var m, t := MinOpen(candles[..|candles| - 1], most), candles[|candles| - 1].openTime;
      if t < m then t else m
  }

  /** The fetched in-window candles so far, in arrival order, and the window still to fetch. */
  datatype Cursor =
    | Running(nextStart: int, nextEnd: int, candles: seq<Candle>)
    | Done(candles: seq<Candle>)
    | Failed(error: FetchError)

  function Advance(q: Request, cur: Cursor, page: seq<Candle>): Cursor
    requires cur.Running?
  {
    var kept := Kept(q, page);
    var all := cur.candles + kept;
    if page == [] then Done(cur.candles)
    else if Foreign(q, page) then Failed(UnexpectedInstrument)
    else if q.venue.Bybit? then
      var lo := MinOpen(kept, MAX_I64);
      if lo <= q.start || lo == MAX_I64 then Done(all) else Running(cur.nextStart, lo - 1, all)
    else
      match q.close(MaxOpen(kept, cur.nextStart))
      case None => Failed(NoCloseTime)
      case Some(close) => if close >= q.end then Done(all) else Running(close + 1, cur.nextEnd, all)
  }

  /** What the `n`-th request makes of a running cursor. */
  function AfterRequest(q: Request, fetch: Fetch, n: nat, cur: Cursor): Cursor
    requires cur.Running?
  {
    match fetch(n, cur.nextStart, cur.nextEnd)
    case Err(error) => Failed(error)
    case Ok(page) => Advance(q, cur, page)
  }

  /** The loop after `n` page requests. */
  function Iterate(q: Request, fetch: Fetch, n: nat): Cursor {
    if n == 0 then Running(q.start, q.end, [])
    else
      var cur := Iterate(q, fetch, n - 1);
      if !cur.Running? then cur
      else AfterRequest(q, fetch, n - 1, cur)
  }

  // ----- grouping, sorting, deduplicating -----------------------------------------------------

  function Of(candles: seq<Candle>, id: string): seq<Candle> {
    if candles == [] then []
    else
      Of(candles[..|candles| - 1], id)
      + (if candles[|candles| - 1].instrument == id then [candles[|candles| - 1]] else [])
  }

  /** A stable insertion: after every candle that opens no later. */
  function Insert(s: seq<Candle>, c: Candle): seq<Candle> {
    if s == [] || s[|s| - 1].openTime <= c.openTime then s + [c]
    else Insert(s[..|s| - 1], c) + [s[|s| - 1]]
  }

  /** `sort_by_key`, which is stable. */
  function SortByOpen(s: seq<Candle>): seq<Candle> {
    if s == [] then [] else Insert(SortByOpen(s[..|s| - 1]), s[|s| - 1])
  }

  /** `dedup_by_key`: of adjacent candles with one open time the first stays. */
  function DedupByOpen(s: seq<Candle>): seq<Candle> {
    if s == [] then []
    else
      DedupByOpen(s[..|s| - 1])
      + (if |s| > 1 && s[|s| - 2].openTime == s[|s| - 1].openTime then [] else [s[|s| - 1]])
  }

  function Series(candles: seq<Candle>, id: string): seq<Candle> {
    DedupByOpen(SortByOpen(Of(candles, id)))
  }

  function Concatenated(ids: seq<string>, candles: seq<Candle>): seq<Candle> {
    if ids == [] then [] else Concatenated(ids[..|ids| - 1], candles) + Series(candles, ids[|ids| - 1])
  }

  predicate Distinct(ids: seq<string>) {
    forall i, j :: 0 <= i < j < |ids| ==> ids[i] != ids[j]
  }

  function Finish(q: Request, cur: Cursor): Result<seq<Candle>, FetchError>
    requires !cur.Running?
  {
    match cur
    case Failed(error) => Err(error)
    case Done(candles) => if Distinct(q.ids) then Ok(Concatenated(q.ids, candles)) else Err(Panic)
  }

  // ----- termination --------------------------------------------------------------------------

  /** The page holds a candle of the window that opens no later than `e`. */
  ghost predicate Reaches(start: int, end: int, page: seq<Candle>, e: int) {
    exists c :: c in page && start <= c.openTime <= end && c.openTime <= e
  }

  /** A page that reaches its requested end, or holds nothing of the window and so ends the loop. */
  ghost predicate Moves(start: int, end: int, page: seq<Candle>, e: int) {
    Reaches(start, end, page, e) || forall c :: c in page ==> !(start <= c.openTime <= end)
  }

  /** So are the pages of every request that backward paging of this window can make. */
  ghost predicate PagesMove(start: int, end: int, fetch: Fetch) {
    forall n, e :: start <= e <= end && fetch(n, start, e).Ok? ==> Moves(start, end, fetch(n, start, e).value, e)
  }

  lemma {:induction false} MaxOpenIsBound(candles: seq<Candle>, least: int)
    ensures least <= MaxOpen(candles, least)
    ensures forall c :: c in candles ==> c.openTime <= MaxOpen(candles, least)
    ensures MaxOpen(candles, least) == least || exists c :: c in candles && c.openTime == MaxOpen(candles, least)
  {
    if candles != [] {
      MaxOpenIsBound(candles[..|candles| - 1], least);
      assert candles == candles[..|candles| - 1] + [candles[|candles| - 1]];
    }
  }

  lemma {:induction false} MinOpenIsBound(candles: seq<Candle>, most: int)
    ensures MinOpen(candles, most) <= most
    ensures forall c :: c in candles ==> MinOpen(candles, most) <= c.openTime
    ensures MinOpen(candles, most) == most || exists c :: c in candles && c.openTime == MinOpen(candles, most)
  {
    if candles != [] {
      MinOpenIsBound(candles[..|candles| - 1], most);
      assert candles == candles[..|candles| - 1] + [candles[|candles| - 1]];
    }
  }

  lemma {:induction false} KeptElements(q: Request, page: seq<Candle>)
    ensures forall c :: c in Kept(q, page) <==> c in page && InWindow(q, c)
  {
    if page != [] {
      KeptElements(q, page[..|page| - 1]);
      assert page == page[..|page| - 1] + [page[|page| - 1]];
    }
  }

  lemma KeptSnoc(q: Request, page: seq<Candle>, c: Candle)
    ensures Kept(q, page + [c]) == if InWindow(q, c) then Kept(q, page) + [c] else Kept(q, page)
  {
    assert (page + [c])[..|page|] == page;
  }

  lemma MaxOpenSnoc(s: seq<Candle>, c: Candle, least: int)
    ensures MaxOpen(s + [c], least) == if MaxOpen(s, least) < c.openTime then c.openTime else MaxOpen(s, least)
  {
    assert (s + [c])[..|s|] == s;
  }

  lemma MinOpenSnoc(s: seq<Candle>, c: Candle, most: int)
    ensures MinOpen(s + [c], most) == if c.openTime < MinOpen(s, most) then c.openTime else MinOpen(s, most)
  {
    assert (s + [c])[..|s|] == s;
  }

  /** One more page moves the cursor: forwards whatever the page holds, backwards exactly when the
      page reaches the requested end. */
  lemma AdvanceMoves(q: Request, cur: Cursor, page: seq<Candle>)
    requires cur.Running? && Advance(q, cur, page).Running? && ClosesForward(q)
    ensures var next := Advance(q, cur, page);
            if q.venue.Bybit? then
              && next.nextStart == cur.nextStart && q.start <= next.nextEnd < q.end
              && (next.nextEnd < cur.nextEnd <==> Reaches(q.start, q.end, page, cur.nextEnd))
            else next.nextEnd == cur.nextEnd && cur.nextStart < next.nextStart <= q.end
  {
    if q.venue.Bybit? {
      BackwardMoves(q, cur, page);
    } else {
      MaxOpenIsBound(Kept(q, page), cur.nextStart);
    }
  }

  lemma BackwardMoves(q: Request, cur: Cursor, page: seq<Candle>)
    requires q.venue.Bybit? && cur.Running? && Advance(q, cur, page).Running?
    ensures var next := Advance(q, cur, page);
            && next.nextStart == cur.nextStart && q.start <= next.nextEnd < q.end
            && (next.nextEnd < cur.nextEnd <==> Reaches(q.start, q.end, page, cur.nextEnd))
            && exists c :: c in page && InWindow(q, c)
  {
    var kept := Kept(q, page);
    KeptElements(q, page);
    MinOpenIsBound(kept, MAX_I64);
    var low :| low in kept && low.openTime == MinOpen(kept, MAX_I64);
    assert InWindow(q, low);
  }

  /** Paging terminates, within `end - start + 1` requests. */
  lemma {:induction false} IterateMoves(q: Request, fetch: Fetch, n: nat)
    requires q.start <= q.end && ClosesForward(q) && (q.venue.Bybit? ==> PagesMove(q.start, q.end, fetch))
    requires Iterate(q, fetch, n).Running?
    ensures var cur := Iterate(q, fetch, n);
            if q.venue.Bybit? then cur.nextStart == q.start && q.start <= cur.nextEnd <= q.end - n
            else cur.nextEnd == q.end && q.start + n <= cur.nextStart <= q.end
    ensures n <= q.end - q.start
  {
    if n > 0 {
      IterateMoves(q, fetch, n - 1);
      var cur := Iterate(q, fetch, n - 1);
      var page := fetch(n - 1, cur.nextStart, cur.nextEnd).value;
      AdvanceMoves(q, cur, page);
      if q.venue.Bybit? {
        BackwardMoves(q, cur, page);
        assert Moves(q.start, q.end, page, cur.nextEnd);
      }
    }
  }

  lemma PagingTerminates(q: Request, fetch: Fetch)
    requires q.start <= q.end && ClosesForward(q) && (q.venue.Bybit? ==> PagesMove(q.start, q.end, fetch))
    ensures !Iterate(q, fetch, q.end - q.start + 1).Running?
  {
    if Iterate(q, fetch, q.end - q.start + 1).Running? {
      IterateMoves(q, fetch, q.end - q.start + 1);
      assert false;
    }
  }

  /** Requested instruments only, something of the window, and nothing of it up to `bound`. */
  ghost predicate Stubborn(q: Request, page: seq<Candle>, bound: int) {
    && !Foreign(q, page)
    && (exists c :: c in page && InWindow(q, c))
    && (forall c :: c in page && InWindow(q, c) ==> bound < c.openTime)
  }

  /** Pages that never move the cursor keep backward paging going for ever. (The first request ends
      at the window's end, so it always moves; there the page only must not reach the start.) */
  lemma {:induction false} StubbornPagesNeverEnd(q: Request, fetch: Fetch, n: nat)
    requires q.venue.Bybit? && q.start < q.end < MAX_I64
    requires forall k, e :: q.start <= e <= q.end ==>
               fetch(k, q.start, e).Ok? && Stubborn(q, fetch(k, q.start, e).value, if e < q.end then e else q.start)
    ensures Iterate(q, fetch, n).Running?
    ensures var cur := Iterate(q, fetch, n); cur.nextStart == q.start && q.start <= cur.nextEnd <= q.end
  {
    if n > 0 {
      StubbornPagesNeverEnd(q, fetch, n - 1);
      var cur := Iterate(q, fetch, n - 1);
      StubbornPageContinues(q, cur, fetch(n - 1, cur.nextStart, cur.nextEnd).value);
    }
  }

  lemma StubbornPageContinues(q: Request, cur: Cursor, page: seq<Candle>)
    requires q.venue.Bybit? && q.end < MAX_I64 && cur.Running? && Stubborn(q, page, q.start)
    ensures var next := Advance(q, cur, page);
            next.Running? && next.nextStart == cur.nextStart && q.start <= next.nextEnd <= q.end
  {
    var kept := Kept(q, page);
    assert forall c :: c in kept <==> c in page && InWindow(q, c) by {
      KeptElements(q, page);
    }
    MinOpenIsBound(kept, MAX_I64);
    var c :| c in page && InWindow(q, c);
    assert c in kept;
  }

  /** Such an environment: a page that always holds one candle at the end of the window. */
  lemma StubbornPageNeverEnds(q: Request, id: string, n: nat)
    requires q.venue.Bybit? && q.start < q.end < MAX_I64 && id in q.ids
    ensures Iterate(q, (_, _, _) => Ok([Candle(id, q.end, 0)]), n).Running?
  {
    var page := [Candle(id, q.end, 0)];
    assert page[0] in page && InWindow(q, page[0]);
    assert forall bound :: bound < q.end ==> Stubborn(q, page, bound);
    StubbornPagesNeverEnd(q, (_, _, _) => Ok(page), n);
  }

  /** Once the loop has ended it stays as it is, so its result does not depend on `n`. */
  lemma {:induction false} IterateStable(q: Request, fetch: Fetch, m: nat, n: nat)
    requires m <= n && !Iterate(q, fetch, m).Running?
    ensures Iterate(q, fetch, n) == Iterate(q, fetch, m)
  {
    if m < n {
      IterateStable(q, fetch, m, n - 1);
    }
  }

  // ----- errors -------------------------------------------------------------------------------

  /** A failed request ends the fetch with its error ... */
  lemma {:induction false} RemoteErrorEnds(q: Request, fetch: Fetch, n: nat, m: nat, error: FetchError)
    requires n < m && Iterate(q, fetch, n).Running?
    requires var cur := Iterate(q, fetch, n); fetch(n, cur.nextStart, cur.nextEnd) == Err(error)
    ensures Iterate(q, fetch, m) == Failed(error)
    ensures Finish(q, Iterate(q, fetch, m)) == Err(error)
  {
    assert Iterate(q, fetch, n + 1) == Failed(error);
    IterateStable(q, fetch, n + 1, m);
  }

  /** ... and so does a page with a candle of the window for an instrument that was not requested. */
  lemma {:induction false} ForeignCandleEnds(q: Request, fetch: Fetch, n: nat, m: nat, page: seq<Candle>, c: Candle)
    requires n < m && Iterate(q, fetch, n).Running?
    requires var cur := Iterate(q, fetch, n); fetch(n, cur.nextStart, cur.nextEnd) == Ok(page)
    requires c in page && q.start <= c.openTime <= q.end && c.instrument !in q.ids
    ensures Iterate(q, fetch, m) == Failed(UnexpectedInstrument)
    ensures Finish(q, Iterate(q, fetch, m)) == Err(UnexpectedInstrument)
  {
    assert InWindow(q, c);
    assert Foreign(q, page);
    assert Iterate(q, fetch, n + 1) == Failed(UnexpectedInstrument);
    IterateStable(q, fetch, n + 1, m);
  }

  // ----- the method ---------------------------------------------------------------------------

  ghost predicate Grouped(ids: seq<string>, groups: map<string, seq<Candle>>, candles: seq<Candle>) {
    && (forall id :: id in groups <==> id in ids)
    && (forall id :: id in groups ==> groups[id] == Of(candles, id))
  }

  lemma GroupedPush(ids: seq<string>, groups: map<string, seq<Candle>>, candles: seq<Candle>, c: Candle)
    requires Grouped(ids, groups, candles) && c.instrument in groups
    ensures Grouped(ids, groups[c.instrument := groups[c.instrument] + [c]], candles + [c])
  {
    assert (candles + [c])[..|candles|] == candles;
  }

  /** The scan after the candles of `page`. */
  ghost predicate Scanned(
    q: Request, nextStart: int, page: seq<Candle>, candles: seq<Candle>,
    groups: map<string, seq<Candle>>, maxOpen: int, minOpen: int)
  {
    && !Foreign(q, page)
    && Grouped(q.ids, groups, candles + Kept(q, page))
    && maxOpen == MaxOpen(Kept(q, page), nextStart)
    && minOpen == MinOpen(Kept(q, page), MAX_I64)
  }

  lemma ScanStart(q: Request, nextStart: int, candles: seq<Candle>, groups: map<string, seq<Candle>>)
    requires Grouped(q.ids, groups, candles)
    ensures Scanned(q, nextStart, [], candles, groups, nextStart, MAX_I64)
  {
    assert candles + Kept(q, []) == candles;
  }

  lemma ScanOutside(
    q: Request, nextStart: int, page: seq<Candle>, candles: seq<Candle>,
    groups: map<string, seq<Candle>>, maxOpen: int, minOpen: int, c: Candle)
    requires Scanned(q, nextStart, page, candles, groups, maxOpen, minOpen) && !InWindow(q, c)
    ensures Scanned(q, nextStart, page + [c], candles, groups, maxOpen, minOpen)
  {
    KeptSnoc(q, page, c);
  }

  lemma ScanInside(
    q: Request, nextStart: int, page: seq<Candle>, candles: seq<Candle>,
    groups: map<string, seq<Candle>>, maxOpen: int, minOpen: int, c: Candle)
    requires Scanned(q, nextStart, page, candles, groups, maxOpen, minOpen) && InWindow(q, c) && c.instrument in groups
    ensures Scanned(q, nextStart, page + [c], candles, groups[c.instrument := groups[c.instrument] + [c]],
                    if maxOpen < c.openTime then c.openTime else maxOpen,
                    if c.openTime < minOpen then c.openTime else minOpen)
  {
    var kept := Kept(q, page);
    KeptSnoc(q, page, c);
    MaxOpenSnoc(kept, c, nextStart);
    MinOpenSnoc(kept, c, MAX_I64);
    GroupedPush(q.ids, groups, candles + kept, c);
    assert candles + (kept + [c]) == candles + kept + [c];
  }

  method ScanPage(
    q: Request, nextStart: int, page: seq<Candle>, groups: map<string, seq<Candle>>, ghost candles: seq<Candle>)
    returns (groups': map<string, seq<Candle>>, maxOpen: int, minOpen: int, foreign: bool)
    requires Grouped(q.ids, groups, candles)
    ensures foreign == Foreign(q, page)
    ensures !foreign ==> Scanned(q, nextStart, page, candles, groups', maxOpen, minOpen)
  {
    groups', maxOpen, minOpen := groups, nextStart, MAX_I64;
    ScanStart(q, nextStart, candles, groups);
    for i := 0 to |page|
      invariant Scanned(q, nextStart, page[..i], candles, groups', maxOpen, minOpen)
    {
      var candle := page[i];
      assert page[..i + 1] == page[..i] + [candle];
      if !InWindow(q, candle) {
        ScanOutside(q, nextStart, page[..i], candles, groups', maxOpen, minOpen, candle);
        continue;
      }
      if candle.instrument !in groups' {
        assert candle in page && candle.instrument !in q.ids;
        return groups', maxOpen, minOpen, true;
      }
      ScanInside(q, nextStart, page[..i], candles, groups', maxOpen, minOpen, candle);
      maxOpen := if maxOpen < candle.openTime then candle.openTime else maxOpen;
      minOpen := if candle.openTime < minOpen then candle.openTime else minOpen;
      groups' := groups'[candle.instrument := groups'[candle.instrument] + [candle]];
    }
    assert page[..|page|] == page;
    foreign := false;
  }

  /** The groups left when those of `done` have been taken. */
  ghost predicate Remaining(
    ids: seq<string>, done: seq<string>, rest: map<string, seq<Candle>>, candles: seq<Candle>)
  {
    && Distinct(done)
    && (forall id :: id in rest <==> id in ids && id !in done)
    && (forall id :: id in rest ==> rest[id] == Of(candles, id))
  }

  lemma TakeGroup(
    ids: seq<string>, done: seq<string>, rest: map<string, seq<Candle>>, candles: seq<Candle>, id: string)
    requires Remaining(ids, done, rest, candles) && id in rest
    ensures Remaining(ids, done + [id], rest - {id}, candles)
  {
  }

  lemma RepeatedId(ids: seq<string>, i: nat)
    requires i < |ids| && ids[i] in ids[..i]
    ensures !Distinct(ids)
  {
  }

  method FlattenGroups(ids: seq<string>, groups: map<string, seq<Candle>>, ghost candles: seq<Candle>)
    returns (r: Result<seq<Candle>, FetchError>)
    requires Grouped(ids, groups, candles)
    ensures r == if Distinct(ids) then Ok(Concatenated(ids, candles)) else Err(Panic)
  {
    var flattened, rest := [], groups;
    for i := 0 to |ids|
      invariant Remaining(ids, ids[..i], rest, candles)
      invariant flattened == Concatenated(ids[..i], candles)
    {
      var id := ids[i];
      if id !in rest {
        RepeatedId(ids, i);
        return Err(Panic);
      }
      var series := DedupByOpen(SortByOpen(rest[id]));
      assert series == Series(candles, id);
      ConcatenatedSnoc(ids[..i], id, candles);
      TakeGroup(ids, ids[..i], rest, candles, id);
      assert ids[..i + 1] == ids[..i] + [id];
      flattened := flattened + series;
      rest := rest - {id};
    }
    assert ids[..|ids|] == ids;
    return Ok(flattened);
  }

  lemma ConcatenatedSnoc(ids: seq<string>, id: string, candles: seq<Candle>)
    ensures Concatenated(ids + [id], candles) == Concatenated(ids, candles) + Series(candles, id)
  {
    assert (ids + [id])[..|ids|] == ids;
  }

  datatype PageResult = Continue | Finished | Error(error: FetchError)

  method TakePage(
    q: Request, nextStart: int, nextEnd: int, page: seq<Candle>,
    groups: map<string, seq<Candle>>, ghost candles: seq<Candle>)
    returns (result: PageResult, nextStart': int, nextEnd': int, groups': map<string, seq<Candle>>)
    requires Grouped(q.ids, groups, candles)
    ensures match Advance(q, Running(nextStart, nextEnd, candles), page)
            case Running(s, e, all) =>
              result.Continue? && s == nextStart' && e == nextEnd' && Grouped(q.ids, groups', all)
            case Done(all) => result.Finished? && Grouped(q.ids, groups', all)
            case Failed(error) => result == Error(error)
  {
    result, nextStart', nextEnd', groups' := Finished, nextStart, nextEnd, groups;
    if page == [] {
      return;
    }
    var maxOpen, minOpen, foreign;
    groups', maxOpen, minOpen, foreign := ScanPage(q, nextStart, page, groups, candles);
    if foreign {
      result := Error(UnexpectedInstrument);
    } else if q.venue.Bybit? {
      if minOpen <= q.start || minOpen == MAX_I64 {
        return;
      }
      result, nextEnd' := Continue, minOpen - 1;
    } else {
      var close := q.close(maxOpen);
      if close.None? {
        result := Error(NoCloseTime);
      } else if close.value < q.end {
        result, nextStart' := Continue, close.value + 1;
      }
    }
  }

  method FetchOhlcvWindow(
    venue: Venue, ids: seq<string>, interval: Option<KlineInterval>, start: Option<int>, end: Option<int>, fetch: Fetch)
    returns (r: Result<seq<Candle>, FetchError>)
    requires venue.Bybit? && start.Some? && end.Some? ==> PagesMove(start.value, end.value, fetch)
    ensures r == (
      if ids == [] then Err(ConfigError)
      else if |ids| > MAX_INSTRUMENTS then Err(Unsupported)
      else if start.None? || end.None? || end.value < start.value then Err(ConfigError)
      else if interval.None? then Err(Unsupported)
      else
        var q := WindowRequest(venue, ids, interval.value, start.value, end.value);
        CalendarClosesForward(venue, ids, interval.value, start.value, end.value);
        PagingTerminates(q, fetch);
        Finish(q, Iterate(q, fetch, q.end - q.start + 1)))
  {
    if ids == [] {
      return Err(ConfigError);
    }
    if |ids| > MAX_INSTRUMENTS {
      return Err(Unsupported);
    }
    if start.None? || end.None? {
      return Err(ConfigError);
    }
    if end.value < start.value {
      return Err(ConfigError);
    }
    if interval.None? {
      return Err(Unsupported);
    }
    var q := WindowRequest(venue, ids, interval.value, start.value, end.value);
    CalendarClosesForward(venue, ids, interval.value, start.value, end.value);
    r := FetchPages(q, fetch);
  }

  lemma IterateNext(q: Request, fetch: Fetch, n: nat, cur: Cursor)
    requires Iterate(q, fetch, n) == cur && cur.Running?
    ensures Iterate(q, fetch, n + 1) == AfterRequest(q, fetch, n, cur)
  {
  }

  /** A loop that has ended by `bound` has run on only before it, and ended with its last cursor. */
  lemma {:induction false} LastCursor(q: Request, fetch: Fetch, n: nat, bound: nat)
    requires !Iterate(q, fetch, bound).Running?
    ensures if Iterate(q, fetch, n).Running? then n < bound else Iterate(q, fetch, bound) == Iterate(q, fetch, n)
  {
    if bound <= n {
      IterateStable(q, fetch, bound, n);
    } else if !Iterate(q, fetch, n).Running? {
      IterateStable(q, fetch, n, bound);
    }
  }

  method FetchPages(q: Request, fetch: Fetch) returns (r: Result<seq<Candle>, FetchError>)
    requires q.start <= q.end && ClosesForward(q) && (q.venue.Bybit? ==> PagesMove(q.start, q.end, fetch))
    ensures !Iterate(q, fetch, q.end - q.start + 1).Running?
    ensures r == Finish(q, Iterate(q, fetch, q.end - q.start + 1))
  {
    PagingTerminates(q, fetch);
    r := PageLoop(q, fetch, q.end - q.start + 1);
  }

  /** The loop, wherever it ends. */
  method PageLoop(q: Request, fetch: Fetch, ghost bound: nat) returns (r: Result<seq<Candle>, FetchError>)
    requires !Iterate(q, fetch, bound).Running?
    ensures r == Finish(q, Iterate(q, fetch, bound))
  {
    var groups: map<string, seq<Candle>> := map id | id in q.ids :: [];
    var nextStart, nextEnd, n := q.start, q.end, 0;
    ghost var candles: seq<Candle> := [];
    LastCursor(q, fetch, 0, bound);
    while true
      invariant Iterate(q, fetch, n) == Running(nextStart, nextEnd, candles)
      invariant Grouped(q.ids, groups, candles)
      invariant n < bound
      decreases bound - n
    {
      var response := fetch(n, nextStart, nextEnd);
      ghost var next := AfterRequest(q, fetch, n, Running(nextStart, nextEnd, candles));
      IterateNext(q, fetch, n, Running(nextStart, nextEnd, candles));
      n := n + 1;
      LastCursor(q, fetch, n, bound);
      if response.Err? {
        return Err(response.error);
      }
      var result;
      result, nextStart, nextEnd, groups := TakePage(q, nextStart, nextEnd, response.value, groups, candles);
      match result {
        case Continue =>
          candles := next.candles;
        case Finished =>
          r := FlattenGroups(q.ids, groups, next.candles);
          return;
        case Error(error) =>
          return Err(error);
      }
    }
  }
}
