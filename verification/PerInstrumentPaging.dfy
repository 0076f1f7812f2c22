/** Window fetches for several instruments. One page is then the concatenation of one limited
    request per instrument (`fetch_ohlcv` in crates/bat-markets/src/runtime.rs), cut for each
    instrument on its own, while the loop advances by the latest close, or the earliest open, of all. */
module PerInstrumentPaging {
  import opened Basics
  import opened KlineCalendar
  import opened OhlcvPaging
  import opened OhlcvPagingProperties

  // ----- pages --------------------------------------------------------------------------------

  ghost function HistoryOf(history: set<Candle>, id: string): set<Candle> {
    set c | c in history && c.instrument == id
  }

  /** The page of one instrument: a prefix of its history in the range, for Bybit a suffix. */
  ghost predicate IsCut(back: bool, history: set<Candle>, page: seq<Candle>, s: int, e: int) {
    if back then IsSuffix(history, page, s, e) else IsPrefix(history, page, s, e)
  }

  ghost predicate PageOfEach(q: Request, history: set<Candle>, page: seq<Candle>, s: int, e: int) {
    forall id :: IsCut(q.venue.Bybit?, HistoryOf(history, id), Of(page, id), s, e)
  }

  /** Every request succeeds with such a page; where an instrument's page is cut is left open. */
  ghost predicate PerInstrumentFaithful(q: Request, history: set<Candle>, fetch: Fetch) {
    forall n, s, e :: fetch(n, s, e).Ok? && PageOfEach(q, history, fetch(n, s, e).value, s, e)
  }

  /** One request per instrument, concatenated. */
  function FetchEach(ids: seq<string>, single: string -> seq<Candle>): seq<Candle> {
    if ids == [] then [] else FetchEach(ids[..|ids| - 1], single) + single(ids[|ids| - 1])
  }

  lemma {:induction false} FetchEachElements(ids: seq<string>, single: string -> seq<Candle>, c: Candle)
    ensures c in FetchEach(ids, single) <==> exists id :: id in ids && c in single(id)
  {
    if ids != [] {
      var init, last := ids[..|ids| - 1], ids[|ids| - 1];
      FetchEachElements(init, single, c);
      assert ids == init + [last];
    }
  }

  /** Being a cut depends only on which candles the page holds. */
  lemma CutOfElements(back: bool, history: set<Candle>, a: seq<Candle>, b: seq<Candle>, s: int, e: int)
    requires IsCut(back, history, a, s, e) && forall c :: c in a <==> c in b
    ensures IsCut(back, history, b, s, e)
  {
    if a != [] {
      assert a[0] in b;
    }
    if back {
      var cut :| From(history, a, s, e, cut);
      assert From(history, b, s, e, cut);
    } else {
      var cut :| UpTo(history, a, s, e, cut);
      assert UpTo(history, b, s, e, cut);
    }
  }

  lemma CutInside(back: bool, history: set<Candle>, page: seq<Candle>, s: int, e: int)
    requires IsCut(back, history, page, s, e)
    ensures forall c :: c in page ==> c in history && Within(c, s, e)
  {
  }

  /** The pages that `fetch_ohlcv` puts together are of this kind. */
  lemma FetchEachIsPerInstrument(
    q: Request, history: set<Candle>, single: string -> seq<Candle>, s: int, e: int)
    requires IsHistory(q, history)
    requires forall id :: id in q.ids ==> IsCut(q.venue.Bybit?, HistoryOf(history, id), single(id), s, e)
    ensures PageOfEach(q, history, FetchEach(q.ids, single), s, e)
  {
    var page := FetchEach(q.ids, single);
    forall id, c | id in q.ids && c in single(id) ensures c.instrument == id {
      CutInside(q.venue.Bybit?, HistoryOf(history, id), single(id), s, e);
    }
    forall id ensures IsCut(q.venue.Bybit?, HistoryOf(history, id), Of(page, id), s, e) {
      OfElements(page, id);
      forall c ensures c in Of(page, id) <==> id in q.ids && c in single(id) {
        FetchEachElements(q.ids, single, c);
      }
      if id in q.ids {
        CutOfElements(q.venue.Bybit?, HistoryOf(history, id), single(id), Of(page, id), s, e);
      } else {
        EmptyIsCut(q.venue.Bybit?, HistoryOf(history, id), Of(page, id), s, e);
      }
    }
  }

  lemma EmptyIsCut(back: bool, history: set<Candle>, page: seq<Candle>, s: int, e: int)
    requires (forall c :: c !in page) && forall c :: c in history ==> !Within(c, s, e)
    ensures IsCut(back, history, page, s, e)
  {
    assert UpTo(history, page, s, e, 0) && From(history, page, s, e, 0);
  }

  // ----- the same, candle by candle -----------------------------------------------------------

  /** `d` comes no later than `c` in the direction of paging. */
  predicate NoLater(back: bool, d: Candle, c: Candle) {
    if back then c.openTime <= d.openTime else d.openTime <= c.openTime
  }

  predicate SameNoLater(back: bool, d: Candle, c: Candle) {
    d.instrument == c.instrument && NoLater(back, d, c)
  }

  /** Candles of the range; with one candle every earlier one of its instrument; and something of
      every instrument that has a candle in the range. */
  ghost predicate Cut(back: bool, history: set<Candle>, page: seq<Candle>, s: int, e: int) {
    && (forall c :: c in page ==> c in history && Within(c, s, e))
    && (forall c, d :: c in page && d in history && Within(d, s, e) && SameNoLater(back, d, c) ==> d in page)
    && (forall d :: d in history && Within(d, s, e) ==> Represented(page, d.instrument))
  }

  ghost predicate Represented(page: seq<Candle>, id: string) {
    exists c :: c in page && c.instrument == id
  }

  lemma CutOfOne(back: bool, history: set<Candle>, page: seq<Candle>, s: int, e: int, c: Candle, d: Candle)
    requires IsCut(back, history, page, s, e) && c in page && d in history && Within(d, s, e) && NoLater(back, d, c)
    ensures d in page
  {
    if back {
      var cut :| From(history, page, s, e, cut);
    } else {
      var cut :| UpTo(history, page, s, e, cut);
    }
  }

  lemma CutOfEach(q: Request, history: set<Candle>, page: seq<Candle>, s: int, e: int)
    requires PageOfEach(q, history, page, s, e)
    ensures Cut(q.venue.Bybit?, history, page, s, e)
  {
    var back := q.venue.Bybit?;
    forall id ensures forall c :: c in Of(page, id) <==> c in page && c.instrument == id {
      OfElements(page, id);
    }
    forall c | c in page ensures c in history && Within(c, s, e) {
      assert c in Of(page, c.instrument);
      CutInside(back, HistoryOf(history, c.instrument), Of(page, c.instrument), s, e);
    }
    forall c, d | c in page && d in history && Within(d, s, e) && SameNoLater(back, d, c)
      ensures d in page
    {
      CutOfOne(back, HistoryOf(history, c.instrument), Of(page, c.instrument), s, e, c, d);
    }
    forall d | d in history && Within(d, s, e) ensures Represented(page, d.instrument) {
      var own := Of(page, d.instrument);
      assert IsCut(back, HistoryOf(history, d.instrument), own, s, e);
      assert d in HistoryOf(history, d.instrument);
      assert own[0] in own;
    }
  }

  lemma EachOfCut(q: Request, history: set<Candle>, page: seq<Candle>, s: int, e: int)
    requires Cut(q.venue.Bybit?, history, page, s, e)
    ensures PageOfEach(q, history, page, s, e)
  {
    forall id ensures IsCut(q.venue.Bybit?, HistoryOf(history, id), Of(page, id), s, e) {
      OfElements(page, id);
      var own := Of(page, id);
      if own == [] {
        assert !Represented(page, id);
        EmptyIsCut(q.venue.Bybit?, HistoryOf(history, id), own, s, e);
      } else {
        ClosedIsCut(q.venue.Bybit?, HistoryOf(history, id), own, s, e);
      }
    }
  }

  lemma ClosedIsCut(back: bool, history: set<Candle>, page: seq<Candle>, s: int, e: int)
    requires page != [] && forall c :: c in page ==> c in history && Within(c, s, e)
    requires forall c, d :: c in page && d in history && Within(d, s, e) && NoLater(back, d, c) ==> d in page
    ensures IsCut(back, history, page, s, e)
  {
    assert page[0] in page;
    if back {
      MinOpenIsBound(page, e);
      var low :| low in page && low.openTime == MinOpen(page, e);
      assert From(history, page, s, e, low.openTime);
    } else {
      MaxOpenIsBound(page, s);
      var top :| top in page && top.openTime == MaxOpen(page, s);
      assert UpTo(history, page, s, e, top.openTime);
    }
  }

  // ----- the condition ------------------------------------------------------------------------

  /** A candle that the fetch should return. */
  ghost predicate Shown(q: Request, history: set<Candle>, c: Candle) {
    c in history && InWindow(q, c)
  }

  /** The first candle of its instrument in the window; for backward paging the last. */
  ghost predicate Leads(q: Request, history: set<Candle>, d: Candle) {
    forall x :: Shown(q, history, x) && x.instrument == d.instrument ==> NoLater(q.venue.Bybit?, d, x)
  }

  /** A page that ends at `c` may leave out `d`. */
  ghost predicate MayMiss(q: Request, history: set<Candle>, c: Candle, d: Candle) {
    !Leads(q, history, d) && !SameNoLater(q.venue.Bybit?, d, c)
  }

  /** The loop, having seen `c`, goes on beyond `d`. */
  predicate Passes(q: Request, c: Candle, d: Candle) {
    if q.venue.Bybit? then c.openTime <= d.openTime
    else q.close(c.openTime).None? || d.openTime <= q.close(c.openTime).value
  }

  ghost predicate Separated(q: Request, history: set<Candle>) {
    forall c, d :: Shown(q, history, c) && Shown(q, history, d) && MayMiss(q, history, c, d) ==> !Passes(q, c, d)
  }

  /** Forward paging needs a close time for every candle it may end a page with. */
  ghost predicate AllClose(q: Request, history: set<Candle>) {
    q.venue.Bybit? || forall c :: Shown(q, history, c) ==> q.close(c.openTime).Some?
  }

  /** Forwards: a candle that is not its instrument's first in the window opens after every candle
      of another instrument, and every earlier one of its own, has closed. */
  ghost predicate ForwardApart(q: Request, history: set<Candle>) {
    forall c, d ::
      Shown(q, history, c) && Shown(q, history, d) && !Leads(q, history, d)
      && (c.instrument != d.instrument || c.openTime < d.openTime)
      ==> q.close(c.openTime).Some? && q.close(c.openTime).value < d.openTime
  }

  /** Backwards: no candle opens at or after one of another instrument, unless it is its
      instrument's last in the window. */
  ghost predicate BackwardApart(q: Request, history: set<Candle>) {
    forall c, d ::
      Shown(q, history, c) && Shown(q, history, d) && c.instrument != d.instrument && c.openTime <= d.openTime
      ==> Leads(q, history, d)
  }

  lemma ReadSeparated(q: Request, history: set<Candle>)
    ensures Separated(q, history) <==> if q.venue.Bybit? then BackwardApart(q, history) else ForwardApart(q, history)
  {
  }

  /** Close times of the window's candles are ordered as the candles, and where a candle has one so
      has every earlier candle. */
  ghost predicate ClosesInOrder(q: Request, history: set<Candle>) {
    forall c, d ::
      Shown(q, history, c) && Shown(q, history, d) && c.openTime <= d.openTime && q.close(d.openTime).Some?
      ==> q.close(c.openTime).Some? && q.close(c.openTime).value <= q.close(d.openTime).value
  }

  /** The calendar keeps them so; only a monthly window that begins before the year -9999 may hold
      early candles without a close. */
  lemma CalendarClosesInOrder(
    venue: Venue, ids: seq<string>, interval: KlineInterval, start: int, end: int, history: set<Candle>)
    requires var q := WindowRequest(venue, ids, interval, start, end);
             !interval.Month1? || Opens(YearMonth(MIN_YEAR, January)) <= start
             || AllClose(q.(venue := Binance), history)
    ensures ClosesInOrder(WindowRequest(venue, ids, interval, start, end), history)
  {
    var q := WindowRequest(venue, ids, interval, start, end);
    forall c, d |
      Shown(q, history, c) && Shown(q, history, d) && c.openTime <= d.openTime && q.close(d.openTime).Some?
      ensures q.close(c.openTime).Some? && q.close(c.openTime).value <= q.close(d.openTime).value
    {
      assert Shown(q.(venue := Binance), history, c);
      CloseDefined(interval, c.openTime);
      CloseDefined(interval, d.openTime);
      CloseMonotone(interval, c.openTime, d.openTime);
    }
  }

  // ----- sufficiency --------------------------------------------------------------------------

  /** A candle of the range that the page leaves out is not passed. */
  lemma MissingIsAhead(q: Request, history: set<Candle>, page: seq<Candle>, s: int, e: int, y: Candle, d: Candle)
    requires Separated(q, history) && q.start <= s && e <= q.end && Cut(q.venue.Bybit?, history, page, s, e)
    requires y in page && d in history && Within(d, s, e) && d !in page
    ensures !Passes(q, y, d)
  {
    var x :| x in page && x.instrument == d.instrument;
    assert Shown(q, history, x) && Shown(q, history, y) && Shown(q, history, d);
    assert !NoLater(q.venue.Bybit?, d, x);
    assert MayMiss(q, history, y, d);
  }

  lemma HoldsAfter(history: set<Candle>, a: seq<Candle>, b: seq<Candle>, start: int, s: int, to: int)
    requires start <= s <= to && Holds(history, a, start, s - 1)
    requires forall c :: c in b ==> c in history && Within(c, s, to)
    requires forall c :: c in history && Within(c, s, to) ==> c in b
    ensures Holds(history, a + b, start, to)
  {
  }

  lemma HoldsBefore(history: set<Candle>, a: seq<Candle>, b: seq<Candle>, from: int, e: int, end: int)
    requires from <= e <= end && Holds(history, a, e + 1, end)
    requires forall c :: c in b ==> c in history && Within(c, from, e)
    requires forall c :: c in history && Within(c, from, e) ==> c in b
    ensures Holds(history, a + b, from, end)
  {
  }

  /** What the scan keeps of such a page, and that it holds nothing else. */
  lemma CutIsKept(q: Request, history: set<Candle>, page: seq<Candle>, s: int, e: int)
    requires IsHistory(q, history) && q.start <= s && e <= q.end && Cut(q.venue.Bybit?, history, page, s, e)
    ensures !Foreign(q, page) && (page != [] ==> Kept(q, page) != [])
    ensures forall c :: c in Kept(q, page) <==> c in page
  {
    KeptElements(q, page);
    if page != [] {
      assert page[0] in Kept(q, page);
    }
  }

  lemma EmptyCut(back: bool, history: set<Candle>, s: int, e: int)
    requires Cut(back, history, [], s, e)
    ensures forall c :: c in history ==> !Within(c, s, e)
  {
    forall c | c in history ensures !Within(c, s, e) {
      assert !Represented([], c.instrument);
    }
  }

  lemma ForwardStep(q: Request, history: set<Candle>, cur: Cursor, page: seq<Candle>)
    requires !q.venue.Bybit? && IsHistory(q, history) && ClosesForward(q) && cur.Running? && Progress(q, history, cur)
    requires Separated(q, history) && AllClose(q, history)
    requires Cut(false, history, page, cur.nextStart, cur.nextEnd)
    ensures Progress(q, history, Advance(q, cur, page))
  {
    var s, kept := cur.nextStart, Kept(q, page);
    CutIsKept(q, history, page, s, q.end);
    if page == [] {
      EmptyCut(false, history, s, q.end);
    } else {
      var y := Latest(kept, s);
      assert Shown(q, history, y);
      var close := q.close(y.openTime).value;
      forall d | d in history && Within(d, s, q.end) && d !in page ensures close < d.openTime {
        MissingIsAhead(q, history, page, s, q.end, y, d);
      }
      HoldsAfter(history, cur.candles, kept, q.start, s, if close < q.end then close else q.end);
    }
  }

  lemma Latest(candles: seq<Candle>, least: int) returns (y: Candle)
    requires candles != [] && forall c :: c in candles ==> least <= c.openTime
    ensures y in candles && y.openTime == MaxOpen(candles, least)
    ensures forall c :: c in candles ==> c.openTime <= y.openTime
  {
    MaxOpenIsBound(candles, least);
    assert candles[0] in candles;
    y :| y in candles && y.openTime == MaxOpen(candles, least);
  }

  lemma Earliest(candles: seq<Candle>, most: int) returns (y: Candle)
    requires candles != [] && forall c :: c in candles ==> c.openTime <= most
    ensures y in candles && y.openTime == MinOpen(candles, most)
    ensures forall c :: c in candles ==> y.openTime <= c.openTime
  {
    MinOpenIsBound(candles, most);
    assert candles[0] in candles;
    y :| y in candles && y.openTime == MinOpen(candles, most);
  }

  lemma BackwardStep(q: Request, history: set<Candle>, cur: Cursor, page: seq<Candle>)
    requires q.venue.Bybit? && IsHistory(q, history) && cur.Running? && Progress(q, history, cur)
    requires Separated(q, history) && Cut(true, history, page, cur.nextStart, cur.nextEnd)
    ensures Progress(q, history, Advance(q, cur, page))
  {
    var e, kept := cur.nextEnd, Kept(q, page);
    CutIsKept(q, history, page, q.start, e);
    if page == [] {
      EmptyCut(true, history, q.start, e);
    } else {
      var y := Earliest(kept, MAX_I64);
      forall d | d in history && Within(d, q.start, e) && d !in page ensures d.openTime < y.openTime {
        MissingIsAhead(q, history, page, q.start, e, y, d);
      }
      HoldsBefore(history, cur.candles, kept, y.openTime, e, q.end);
    }
  }

  lemma {:induction false} EachProgress(q: Request, history: set<Candle>, fetch: Fetch, n: nat)
    requires q.start <= q.end && IsHistory(q, history) && ClosesForward(q)
    requires Separated(q, history) && AllClose(q, history) && PerInstrumentFaithful(q, history, fetch)
    ensures Progress(q, history, Iterate(q, fetch, n))
  {
    if n > 0 {
      EachProgress(q, history, fetch, n - 1);
      var cur := Iterate(q, fetch, n - 1);
      if cur.Running? {
        assert fetch(n - 1, cur.nextStart, cur.nextEnd).Ok?;
        var page := fetch(n - 1, cur.nextStart, cur.nextEnd).value;
        CutOfEach(q, history, page, cur.nextStart, cur.nextEnd);
        if q.venue.Bybit? {
          BackwardStep(q, history, cur, page);
        } else {
          ForwardStep(q, history, cur, page);
        }
      }
    }
  }

  lemma EachMoves(q: Request, history: set<Candle>, fetch: Fetch)
    requires PerInstrumentFaithful(q, history, fetch)
    ensures PagesMove(q.start, q.end, fetch)
  {
    forall n, e | q.start <= e <= q.end ensures Moves(q.start, q.end, fetch(n, q.start, e).value, e) {
      var page := fetch(n, q.start, e).value;
      assert PageOfEach(q, history, page, q.start, e);
      CutOfEach(q, history, page, q.start, e);
      if page != [] {
        assert page[0] in page;
      }
    }
  }

  lemma SeparatedIsExact(q: Request, history: set<Candle>, fetch: Fetch)
    requires q.start <= q.end && Distinct(q.ids) && IsHistory(q, history) && ClosesForward(q)
    requires Separated(q, history) && AllClose(q, history) && PerInstrumentFaithful(q, history, fetch)
    ensures FetchesExactly(q, history, fetch)
  {
    EachMoves(q, history, fetch);
    PagingTerminates(q, fetch);
    EachProgress(q, history, fetch, q.end - q.start + 1);
    CompleteIsExact(q, history, Iterate(q, fetch, q.end - q.start + 1).candles);
  }

  // ----- necessity ----------------------------------------------------------------------------

  /** The first candle in the range in the direction of paging. */
  ghost predicate LeadIn(back: bool, history: set<Candle>, x: Candle, s: int, e: int) {
    forall y :: y in history && Within(y, s, e) ==> NoLater(back, x, y)
  }

  lemma {:induction false} SomeLead(back: bool, history: set<Candle>, d: Candle, s: int, e: int) returns (x: Candle)
    requires d in history && Within(d, s, e)
    ensures x in history && Within(x, s, e) && LeadIn(back, history, x, s, e)
    decreases if back then e - d.openTime else d.openTime - s
  {
    if y :| y in history && Within(y, s, e) && !NoLater(back, d, y) {
      x := SomeLead(back, history, y, s, e);
    } else {
      x := d;
    }
  }

  /** What the page holds that ends at `c` for `c`'s instrument, and at once for all others. */
  ghost predicate OnPage(back: bool, history: set<Candle>, c: Candle, s: int, e: int, x: Candle) {
    x in history && Within(x, s, e)
    && (LeadIn(back, HistoryOf(history, x.instrument), x, s, e) || (Within(c, s, e) && SameNoLater(back, x, c)))
  }

  ghost function EndAt(back: bool, history: set<Candle>, c: Candle): Fetch {
    (n, s, e) => Ok(Listed(set x | x in history && OnPage(back, history, c, s, e, x)))
  }

  lemma EndAtIsCut(q: Request, history: set<Candle>, c: Candle, page: seq<Candle>, s: int, e: int)
    requires IsHistory(q, history) && forall x :: x in page <==> OnPage(q.venue.Bybit?, history, c, s, e, x)
    ensures Cut(q.venue.Bybit?, history, page, s, e)
  {
    var back := q.venue.Bybit?;
    forall x, d | x in page && d in history && Within(d, s, e) && SameNoLater(back, d, x) ensures d in page {
      if LeadIn(back, HistoryOf(history, x.instrument), x, s, e) {
        assert d in HistoryOf(history, x.instrument);
        assert d == x;
      }
    }
    forall d | d in history && Within(d, s, e) ensures Represented(page, d.instrument) {
      var x := SomeLead(back, HistoryOf(history, d.instrument), d, s, e);
      assert OnPage(back, history, c, s, e, x);
    }
  }

  lemma EndAtIsFaithful(q: Request, history: set<Candle>, c: Candle)
    requires IsHistory(q, history)
    ensures PerInstrumentFaithful(q, history, EndAt(q.venue.Bybit?, history, c))
  {
    forall n, s, e ensures PageOfEach(q, history, EndAt(q.venue.Bybit?, history, c)(n, s, e).value, s, e) {
      var page := EndAt(q.venue.Bybit?, history, c)(n, s, e).value;
      EndAtIsCut(q, history, c, page, s, e);
      EachOfCut(q, history, page, s, e);
    }
  }

  /** The loop is beyond `d` and has not kept it. */
  predicate Beyond(q: Request, d: Candle, cur: Cursor) {
    match cur
    case Failed(_) => true
    case Done(candles) => d !in candles
    case Running(s, e, candles) => d !in candles && if q.venue.Bybit? then e < d.openTime else d.openTime < s
  }

  /** The first page keeps `c` but not `d`, and passes `d`. */
  lemma FirstPasses(q: Request, history: set<Candle>, c: Candle, d: Candle, page: seq<Candle>)
    requires IsHistory(q, history) && ClosesInOrder(q, history) && Shown(q, history, c)
    requires Cut(q.venue.Bybit?, history, page, q.start, q.end) && c in page && d !in page && Passes(q, c, d)
    ensures Beyond(q, d, Advance(q, Running(q.start, q.end, []), page))
  {
    var kept := Kept(q, page);
    CutIsKept(q, history, page, q.start, q.end);
    if q.venue.Bybit? {
      var y := Earliest(kept, MAX_I64);
      BackwardPasses(q, d, page, y);
    } else {
      var y := Latest(kept, q.start);
      assert Shown(q, history, y) && c.openTime <= y.openTime;
      ForwardPasses(q, d, page, y);
    }
  }

  lemma ForwardPasses(q: Request, d: Candle, page: seq<Candle>, y: Candle)
    requires !q.venue.Bybit? && d !in Kept(q, page) && page != [] && y.openTime == MaxOpen(Kept(q, page), q.start)
    requires Passes(q, y, d)
    ensures Beyond(q, d, Advance(q, Running(q.start, q.end, []), page))
  {
    assert [] + Kept(q, page) == Kept(q, page);
  }

  lemma BackwardPasses(q: Request, d: Candle, page: seq<Candle>, y: Candle)
    requires q.venue.Bybit? && d !in Kept(q, page) && page != [] && y.openTime == MinOpen(Kept(q, page), MAX_I64)
    requires Passes(q, y, d)
    ensures Beyond(q, d, Advance(q, Running(q.start, q.end, []), page))
  {
    assert [] + Kept(q, page) == Kept(q, page);
  }

  /** A page of the rest of the range brings the loop no nearer to `d`. */
  lemma LaterPage(q: Request, cur: Cursor, page: seq<Candle>, d: Candle)
    requires cur.Running? && Beyond(q, d, cur) && ClosesForward(q)
    requires forall x :: x in page ==> Within(x, cur.nextStart, cur.nextEnd)
    ensures Beyond(q, d, Advance(q, cur, page))
  {
    if q.venue.Bybit? {
      var kept := Kept(q, page);
      assert forall x :: x in kept ==> x in page by {
        KeptElements(q, page);
      }
      MinOpenIsBound(kept, MAX_I64);
    } else {
      PageAfter(q, cur, page, d);
    }
  }

  lemma {:induction false} StaysBeyond(q: Request, history: set<Candle>, fetch: Fetch, d: Candle, n: nat)
    requires ClosesForward(q) && PerInstrumentFaithful(q, history, fetch) && n >= 1
    requires Beyond(q, d, Iterate(q, fetch, 1))
    ensures Beyond(q, d, Iterate(q, fetch, n))
  {
    if n > 1 {
      StaysBeyond(q, history, fetch, d, n - 1);
      var cur := Iterate(q, fetch, n - 1);
      if cur.Running? {
        assert fetch(n - 1, cur.nextStart, cur.nextEnd).Ok?;
        var page := fetch(n - 1, cur.nextStart, cur.nextEnd).value;
        CutOfEach(q, history, page, cur.nextStart, cur.nextEnd);
        IterateNext(q, fetch, n - 1, cur);
        LaterPage(q, cur, page, d);
      }
    }
  }

  lemma {:induction false} UnseparatedIsLost(q: Request, history: set<Candle>, c: Candle, d: Candle)
    requires q.start <= q.end && Distinct(q.ids) && IsHistory(q, history) && ClosesForward(q)
    requires ClosesInOrder(q, history) && Shown(q, history, c) && Shown(q, history, d)
    requires MayMiss(q, history, c, d) && Passes(q, c, d)
    ensures var fetch := EndAt(q.venue.Bybit?, history, c);
            PerInstrumentFaithful(q, history, fetch) && !FetchesExactly(q, history, fetch)
  {
    var fetch := EndAt(q.venue.Bybit?, history, c);
    EndAtIsFaithful(q, history, c);
    FirstRequestPasses(q, history, c, d);
    StaysBeyond(q, history, fetch, d, q.end - q.start + 1);
    NeverReturned(q, history, fetch, d);
  }

  lemma {:induction false} FirstRequestPasses(q: Request, history: set<Candle>, c: Candle, d: Candle)
    requires IsHistory(q, history) && ClosesInOrder(q, history) && Shown(q, history, c)
    requires MayMiss(q, history, c, d) && Passes(q, c, d)
    ensures Beyond(q, d, Iterate(q, EndAt(q.venue.Bybit?, history, c), 1))
  {
    var fetch := EndAt(q.venue.Bybit?, history, c);
    var page := fetch(0, q.start, q.end).value;
    EndAtIsCut(q, history, c, page, q.start, q.end);
    assert OnPage(q.venue.Bybit?, history, c, q.start, q.end, c);
    NotOnPage(q, history, c, d);
    FirstPasses(q, history, c, d, page);
    IterateNext(q, fetch, 0, Running(q.start, q.end, []));
  }

  lemma NotOnPage(q: Request, history: set<Candle>, c: Candle, d: Candle)
    requires MayMiss(q, history, c, d)
    ensures !OnPage(q.venue.Bybit?, history, c, q.start, q.end, d)
  {
    var x :| Shown(q, history, x) && x.instrument == d.instrument && !NoLater(q.venue.Bybit?, d, x);
    assert x in HistoryOf(history, d.instrument) && Within(x, q.start, q.end);
  }

  lemma {:induction false} NoCloseFails(q: Request, history: set<Candle>, c: Candle)
    requires !q.venue.Bybit? && q.start <= q.end && IsHistory(q, history) && ClosesInOrder(q, history)
    requires Shown(q, history, c) && q.close(c.openTime).None?
    ensures var fetch := EndAt(false, history, c);
            PerInstrumentFaithful(q, history, fetch) && !FetchesExactly(q, history, fetch)
  {
    var fetch := EndAt(false, history, c);
    EndAtIsFaithful(q, history, c);
    var page := fetch(0, q.start, q.end).value;
    EndAtIsCut(q, history, c, page, q.start, q.end);
    assert OnPage(false, history, c, q.start, q.end, c);
    CutIsKept(q, history, page, q.start, q.end);
    var y := Latest(Kept(q, page), q.start);
    assert Shown(q, history, y) && c.openTime <= y.openTime;
    IterateNext(q, fetch, 0, Running(q.start, q.end, []));
    FailureIsNotExact(q, history, fetch);
  }

  // ----- exactly when -------------------------------------------------------------------------

  /** A window fetch is exact for every environment that cuts pages instrument by instrument exactly
      when the candles of different instruments keep apart in the direction of paging. */
  lemma ExactlyWhenSeparated(q: Request, history: set<Candle>)
    requires q.start <= q.end && Distinct(q.ids) && IsHistory(q, history) && ClosesForward(q)
    requires ClosesInOrder(q, history)
    ensures (forall fetch :: PerInstrumentFaithful(q, history, fetch) ==> FetchesExactly(q, history, fetch))
       <==> if q.venue.Bybit? then BackwardApart(q, history) else ForwardApart(q, history) && AllClose(q, history)
  {
    ReadSeparated(q, history);
    if Separated(q, history) && AllClose(q, history) {
      forall fetch | PerInstrumentFaithful(q, history, fetch) ensures FetchesExactly(q, history, fetch) {
        SeparatedIsExact(q, history, fetch);
      }
    } else if !Separated(q, history) {
      var c, d :| Shown(q, history, c) && Shown(q, history, d) && MayMiss(q, history, c, d) && Passes(q, c, d);
      UnseparatedIsLost(q, history, c, d);
    } else {
      var c :| Shown(q, history, c) && q.close(c.openTime).None?;
      NoCloseFails(q, history, c);
    }
  }

  /** For requests by calendar interval. */
  lemma WindowExactlyWhenSeparated(
    venue: Venue, ids: seq<string>, interval: KlineInterval, start: int, end: int, history: set<Candle>)
    requires var q := WindowRequest(venue, ids, interval, start, end);
             && start <= end && Distinct(ids) && IsHistory(q, history)
             && (!interval.Month1? || Opens(YearMonth(MIN_YEAR, January)) <= start)
    ensures var q := WindowRequest(venue, ids, interval, start, end);
            ((forall fetch :: PerInstrumentFaithful(q, history, fetch) ==> FetchesExactly(q, history, fetch))
             <==> if venue.Bybit? then BackwardApart(q, history) else ForwardApart(q, history) && AllClose(q, history))
  {
    CalendarClosesForward(venue, ids, interval, start, end);
    CalendarClosesInOrder(venue, ids, interval, start, end, history);
    ExactlyWhenSeparated(WindowRequest(venue, ids, interval, start, end), history);
  }

  /** So two instruments with two candles each in the window are never safe, in either direction. */
  lemma TwoSeriesAreLost(q: Request, history: set<Candle>, a: Candle, b: Candle, c: Candle, d: Candle)
    requires q.start <= q.end && Distinct(q.ids) && IsHistory(q, history) && ClosesForward(q)
    requires ClosesInOrder(q, history)
    requires Shown(q, history, a) && Shown(q, history, b) && Shown(q, history, c) && Shown(q, history, d)
    requires a.instrument == b.instrument != c.instrument == d.instrument
    requires a.openTime < b.openTime && c.openTime < d.openTime
    ensures exists fetch :: PerInstrumentFaithful(q, history, fetch) && !FetchesExactly(q, history, fetch)
  {
    ExactlyWhenSeparated(q, history);
    if q.venue.Bybit? {
      assert !Leads(q, history, a) && !Leads(q, history, c);
      assert a.openTime <= c.openTime || c.openTime <= a.openTime;
      assert !BackwardApart(q, history);
    } else {
      assert !Leads(q, history, b) && !Leads(q, history, d);
      assert !ForwardApart(q, history);
    }
  }

  /** One instrument: its candles must not overlap forwards, and backwards nothing is needed. */
  lemma OneInstrumentApart(q: Request, history: set<Candle>, id: string)
    requires forall c :: c in history ==> c.instrument == id
    ensures q.venue.Bybit? ==> BackwardApart(q, history)
    ensures !q.venue.Bybit? ==> (ForwardApart(q, history) && AllClose(q, history) <==> Tiled(q, history))
  {
    if !q.venue.Bybit? {
      if Tiled(q, history) {
        forall c | Shown(q, history, c) ensures Clears(q, history, c) {
        }
      } else {
        var c :| c in history && InWindow(q, c) && !Clears(q, history, c);
        assert Shown(q, history, c);
        if q.close(c.openTime).Some? {
          var d :| d in history && c.openTime < d.openTime <= q.end && d.openTime <= q.close(c.openTime).value;
          assert Shown(q, history, d) && !Leads(q, history, d);
        }
      }
    }
  }

  /** A minute grid shared by both instruments does not help. Forwards, a page with A's minute 0 and
      B's minutes 0 and 1 loses A's minute 1; backwards, one with A's minute 1 and B's minutes 0 and 1
      loses A's minute 0. */
  lemma PerInstrumentPagesLoseCandles(venue: Venue, a: Candle, b: Candle, c: Candle, d: Candle)
    requires a == Candle("A", 0, 0) && b == Candle("A", 60_000, 0)
    requires c == Candle("B", 0, 0) && d == Candle("B", 60_000, 0)
    ensures var q := WindowRequest(venue, ["A", "B"], Minute1, 0, 90_000);
            exists fetch :: PerInstrumentFaithful(q, {a, b, c, d}, fetch) && !FetchesExactly(q, {a, b, c, d}, fetch)
  {
    var q := WindowRequest(venue, ["A", "B"], Minute1, 0, 90_000);
    assert q.ids[0] == "A" && q.ids[1] == "B";
    CalendarClosesForward(venue, ["A", "B"], Minute1, 0, 90_000);
    CalendarClosesInOrder(venue, ["A", "B"], Minute1, 0, 90_000, {a, b, c, d});
    TwoByTwo(q, a, b, c, d);
    TwoSeriesAreLost(q, {a, b, c, d}, a, b, c, d);
  }

  lemma TwoByTwo(q: Request, a: Candle, b: Candle, c: Candle, d: Candle)
    requires a.instrument == b.instrument != c.instrument == d.instrument
    requires a.instrument in q.ids && c.instrument in q.ids
    requires a.openTime < b.openTime < MAX_I64 && c.openTime < d.openTime < MAX_I64
    ensures IsHistory(q, {a, b, c, d})
  {
  }

  // ----- one limit for all --------------------------------------------------------------------

  ghost function Times(history: set<Candle>, s: int, e: int): set<int> {
    set c | c in history && Within(c, s, e) :: c.openTime
  }

  /** How many of the times come before `t` in the direction of paging. */
  ghost function Rank(back: bool, times: set<int>, t: int): nat {
    |set u | u in times && (if back then t < u else u < t)|
  }

  /** The first `limit` candles of every instrument in the range. */
  ghost predicate LimitedPage(q: Request, history: set<Candle>, page: seq<Candle>, s: int, e: int, limit: nat) {
    forall c ::
      c in page <==>
      && c in history && Within(c, s, e)
      && Rank(q.venue.Bybit?, Times(HistoryOf(history, c.instrument), s, e), c.openTime) < limit
  }

  ghost predicate Limited(q: Request, history: set<Candle>, fetch: Fetch, limit: nat) {
    forall n, s, e :: fetch(n, s, e).Ok? && LimitedPage(q, history, fetch(n, s, e).value, s, e, limit)
  }

  /** All requested instruments have candles at the same open times. */
  ghost predicate SameTimes(q: Request, history: set<Candle>) {
    forall c, id :: c in history && id in q.ids ==> HasAt(history, id, c.openTime)
  }

  ghost predicate HasAt(history: set<Candle>, id: string, t: int) {
    exists d :: d in history && d.instrument == id && d.openTime == t
  }

  lemma RankGrows(back: bool, times: set<int>, t: int, u: int)
    requires if back then u <= t else t <= u
    ensures Rank(back, times, t) <= Rank(back, times, u)
  {
    SubsetSize(set x | x in times && (if back then t < x else x < t),
               set x | x in times && (if back then u < x else x < u));
  }

  /** The candles of rank below a positive limit are a cut. */
  lemma RankedIsCut(back: bool, history: set<Candle>, page: seq<Candle>, s: int, e: int, limit: nat)
    requires limit > 0
    requires forall c ::
               c in page <==> c in history && Within(c, s, e) && Rank(back, Times(history, s, e), c.openTime) < limit
    ensures IsCut(back, history, page, s, e)
  {
    var times := Times(history, s, e);
    if d :| d in history && Within(d, s, e) {
      var x := SomeLead(back, history, d, s, e);
      assert (set u | u in times && (if back then x.openTime < u else u < x.openTime)) == {};
      assert x in page;
      forall c, y | c in page && y in history && Within(y, s, e) && NoLater(back, y, c) ensures y in page {
        RankGrows(back, times, y.openTime, c.openTime);
      }
      ClosedIsCut(back, history, page, s, e);
    } else {
      EmptyIsCut(back, history, page, s, e);
    }
  }

  /** Limited requests are cut instrument by instrument ... */
  lemma LimitedIsPerInstrument(q: Request, history: set<Candle>, fetch: Fetch, limit: nat)
    requires limit > 0 && Limited(q, history, fetch, limit)
    ensures PerInstrumentFaithful(q, history, fetch)
  {
    forall n, s, e ensures PageOfEach(q, history, fetch(n, s, e).value, s, e) {
      var page := fetch(n, s, e).value;
      assert LimitedPage(q, history, page, s, e, limit);
      forall id ensures IsCut(q.venue.Bybit?, HistoryOf(history, id), Of(page, id), s, e) {
        OfElements(page, id);
        RankedIsCut(q.venue.Bybit?, HistoryOf(history, id), Of(page, id), s, e, limit);
      }
    }
  }

  /** ... and if all instruments have the same open times, one limit is one common cut. */
  lemma CommonLimitIsFaithful(q: Request, history: set<Candle>, fetch: Fetch, limit: nat)
    requires limit > 0 && IsHistory(q, history) && SameTimes(q, history) && Limited(q, history, fetch, limit)
    ensures Faithful(q, history, fetch)
  {
    forall n, s, e ensures IsCut(q.venue.Bybit?, history, fetch(n, s, e).value, s, e) {
      var page := fetch(n, s, e).value;
      assert LimitedPage(q, history, page, s, e, limit);
      forall c | c in history ensures Times(HistoryOf(history, c.instrument), s, e) == Times(history, s, e) {
        SameTimesOfOne(q, history, c.instrument, s, e);
      }
      RankedIsCut(q.venue.Bybit?, history, page, s, e, limit);
    }
  }

  lemma SameTimesOfOne(q: Request, history: set<Candle>, id: string, s: int, e: int)
    requires SameTimes(q, history) && id in q.ids
    ensures Times(HistoryOf(history, id), s, e) == Times(history, s, e)
  {
    forall t | t in Times(history, s, e) ensures t in Times(HistoryOf(history, id), s, e) {
      var c :| c in history && Within(c, s, e) && c.openTime == t;
      assert HasAt(history, id, t);
      var d :| d in history && d.instrument == id && d.openTime == t;
      assert d in HistoryOf(history, id);
    }
  }

  /** So instruments that trade through the whole window on one grid are fetched exactly. */
  lemma CommonLimitIsExact(q: Request, history: set<Candle>, fetch: Fetch, limit: nat)
    requires q.start <= q.end && Distinct(q.ids) && IsHistory(q, history) && ClosesForward(q)
    requires limit > 0 && SameTimes(q, history) && Limited(q, history, fetch, limit)
    requires q.venue.Bybit? || Tiled(q, history)
    ensures FetchesExactly(q, history, fetch)
  {
    CommonLimitIsFaithful(q, history, fetch, limit);
    PagingIsExact(q, history, fetch);
  }
}
