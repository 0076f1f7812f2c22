/** What a window fetch returns: its shape for arbitrary pages, and exactly the history inside the
    window when the pages are faithful. */
module OhlcvPagingProperties {
  import opened Basics
  import opened OhlcvPaging
  import opened KlineCalendar

  // ----- sorting and deduplication ------------------------------------------------------------

  function AtOpen(s: seq<Candle>, t: int): seq<Candle> {
    if s == [] then []
    else AtOpen(s[..|s| - 1], t) + (if s[|s| - 1].openTime == t then [s[|s| - 1]] else [])
  }

  lemma AtOpenSnoc(s: seq<Candle>, c: Candle, t: int)
    ensures AtOpen(s + [c], t) == AtOpen(s, t) + (if c.openTime == t then [c] else [])
  {
    assert (s + [c])[..|s|] == s;
  }

  lemma {:induction false} AtOpenElements(s: seq<Candle>, t: int)
    ensures forall c :: c in AtOpen(s, t) <==> c in s && c.openTime == t
  {
    if s != [] {
      AtOpenElements(s[..|s| - 1], t);
      assert s == s[..|s| - 1] + [s[|s| - 1]];
    }
  }

  predicate Sorted(s: seq<Candle>) {
    forall i, j :: 0 <= i < j < |s| ==> s[i].openTime <= s[j].openTime
  }

  predicate Increasing(s: seq<Candle>) {
    forall i, j :: 0 <= i < j < |s| ==> s[i].openTime < s[j].openTime
  }

  lemma {:induction false} InsertSorts(s: seq<Candle>, c: Candle)
    requires Sorted(s)
    ensures Sorted(Insert(s, c))
    ensures forall x :: x in Insert(s, c) <==> x in s || x == c
  {
    if s != [] && s[|s| - 1].openTime > c.openTime {
      var init := s[..|s| - 1];
      InsertSorts(init, c);
      assert s == init + [s[|s| - 1]];
      assert forall x :: x in Insert(init, c) ==> x.openTime <= s[|s| - 1].openTime;
    }
  }

  lemma {:induction false} InsertIsStable(s: seq<Candle>, c: Candle, t: int)
    ensures AtOpen(Insert(s, c), t) == AtOpen(s + [c], t)
  {
    if s != [] && s[|s| - 1].openTime > c.openTime {
      var init, last := s[..|s| - 1], s[|s| - 1];
      InsertIsStable(init, c, t);
      AtOpenSnoc(Insert(init, c), last, t);
      AtOpenSwap(init, last, c, t);
      assert s == init + [last];
    }
  }

  lemma AtOpenSwap(s: seq<Candle>, c: Candle, d: Candle, t: int)
    requires c.openTime != d.openTime
    ensures AtOpen(s + [c] + [d], t) == AtOpen(s + [d], t) + (if c.openTime == t then [c] else [])
  {
    AtOpenSnoc(s + [c], d, t);
    AtOpenSnoc(s, c, t);
    AtOpenSnoc(s, d, t);
  }

  lemma {:induction false} SortSorts(s: seq<Candle>)
    ensures Sorted(SortByOpen(s))
  {
    if s != [] {
      SortSorts(s[..|s| - 1]);
      InsertSorts(SortByOpen(s[..|s| - 1]), s[|s| - 1]);
    }
  }

  /** The sort is a stable reordering. */
  lemma {:induction false} SortIsStable(s: seq<Candle>, t: int)
    ensures Sorted(SortByOpen(s))
    ensures AtOpen(SortByOpen(s), t) == AtOpen(s, t)
  {
    SortSorts(s);
    if s != [] {
      var init, last := s[..|s| - 1], s[|s| - 1];
      SortIsStable(init, t);
      InsertIsStable(SortByOpen(init), last, t);
      AtOpenSnoc(SortByOpen(init), last, t);
    }
  }

  lemma {:induction false} DedupIncreases(s: seq<Candle>)
    requires Sorted(s)
    ensures Increasing(DedupByOpen(s))
    ensures s != [] ==> DedupByOpen(s) != [] && DedupByOpen(s)[|DedupByOpen(s)| - 1].openTime == s[|s| - 1].openTime
  {
    if s != [] {
      DedupIncreases(s[..|s| - 1]);
    }
  }

  lemma LastIsLatest(s: seq<Candle>, t: int)
    requires Sorted(s) && s != [] && s[|s| - 1].openTime <= t
    ensures AtOpen(s, t) != [] <==> s[|s| - 1].openTime == t
  {
    AtOpenElements(s, t);
    assert s[|s| - 1] in s;
  }

  lemma DedupSnoc(s: seq<Candle>, c: Candle)
    requires s != []
    ensures DedupByOpen(s + [c]) == DedupByOpen(s) + (if s[|s| - 1].openTime == c.openTime then [] else [c])
  {
    assert (s + [c])[..|s|] == s;
  }

  lemma SortedInit(s: seq<Candle>)
    requires Sorted(s) && |s| > 1
    ensures Sorted(s[..|s| - 1]) && s[|s| - 2].openTime <= s[|s| - 1].openTime
  {
  }

  /** Of the candles with one open time, deduplication keeps the first. */
  lemma {:induction false} DedupKeepsFirst(s: seq<Candle>, c: Candle)
    requires Sorted(s)
    ensures c in DedupByOpen(s) <==> AtOpen(s, c.openTime) != [] && AtOpen(s, c.openTime)[0] == c
  {
    if |s| > 1 {
      var init, last := s[..|s| - 1], s[|s| - 1];
      SortedInit(s);
      DedupKeepsFirst(init, c);
      LastIsLatest(init, last.openTime);
      DedupSnoc(init, last);
      AtOpenSnoc(init, last, c.openTime);
      assert s == init + [last];
    }
  }

  /** `c` is the first candle of its instrument and open time to arrive. */
  ghost predicate FirstArrival(candles: seq<Candle>, c: Candle) {
    exists i :: FirstAt(candles, c, i)
  }

  ghost predicate FirstAt(candles: seq<Candle>, c: Candle, i: int) {
    0 <= i < |candles| && candles[i] == c && NoneLike(candles[..i], c)
  }

  ghost predicate NoneLike(candles: seq<Candle>, c: Candle) {
    forall d :: d in candles ==> !(d.instrument == c.instrument && d.openTime == c.openTime)
  }

  lemma FirstArrivalSnoc(init: seq<Candle>, last: Candle, c: Candle)
    ensures FirstArrival(init + [last], c) <==> FirstArrival(init, c) || (last == c && NoneLike(init, c))
  {
    var all := init + [last];
    assert all[..|init|] == init;
    if FirstArrival(init, c) {
      var i :| FirstAt(init, c, i);
      assert all[..i] == init[..i];
      assert FirstAt(all, c, i);
    } else if last == c && NoneLike(init, c) {
      assert FirstAt(all, c, |init|);
    } else if FirstArrival(all, c) {
      var i :| FirstAt(all, c, i);
      if i < |init| {
        assert all[..i] == init[..i];
        assert FirstAt(init, c, i);
      }
    }
  }

  /** The arrivals like `c`, in arrival order. */
  function Group(candles: seq<Candle>, c: Candle): seq<Candle> {
    AtOpen(Of(candles, c.instrument), c.openTime)
  }

  lemma GroupSnoc(init: seq<Candle>, last: Candle, c: Candle)
    ensures Group(init + [last], c)
         == Group(init, c) + (if last.instrument == c.instrument && last.openTime == c.openTime then [last] else [])
  {
    assert (init + [last])[..|init|] == init;
    AtOpenSnoc(Of(init, c.instrument), last, c.openTime);
    assert Of(init, c.instrument) + [] == Of(init, c.instrument);
  }

  lemma {:induction false} FirstOfGroup(candles: seq<Candle>, c: Candle)
    ensures FirstArrival(candles, c) <==> Group(candles, c) != [] && Group(candles, c)[0] == c
  {
    if candles != [] {
      var init, last := candles[..|candles| - 1], candles[|candles| - 1];
      assert candles == init + [last];
      FirstOfGroup(init, c);
      FirstArrivalSnoc(init, last, c);
      GroupSnoc(init, last, c);
      EmptyGroup(init, c);
    }
  }

  lemma EmptyGroup(candles: seq<Candle>, c: Candle)
    ensures Group(candles, c) == [] <==> NoneLike(candles, c)
  {
    var group := Group(candles, c);
    OfElements(candles, c.instrument);
    AtOpenElements(Of(candles, c.instrument), c.openTime);
    assert group != [] ==> group[0] in group;
  }

  lemma {:induction false} OfElements(candles: seq<Candle>, id: string)
    ensures forall c :: c in Of(candles, id) <==> c in candles && c.instrument == id
  {
    if candles != [] {
      OfElements(candles[..|candles| - 1], id);
      assert candles == candles[..|candles| - 1] + [candles[|candles| - 1]];
    }
  }

  /** The series of an instrument: strictly increasing open times, first arrivals only, all of them. */
  lemma SeriesIsExact(candles: seq<Candle>, id: string, c: Candle)
    ensures Increasing(Series(candles, id))
    ensures c in Series(candles, id) <==> c.instrument == id && FirstArrival(candles, c)
  {
    var group := Of(candles, id);
    SortIsStable(group, c.openTime);
    DedupIncreases(SortByOpen(group));
    DedupKeepsFirst(SortByOpen(group), c);
    AtOpenElements(group, c.openTime);
    OfElements(candles, id);
    FirstOfGroup(candles, c);
  }

  // ----- the shape of the output --------------------------------------------------------------

  /** Grouped in request order, strictly increasing inside a group. */
  ghost predicate Before(ids: seq<string>, c: Candle, d: Candle) {
    || (c.instrument == d.instrument && c.openTime < d.openTime)
    || (c.instrument != d.instrument
        && exists i, j :: 0 <= i < j < |ids| && ids[i] == c.instrument && ids[j] == d.instrument)
  }

  ghost predicate InOrder(ids: seq<string>, out: seq<Candle>) {
    forall i, j :: 0 <= i < j < |out| ==> Before(ids, out[i], out[j])
  }

  /** For arbitrary pages: the output is in request order and, inside an instrument, in strictly
      increasing open time; and it holds exactly the first arrivals of the requested instruments. */
  lemma {:induction false} OutputShape(ids: seq<string>, candles: seq<Candle>, c: Candle)
    requires Distinct(ids)
    ensures InOrder(ids, Concatenated(ids, candles))
    ensures c in Concatenated(ids, candles) <==> c.instrument in ids && FirstArrival(candles, c)
  {
    if ids != [] {
      var init, last := ids[..|ids| - 1], ids[|ids| - 1];
      OutputShape(init, candles, c);
      SeriesIsExact(candles, last, c);
      assert ids == init + [last];
      InOrderAppend(init, last, candles);
    }
  }

  lemma {:induction false} ConcatenatedInstruments(ids: seq<string>, candles: seq<Candle>)
    ensures forall x :: x in Concatenated(ids, candles) ==> x.instrument in ids
  {
    if ids != [] {
      ConcatenatedInstruments(ids[..|ids| - 1], candles);
      forall x | x in Series(candles, ids[|ids| - 1]) ensures x.instrument == ids[|ids| - 1] {
        SeriesIsExact(candles, ids[|ids| - 1], x);
      }
    }
  }

  lemma InOrderAppend(init: seq<string>, last: string, candles: seq<Candle>)
    requires InOrder(init, Concatenated(init, candles)) && last !in init
    ensures InOrder(init + [last], Concatenated(init, candles) + Series(candles, last))
  {
    var a, b, ids := Concatenated(init, candles), Series(candles, last), init + [last];
    ConcatenatedInstruments(init, candles);
    forall x | x in b ensures x.instrument == last {
      SeriesIsExact(candles, last, x);
    }
    SeriesIsExact(candles, last, Candle(last, 0, 0));
    forall i, j | 0 <= i < j < |a + b| ensures Before(ids, (a + b)[i], (a + b)[j]) {
      if j < |a| {
        BeforeWidens(init, last, a[i], a[j]);
      } else if i < |a| {
        assert a[i].instrument in init && b[j - |a|].instrument == last;
        var k :| 0 <= k < |init| && init[k] == a[i].instrument;
        assert ids[k] == a[i].instrument && ids[|init|] == last;
      } else {
        assert b[i - |a|] in b && b[j - |a|] in b;
      }
    }
  }

  lemma BeforeWidens(init: seq<string>, last: string, c: Candle, d: Candle)
    requires Before(init, c, d)
    ensures Before(init + [last], c, d)
  {
    if c.instrument != d.instrument {
      var i, j :| 0 <= i < j < |init| && init[i] == c.instrument && init[j] == d.instrument;
      assert (init + [last])[i] == c.instrument && (init + [last])[j] == d.instrument;
    }
  }

  // ----- exactness ----------------------------------------------------------------------------

  /** The candle history of the requested instruments: one candle per instrument and open time. */
  ghost predicate IsHistory(q: Request, history: set<Candle>) {
    && (forall c :: c in history ==> c.instrument in q.ids && c.openTime < MAX_I64)
    && (forall c, d ::
          c in history && d in history && c.instrument == d.instrument && c.openTime == d.openTime ==> c == d)
  }

  /** The candle has a close time, and no later candle of the window opens before it. */
  ghost predicate Clears(q: Request, history: set<Candle>, c: Candle) {
    && q.close(c.openTime).Some?
    && forall d :: d in history && c.openTime < d.openTime <= q.end ==> q.close(c.openTime).value < d.openTime
  }

  /** Inside the window every candle has closed before a later one opens. For one instrument this
      says that its candles do not overlap; for several, that they share a grid. */
  ghost predicate Tiled(q: Request, history: set<Candle>) {
    forall c :: c in history && InWindow(q, c) ==> Clears(q, history, c)
  }

  predicate Within(c: Candle, s: int, e: int) {
    s <= c.openTime <= e
  }

  ghost predicate UpTo(history: set<Candle>, page: seq<Candle>, s: int, e: int, cut: int) {
    forall c :: c in page <==> c in history && Within(c, s, e) && c.openTime <= cut
  }

  ghost predicate From(history: set<Candle>, page: seq<Candle>, s: int, e: int, cut: int) {
    forall c :: c in page <==> c in history && Within(c, s, e) && cut <= c.openTime
  }

  /** The page holds the requested range up to some cut, and something unless the range is empty. */
  ghost predicate IsPrefix(history: set<Candle>, page: seq<Candle>, s: int, e: int) {
    && (exists cut :: UpTo(history, page, s, e, cut))
    && (page == [] ==> forall c :: c in history ==> !Within(c, s, e))
  }

  /** The page holds the requested range from some cut on, and something unless the range is empty. */
  ghost predicate IsSuffix(history: set<Candle>, page: seq<Candle>, s: int, e: int) {
    && (exists cut :: From(history, page, s, e, cut))
    && (page == [] ==> forall c :: c in history ==> !Within(c, s, e))
  }

  ghost predicate Faithful(q: Request, history: set<Candle>, fetch: Fetch) {
    forall n, s, e ::
      && fetch(n, s, e).Ok?
      && (if q.venue.Bybit? then IsSuffix(history, fetch(n, s, e).value, s, e)
          else IsPrefix(history, fetch(n, s, e).value, s, e))
  }

  ghost predicate Holds(history: set<Candle>, candles: seq<Candle>, s: int, e: int) {
    forall c :: c in candles <==> c in history && Within(c, s, e)
  }

  /** Where the loop stands after some pages: everything up to (Bybit: after) the cursor is fetched. */
  ghost predicate Progress(q: Request, history: set<Candle>, cur: Cursor) {
    match cur
    case Running(s, e, candles) =>
      if q.venue.Bybit? then s == q.start && s <= e <= q.end && Holds(history, candles, e + 1, q.end)
      else e == q.end && q.start <= s <= e && Holds(history, candles, q.start, s - 1)
    case Done(candles) => Holds(history, candles, q.start, q.end)
    case Failed(_) => false
  }

  lemma KeptIsPage(q: Request, history: set<Candle>, page: seq<Candle>, s: int, e: int)
    requires IsHistory(q, history) && q.start <= s && e <= q.end
    requires forall c :: c in page ==> c in history && Within(c, s, e)
    ensures !Foreign(q, page)
    ensures forall c :: c in Kept(q, page) <==> c in page
    ensures page != [] ==> Kept(q, page) != []
    ensures IsPrefix(history, page, s, e) ==> IsPrefix(history, Kept(q, page), s, e)
    ensures IsSuffix(history, page, s, e) ==> IsSuffix(history, Kept(q, page), s, e)
  {
    KeptElements(q, page);
    if page != [] {
      assert page[0] in Kept(q, page);
    }
    if cut :| UpTo(history, page, s, e, cut) {
      assert UpTo(history, Kept(q, page), s, e, cut);
    }
    if cut :| From(history, page, s, e, cut) {
      assert From(history, Kept(q, page), s, e, cut);
    }
  }

  lemma ForwardProgress(q: Request, history: set<Candle>, cur: Cursor, page: seq<Candle>)
    requires !q.venue.Bybit? && IsHistory(q, history) && Tiled(q, history) && ClosesForward(q)
             && cur.Running? && Progress(q, history, cur)
    requires IsPrefix(history, page, cur.nextStart, cur.nextEnd)
    ensures Progress(q, history, Advance(q, cur, page))
  {
    KeptIsPage(q, history, page, cur.nextStart, cur.nextEnd);
    if page != [] {
      var kept, hi := Kept(q, page), MaxOpen(Kept(q, page), cur.nextStart);
      PrefixCut(q, history, kept, cur.nextStart);
      var close := q.close(hi).value;
      ExtendHolds(history, cur.candles, kept, q.start, cur.nextStart, hi, if close < q.end then close else q.end);
    }
  }

  lemma ExtendHolds(history: set<Candle>, a: seq<Candle>, b: seq<Candle>, start: int, s: int, hi: int, to: int)
    requires start <= s <= hi <= to && Holds(history, a, start, s - 1)
    requires forall c :: c in b <==> c in history && Within(c, s, hi)
    requires forall c :: c in history && hi < c.openTime ==> to < c.openTime
    ensures Holds(history, a + b, start, to)
  {
  }

  /** A non-empty prefix holds everything up to its latest open time, which belongs to a candle. */
  lemma PrefixCut(q: Request, history: set<Candle>, kept: seq<Candle>, s: int)
    requires Tiled(q, history) && ClosesForward(q) && IsPrefix(history, kept, s, q.end) && kept != [] && q.start <= s
    ensures var hi := MaxOpen(kept, s);
            && s <= hi <= q.end
            && (forall c :: c in kept <==> c in history && Within(c, s, hi))
            && q.close(hi).Some?
            && hi <= q.close(hi).value
            && forall c :: c in history && hi < c.openTime ==> q.end < c.openTime || q.close(hi).value < c.openTime
  {
    var hi := MaxOpen(kept, s);
    MaxOpenIsBound(kept, s);
    assert kept[0] in kept;
    var top :| top in kept && top.openTime == hi;
    var cut :| UpTo(history, kept, s, q.end, cut);
    assert Clears(q, history, top);
  }

  lemma BackwardProgress(q: Request, history: set<Candle>, cur: Cursor, page: seq<Candle>)
    requires q.venue.Bybit? && IsHistory(q, history) && cur.Running? && Progress(q, history, cur)
    requires IsSuffix(history, page, cur.nextStart, cur.nextEnd)
    ensures Progress(q, history, Advance(q, cur, page))
  {
    KeptIsPage(q, history, page, cur.nextStart, cur.nextEnd);
    if page != [] {
      var kept, lo := Kept(q, page), MinOpen(Kept(q, page), MAX_I64);
      SuffixCut(q, history, kept, cur.nextStart, cur.nextEnd);
      assert Holds(history, cur.candles + kept, lo, q.end);
    }
  }

  lemma SuffixCut(q: Request, history: set<Candle>, kept: seq<Candle>, s: int, e: int)
    requires IsHistory(q, history) && IsSuffix(history, kept, s, e) && kept != []
    ensures var lo := MinOpen(kept, MAX_I64);
            s <= lo <= e && lo < MAX_I64 && forall c :: c in kept <==> c in history && Within(c, lo, e)
  {
    var lo := MinOpen(kept, MAX_I64);
    MinOpenIsBound(kept, MAX_I64);
    assert kept[0] in kept;
    var low :| low in kept && low.openTime == lo;
    var cut :| From(history, kept, s, e, cut);
  }

  lemma {:induction false} IterateProgress(q: Request, history: set<Candle>, fetch: Fetch, n: nat)
    requires q.start <= q.end && IsHistory(q, history) && ClosesForward(q) && Faithful(q, history, fetch)
    requires q.venue.Bybit? || Tiled(q, history)
    ensures Progress(q, history, Iterate(q, fetch, n))
  {
    if n > 0 {
      IterateProgress(q, history, fetch, n - 1);
      var cur := Iterate(q, fetch, n - 1);
      if cur.Running? {
        assert fetch(n - 1, cur.nextStart, cur.nextEnd).Ok?;
        if q.venue.Bybit? {
          BackwardProgress(q, history, cur, fetch(n - 1, cur.nextStart, cur.nextEnd).value);
        } else {
          ForwardProgress(q, history, cur, fetch(n - 1, cur.nextStart, cur.nextEnd).value);
        }
      }
    }
  }

  lemma FaithfulMoves(q: Request, history: set<Candle>, fetch: Fetch)
    requires Faithful(q, history, fetch)
    ensures PagesMove(q.start, q.end, fetch)
  {
    forall n, e | q.start <= e <= q.end ensures Moves(q.start, q.end, fetch(n, q.start, e).value, e) {
      var page := fetch(n, q.start, e).value;
      assert IsSuffix(history, page, q.start, e) || IsPrefix(history, page, q.start, e);
      if page != [] {
        assert page[0] in page;
      }
    }
  }

  /** A result that is, in request and time order, exactly the history inside the window. */
  ghost predicate ExactWindow(q: Request, history: set<Candle>, out: seq<Candle>) {
    InOrder(q.ids, out) && forall c :: c in out <==> c in history && InWindow(q, c)
  }

  /** The fetch ends, succeeds and returns exactly the window. */
  ghost predicate FetchesExactly(q: Request, history: set<Candle>, fetch: Fetch)
    requires q.start <= q.end
  {
    var last := Iterate(q, fetch, q.end - q.start + 1);
    !last.Running? && Finish(q, last).Ok? && ExactWindow(q, history, Finish(q, last).value)
  }

  /** Paging is exact: with faithful pages, forwards or backwards and whatever the page sizes, a
      window fetch returns exactly the candles that open inside the window, in order, once each. */
  lemma PagingIsExact(q: Request, history: set<Candle>, fetch: Fetch)
    requires q.start <= q.end && Distinct(q.ids) && IsHistory(q, history) && ClosesForward(q)
    requires Faithful(q, history, fetch) && (q.venue.Bybit? || Tiled(q, history))
    ensures FetchesExactly(q, history, fetch)
  {
    FaithfulMoves(q, history, fetch);
    PagingTerminates(q, fetch);
    IterateProgress(q, history, fetch, q.end - q.start + 1);
    CompleteIsExact(q, history, Iterate(q, fetch, q.end - q.start + 1).candles);
  }

  lemma CompleteIsExact(q: Request, history: set<Candle>, candles: seq<Candle>)
    requires Distinct(q.ids) && IsHistory(q, history) && Holds(history, candles, q.start, q.end)
    ensures ExactWindow(q, history, Concatenated(q.ids, candles))
  {
    OutputShape(q.ids, candles, Candle("", 0, 0));
    forall c ensures c in Concatenated(q.ids, candles) <==> c in history && InWindow(q, c) {
      OutputShape(q.ids, candles, c);
      if c in history && InWindow(q, c) {
        UniqueArrivesFirst(q, history, candles, c);
      }
    }
  }

  lemma UniqueArrivesFirst(q: Request, history: set<Candle>, candles: seq<Candle>, c: Candle)
    requires IsHistory(q, history) && c in candles && forall d :: d in candles ==> d in history
    ensures FirstArrival(candles, c)
  {
    var k :| 0 <= k < |candles| && candles[k] == c;
    var i := FirstIndex(candles, c, k);
    forall d | d in candles[..i] ensures !(d.instrument == c.instrument && d.openTime == c.openTime) {
      assert d in candles;
    }
    assert FirstAt(candles, c, i);
  }

  lemma {:induction false} FirstIndex(candles: seq<Candle>, c: Candle, k: nat) returns (i: nat)
    requires k < |candles| && candles[k] == c
    ensures i <= k && candles[i] == c && forall j :: 0 <= j < i ==> candles[j] != c
  {
    if j :| 0 <= j < k && candles[j] == c {
      i := FirstIndex(candles, c, j);
    } else {
      i := k;
    }
  }

  /** The exact window is unique, so forward and backward paging of one history agree. */
  lemma ForwardAgreesWithBackward(q: Request, p: Request, history: set<Candle>, forward: Fetch, backward: Fetch)
    requires p == q.(venue := Bybit) && !q.venue.Bybit?
    requires q.start <= q.end && Distinct(q.ids) && IsHistory(q, history) && Tiled(q, history) && ClosesForward(q)
    requires Faithful(q, history, forward) && Faithful(p, history, backward)
    ensures !Iterate(q, forward, q.end - q.start + 1).Running? && !Iterate(p, backward, p.end - p.start + 1).Running?
    ensures Finish(q, Iterate(q, forward, q.end - q.start + 1)) == Finish(p, Iterate(p, backward, p.end - p.start + 1))
  {
    PagingIsExact(q, history, forward);
    PagingIsExact(p, history, backward);
    ExactWindowUnique(q, p, history,
                      Finish(q, Iterate(q, forward, q.end - q.start + 1)).value,
                      Finish(p, Iterate(p, backward, p.end - p.start + 1)).value);
  }

  lemma ExactWindowUnique(q: Request, p: Request, history: set<Candle>, a: seq<Candle>, b: seq<Candle>)
    requires q.ids == p.ids && q.start == p.start && q.end == p.end && Distinct(q.ids)
    requires ExactWindow(q, history, a) && ExactWindow(p, history, b)
    ensures a == b
  {
    assert forall c :: InWindow(q, c) <==> InWindow(p, c);
    InOrderUnique(q.ids, a, b);
  }

  lemma BeforeIrreflexive(ids: seq<string>, c: Candle, d: Candle)
    requires Distinct(ids) && Before(ids, c, d)
    ensures !Before(ids, d, c) && c != d
  {
  }

  lemma {:induction false} InOrderUnique(ids: seq<string>, a: seq<Candle>, b: seq<Candle>)
    requires Distinct(ids) && InOrder(ids, a) && InOrder(ids, b)
    requires forall c :: c in a <==> c in b
    ensures a == b
  {
    if a == [] {
      if b != [] {
        HasMember(b);
        assert false;
      }
    } else {
      assert a[0] in b;
      assert b[0] in a;
      if a[0] != b[0] {
        assert Before(ids, a[0], b[0]) && Before(ids, b[0], a[0]);
        BeforeIrreflexive(ids, a[0], b[0]);
        assert false;
      }
      TailElements(ids, a);
      TailElements(ids, b);
      InOrderUnique(ids, a[1..], b[1..]);
      assert a == [a[0]] + a[1..] && b == [b[0]] + b[1..];
    }
  }

  lemma HasMember(s: seq<Candle>)
    requires s != []
    ensures exists c :: c in s
  {
    assert s[0] in s;
  }

  lemma TailElements(ids: seq<string>, s: seq<Candle>)
    requires Distinct(ids) && InOrder(ids, s) && s != []
    ensures forall c :: c in s[1..] <==> c in s && c != s[0]
  {
    forall c | c in s[1..] ensures c != s[0] {
      var i :| 1 <= i < |s| && s[i] == c;
      BeforeIrreflexive(ids, s[0], s[i]);
    }
    forall c | c in s && c != s[0] ensures c in s[1..] {
      var i :| 0 <= i < |s| && s[i] == c;
      assert s[1..][i - 1] == c;
    }
  }

  // ----- when forward paging is not exact -----------------------------------------------------

  ghost function Listed(candles: set<Candle>): (r: seq<Candle>)
    ensures forall c :: c in r <==> c in candles
  {
    if candles == {} then []
    else
      var c :| c in candles;
      Listed(candles - {c}) + [c]
  }

  /** The faithful environment whose pages end at `c` whenever the range reaches `c`. */
  ghost function CutAt(history: set<Candle>, c: Candle): Fetch {
    (n, s, e) => Ok(Listed(set x | x in history && Within(x, s, e) && (Within(c, s, e) ==> x.openTime <= c.openTime)))
  }

  lemma CutAtIsFaithful(q: Request, history: set<Candle>, c: Candle)
    requires !q.venue.Bybit? && c in history
    ensures Faithful(q, history, CutAt(history, c))
  {
    forall n, s, e ensures IsPrefix(history, CutAt(history, c)(n, s, e).value, s, e) {
      var page := CutAt(history, c)(n, s, e).value;
      assert UpTo(history, page, s, e, if Within(c, s, e) then c.openTime else e);
      if page == [] {
        assert forall x ::
          x in history && Within(x, s, e) && (Within(c, s, e) ==> x.openTime <= c.openTime) ==> x in page;
        assert c !in page;
      }
    }
  }

  /** A page that ends at `c`: the loop takes nothing after `c` and continues after `c`'s close. */
  ghost predicate CutAfter(q: Request, c: Candle, cur: Cursor) {
    match cur
    case Failed(_) => true
    case Done(candles) => q.close(c.openTime).Some? && forall x :: x in candles ==> x.openTime <= c.openTime
    case Running(s, _, candles) =>
      q.close(c.openTime) == Some(s - 1) && forall x :: x in candles ==> x.openTime <= c.openTime
  }

  lemma FirstPage(q: Request, page: seq<Candle>, c: Candle)
    requires !q.venue.Bybit? && c in page && InWindow(q, c)
    requires forall x :: x in page ==> x.openTime <= c.openTime
    ensures CutAfter(q, c, Advance(q, Running(q.start, q.end, []), page))
  {
    var kept := Kept(q, page);
    assert c in kept && forall x :: x in kept ==> x.openTime <= c.openTime by {
      KeptElements(q, page);
    }
    LatestOpen(kept, c, q.start);
    assert [] + kept == kept;
  }

  lemma LatestOpen(candles: seq<Candle>, c: Candle, least: int)
    requires c in candles && least <= c.openTime && forall x :: x in candles ==> x.openTime <= c.openTime
    ensures MaxOpen(candles, least) == c.openTime
  {
    MaxOpenIsBound(candles, least);
  }

  lemma {:induction false} FirstCut(q: Request, history: set<Candle>, c: Candle)
    requires !q.venue.Bybit? && c in history && InWindow(q, c)
    ensures CutAfter(q, c, Iterate(q, CutAt(history, c), 1))
  {
    var fetch := CutAt(history, c);
    var page := fetch(0, q.start, q.end).value;
    assert c in page;
    FirstPage(q, page, c);
    IterateNext(q, fetch, 0, Running(q.start, q.end, []));
  }

  /** A candle that the cursor has passed is never fetched. */
  lemma {:induction false} PassedIsLost(q: Request, history: set<Candle>, c: Candle, d: Candle, n: nat)
    requires !q.venue.Bybit? && IsHistory(q, history) && ClosesForward(q) && c in history && InWindow(q, c)
    requires c.openTime < d.openTime && q.close(c.openTime).Some? && d.openTime <= q.close(c.openTime).value
    requires n >= 1
    ensures match Iterate(q, CutAt(history, c), n)
            case Failed(_) => true
            case Done(candles) => d !in candles
            case Running(s, _, candles) => d !in candles && d.openTime < s
  {
    if n == 1 {
      FirstCut(q, history, c);
    } else {
      PassedIsLost(q, history, c, d, n - 1);
      var fetch := CutAt(history, c);
      var cur := Iterate(q, fetch, n - 1);
      if cur.Running? {
        IterateNext(q, fetch, n - 1, cur);
        PageAfter(q, cur, fetch(n - 1, cur.nextStart, cur.nextEnd).value, d);
      }
    }
  }

  lemma PageAfter(q: Request, cur: Cursor, page: seq<Candle>, d: Candle)
    requires !q.venue.Bybit? && ClosesForward(q) && cur.Running? && d !in cur.candles && d.openTime < cur.nextStart
    requires forall x :: x in page ==> cur.nextStart <= x.openTime
    ensures match Advance(q, cur, page)
            case Failed(_) => true
            case Done(candles) => d !in candles
            case Running(s, _, candles) => d !in candles && d.openTime < s
  {
    var kept := Kept(q, page);
    assert d !in kept by {
      KeptElements(q, page);
    }
    assert cur.nextStart <= MaxOpen(kept, cur.nextStart) by {
      MaxOpenIsBound(kept, cur.nextStart);
    }
  }

  /** Forward paging goes wrong on every history that is not tiled inside the window ... */
  lemma {:induction false} UntiledIsLost(q: Request, history: set<Candle>, c: Candle)
    requires !q.venue.Bybit? && q.start <= q.end && Distinct(q.ids) && IsHistory(q, history) && ClosesForward(q)
    requires c in history && InWindow(q, c) && !Clears(q, history, c)
    ensures Faithful(q, history, CutAt(history, c)) && !FetchesExactly(q, history, CutAt(history, c))
  {
    CutAtIsFaithful(q, history, c);
    FirstCut(q, history, c);
    if q.close(c.openTime).None? {
      FailureIsNotExact(q, history, CutAt(history, c));
    } else {
      var d :| d in history && c.openTime < d.openTime <= q.end && d.openTime <= q.close(c.openTime).value;
      PassedIsLost(q, history, c, d, q.end - q.start + 1);
      NeverReturned(q, history, CutAt(history, c), d);
    }
  }

  lemma {:induction false} FailureIsNotExact(q: Request, history: set<Candle>, fetch: Fetch)
    requires q.start <= q.end && Iterate(q, fetch, 1).Failed?
    ensures !FetchesExactly(q, history, fetch)
  {
    IterateStable(q, fetch, 1, q.end - q.start + 1);
  }

  lemma NeverReturned(q: Request, history: set<Candle>, fetch: Fetch, d: Candle)
    requires q.start <= q.end && Distinct(q.ids) && d in history && InWindow(q, d)
    requires Iterate(q, fetch, q.end - q.start + 1).Done? ==> d !in Iterate(q, fetch, q.end - q.start + 1).candles
    ensures !FetchesExactly(q, history, fetch)
  {
    var last := Iterate(q, fetch, q.end - q.start + 1);
    if last.Done? {
      OutputShape(q.ids, last.candles, d);
    }
  }

  /** ... so it is exact for every faithful environment exactly when the history is tiled, while
      backward paging always is. */
  lemma ExactlyWhenTiled(q: Request, history: set<Candle>)
    requires q.start <= q.end && Distinct(q.ids) && IsHistory(q, history) && ClosesForward(q)
    ensures (forall fetch :: Faithful(q, history, fetch) ==> FetchesExactly(q, history, fetch))
       <==> q.venue.Bybit? || Tiled(q, history)
  {
    if q.venue.Bybit? || Tiled(q, history) {
      forall fetch | Faithful(q, history, fetch) ensures FetchesExactly(q, history, fetch) {
        PagingIsExact(q, history, fetch);
      }
    } else {
      var c :| c in history && InWindow(q, c) && !Clears(q, history, c);
      UntiledIsLost(q, history, c);
    }
  }

  /** Candles that open on the interval's own grid, whatever its offset, or at the first instants of
      months that have a close. */
  ghost predicate Aligned(interval: KlineInterval, offset: int, t: int) {
    if interval.Month1? then CloseTime(Month1, t).Some? && exists ym :: t == Opens(ym)
    else (t - offset) % Duration(interval) == 0
  }

  /** A history on such a grid is tiled, for one instrument or many. */
  lemma AlignedIsTiled(
    venue: Venue, ids: seq<string>, interval: KlineInterval, start: int, end: int, offset: int, history: set<Candle>)
    requires forall c :: c in history ==> Aligned(interval, offset, c.openTime)
    ensures Tiled(WindowRequest(venue, ids, interval, start, end), history)
  {
    var q := WindowRequest(venue, ids, interval, start, end);
    forall c, d | c in history && d in history && c.openTime < d.openTime
      ensures q.close(c.openTime).Some? && q.close(c.openTime).value < d.openTime
    {
      AlignedCloses(interval, offset, c.openTime, d.openTime);
    }
  }

  lemma AlignedCloses(interval: KlineInterval, offset: int, t: int, u: int)
    requires Aligned(interval, offset, t) && Aligned(interval, offset, u) && t < u
    ensures CloseTime(interval, t).Some? && CloseTime(interval, t).value < u
  {
    if interval.Month1? {
      var ym :| u == Opens(ym);
      MonthsTile(t, ym);
    } else {
      Spaced(t - offset, u - offset, Duration(interval));
    }
  }

  lemma Spaced(a: int, b: int, d: int)
    requires d > 0 && a % d == 0 && b % d == 0 && a < b
    ensures a + d <= b
  {
    var k := b / d - a / d;
    assert a == a / d * d && b == b / d * d;
    assert k * d == b - a;
    AtLeastOne(k, d);
  }

  lemma AtLeastOne(k: int, d: int)
    requires d > 0 && k * d > 0
    ensures k * d >= d
  {
  }
}
