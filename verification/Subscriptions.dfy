/** Public subscriptions, their join, and the routing of the join to streams
    (crates/bat-markets/src/subscriptions.rs). */
module Subscriptions {
  import opened Basics
  import opened OrderedStrings

  datatype PublicSubscription = PublicSubscription(
    instrumentIds: seq<string>,
    ticker: bool,
    trades: bool,
    bookTop: bool,
    orderBook: bool,
    markPrice: bool,
    fundingRate: bool,
    openInterest: bool,
    liquidations: bool,
    klineIntervals: seq<string>)

  datatype PublicStreamRoute = Default | BinanceMarket | BinancePublic

  /** One kind of market data a subscription can ask for. */
  datatype Topic =
    | Ticker | Trades | BookTop | OrderBook | MarkPrice | FundingRate | OpenInterest | Liquidations
    | Kline(interval: string)

  predicate Wants(s: PublicSubscription, t: Topic) {
    match t
    case Ticker => s.ticker
    case Trades => s.trades
    case BookTop => s.bookTop
    case OrderBook => s.orderBook
    case MarkPrice => s.markPrice
    case FundingRate => s.fundingRate
    case OpenInterest => s.openInterest
    case Liquidations => s.liquidations
    case Kline(interval) => interval in s.klineIntervals
  }

  /** The subscription asks for topic `t` of instrument `id`. */
  predicate Demands(s: PublicSubscription, id: string, t: Topic) {
    id in s.instrumentIds && Wants(s, t)
  }

  /** Componentwise inclusion. */
  ghost predicate Leq(a: PublicSubscription, b: PublicSubscription) {
    && (forall id :: id in a.instrumentIds ==> id in b.instrumentIds)
    && (forall t :: Wants(a, t) ==> Wants(b, t))
  }

  /** The vectors are drained ordered sets. */
  predicate Canonical(s: PublicSubscription) {
    StrictlySorted(s.instrumentIds) && StrictlySorted(s.klineIntervals)
  }

  lemma LeqAntisymmetric(a: PublicSubscription, b: PublicSubscription)
    requires Canonical(a) && Canonical(b)
    requires Leq(a, b) && Leq(b, a)
    ensures a == b
  {
    SortedUnique(a.instrumentIds, b.instrumentIds);
    forall x ensures x in a.klineIntervals <==> x in b.klineIntervals {
      assert Wants(a, Kline(x)) <==> Wants(b, Kline(x));
    }
    SortedUnique(a.klineIntervals, b.klineIntervals);
    assert Wants(a, Ticker) <==> Wants(b, Ticker);
    assert Wants(a, Trades) <==> Wants(b, Trades);
    assert Wants(a, BookTop) <==> Wants(b, BookTop);
    assert Wants(a, OrderBook) <==> Wants(b, OrderBook);
    assert Wants(a, MarkPrice) <==> Wants(b, MarkPrice);
    assert Wants(a, FundingRate) <==> Wants(b, FundingRate);
    assert Wants(a, OpenInterest) <==> Wants(b, OpenInterest);
    assert Wants(a, Liquidations) <==> Wants(b, Liquidations);
  }

  /** Sorting and deduplicating both vectors changes neither the instruments nor the topics, and
      the normal form is the only canonical subscription with that content. */
  function Normalize(s: PublicSubscription): (r: PublicSubscription)
    ensures Canonical(r)
    ensures Leq(s, r) && Leq(r, s)
  {
    s.(instrumentIds := Extend([], s.instrumentIds), klineIntervals := Extend([], s.klineIntervals))
  }

  lemma NormalizeUnique(s: PublicSubscription, u: PublicSubscription)
    requires Canonical(u) && Leq(s, u) && Leq(u, s)
    ensures Normalize(s) == u
  {
    LeqAntisymmetric(Normalize(s), u);
  }

  // ----- the join -----------------------------------------------------------------------------

  const NOTHING := PublicSubscription([], false, false, false, false, false, false, false, false, [])

  /** The eight `|=` updates of one loop round. */
  function Flags(m: PublicSubscription, s: PublicSubscription): PublicSubscription {
    m.(ticker := m.ticker || s.ticker,
       trades := m.trades || s.trades,
       bookTop := m.bookTop || s.bookTop,
       orderBook := m.orderBook || s.orderBook,
       markPrice := m.markPrice || s.markPrice,
       fundingRate := m.fundingRate || s.fundingRate,
       openInterest := m.openInterest || s.openInterest,
       liquidations := m.liquidations || s.liquidations)
  }

  function Absorb(m: PublicSubscription, s: PublicSubscription): (r: PublicSubscription)
    requires Canonical(m)
    ensures Canonical(r)
  {
    Flags(m, s).(
      instrumentIds := Extend(m.instrumentIds, s.instrumentIds),
      klineIntervals := Extend(m.klineIntervals, s.klineIntervals))
  }

  lemma AbsorbWants(m: PublicSubscription, s: PublicSubscription, t: Topic)
    requires Canonical(m)
    ensures Wants(Absorb(m, s), t) <==> Wants(m, t) || Wants(s, t)
  {
  }

  /** `Absorb` is the binary join. */
  lemma AbsorbIsJoin(m: PublicSubscription, s: PublicSubscription)
    requires Canonical(m)
    ensures Leq(m, Absorb(m, s)) && Leq(s, Absorb(m, s))
    ensures forall u :: Leq(m, u) && Leq(s, u) ==> Leq(Absorb(m, s), u)
  {
    forall t ensures Wants(Absorb(m, s), t) <==> Wants(m, t) || Wants(s, t) {
      AbsorbWants(m, s, t);
    }
  }

  function Accumulate(subs: seq<PublicSubscription>): (r: PublicSubscription)
    ensures Canonical(r)
  {
    if subs == [] then NOTHING
    else Absorb(Accumulate(subs[..|subs| - 1]), subs[|subs| - 1])
  }

  /** The join of the subscriptions, absent when it names no instrument. */
  function Merge(subs: seq<PublicSubscription>): (r: Option<PublicSubscription>)
    ensures r.Some? ==> Canonical(r.value)
  {
    var all := Accumulate(subs);
    if all.instrumentIds == [] then None else Some(all)
  }

  method MergePublicSubscriptions(subs: seq<PublicSubscription>)
    returns (r: Option<PublicSubscription>)
    ensures r == Merge(subs)
  {
    var instrumentIds, klineIntervals := [], [];
    var merged := NOTHING;
    for i := 0 to |subs|
      invariant StrictlySorted(instrumentIds) && StrictlySorted(klineIntervals)
      invariant merged.instrumentIds == [] && merged.klineIntervals == []
      invariant merged.(instrumentIds := instrumentIds, klineIntervals := klineIntervals)
             == Accumulate(subs[..i])
    {
      assert subs[..i + 1][..i] == subs[..i];
      merged := Flags(merged, subs[i]);
      instrumentIds := Extend(instrumentIds, subs[i].instrumentIds);
      klineIntervals := Extend(klineIntervals, subs[i].klineIntervals);
    }
    assert subs[..|subs|] == subs;
    if instrumentIds == [] {
      return None;
    }
    return Some(merged.(instrumentIds := instrumentIds, klineIntervals := klineIntervals));
  }

  ghost predicate UpperBound(subs: seq<PublicSubscription>, u: PublicSubscription) {
    forall s :: s in subs ==> Leq(s, u)
  }

  /** The accumulated subscription is the least upper bound. */
  lemma {:induction false} AccumulateIsJoin(subs: seq<PublicSubscription>)
    ensures UpperBound(subs, Accumulate(subs))
    ensures forall u :: UpperBound(subs, u) ==> Leq(Accumulate(subs), u)
  {
    if subs == [] {
      assert forall t :: !Wants(NOTHING, t);
    } else {
      var init, last := subs[..|subs| - 1], subs[|subs| - 1];
      AccumulateIsJoin(init);
      AbsorbIsJoin(Accumulate(init), last);
      assert subs == init + [last];
      assert forall u :: UpperBound(subs, u) ==> UpperBound(init, u);
    }
  }

  /** Two lease sets that dominate each other have the same join: order, repetition and grouping
      of the leases cannot matter. */
  lemma AccumulateSame(a: seq<PublicSubscription>, b: seq<PublicSubscription>)
    requires UpperBound(a, Accumulate(b)) && UpperBound(b, Accumulate(a))
    ensures Accumulate(a) == Accumulate(b)
  {
    AccumulateIsJoin(a);
    AccumulateIsJoin(b);
    LeqAntisymmetric(Accumulate(a), Accumulate(b));
  }

  lemma MergeDependsOnElements(a: seq<PublicSubscription>, b: seq<PublicSubscription>)
    requires forall s :: s in a <==> s in b
    ensures Merge(a) == Merge(b)
  {
    AccumulateIsJoin(a);
    AccumulateIsJoin(b);
    AccumulateSame(a, b);
  }

  function Present(s: Option<PublicSubscription>): seq<PublicSubscription> {
    if s.Some? then [s.value] else []
  }

  /** A group that names no instrument is dropped as `None`, together with the topics it wants. */
  ghost predicate Droppable(a: seq<PublicSubscription>, b: seq<PublicSubscription>) {
    Merge(a).None? && Merge(b).Some? ==> Leq(Accumulate(a), Accumulate(b))
  }

  /** Merging two groups separately and then together gives the join of all exactly when a group
      that is dropped wants nothing the other does not. */
  lemma MergeGroups(a: seq<PublicSubscription>, b: seq<PublicSubscription>)
    ensures Merge(Present(Merge(a)) + Present(Merge(b))) == Merge(a + b) <==> Droppable(a, b) && Droppable(b, a)
  {
    if Merge(a).Some? && Merge(b).Some? {
      MergeBoth(a, b);
    } else if Merge(b).Some? {
      MergeOne(a, b);
      assert Present(Merge(a)) + Present(Merge(b)) == [Merge(b).value];
    } else if Merge(a).Some? {
      MergeOne(b, a);
      MergeDependsOnElements(a + b, b + a);
      assert Present(Merge(a)) + Present(Merge(b)) == [Merge(a).value];
    } else {
      MergeNeither(a, b);
      assert Present(Merge(a)) + Present(Merge(b)) == [];
    }
  }

  lemma BoundsOfConcat(a: seq<PublicSubscription>, b: seq<PublicSubscription>, u: PublicSubscription)
    ensures UpperBound(a + b, u) <==> UpperBound(a, u) && UpperBound(b, u)
  {
    assert forall s :: s in a + b <==> s in a || s in b;
  }

  lemma BoundOfOne(s: PublicSubscription, u: PublicSubscription)
    ensures UpperBound([s], u) <==> Leq(s, u)
  {
    assert s in [s];
  }

  lemma LeqTransitive(a: PublicSubscription, b: PublicSubscription, c: PublicSubscription)
    requires Leq(a, b) && Leq(b, c)
    ensures Leq(a, c)
  {
  }

  /** A bound of the join bounds the group. */
  lemma BoundOfJoin(a: seq<PublicSubscription>, u: PublicSubscription)
    ensures Leq(Accumulate(a), u) <==> UpperBound(a, u)
  {
    AccumulateIsJoin(a);
    if Leq(Accumulate(a), u) {
      forall s | s in a ensures Leq(s, u) {
        LeqTransitive(s, Accumulate(a), u);
      }
    }
  }

  lemma MergeBoth(a: seq<PublicSubscription>, b: seq<PublicSubscription>)
    requires Merge(a).Some? && Merge(b).Some?
    ensures Merge([Merge(a).value] + [Merge(b).value]) == Merge(a + b)
  {
    var x, y := Accumulate(a), Accumulate(b);
    forall u ensures UpperBound([x] + [y], u) <==> UpperBound(a + b, u) {
      BoundsOfConcat([x], [y], u);
      BoundsOfConcat(a, b, u);
      BoundOfOne(x, u);
      BoundOfOne(y, u);
      BoundOfJoin(a, u);
      BoundOfJoin(b, u);
    }
    SameBounds([x] + [y], a + b);
  }

  /** Groups with the same upper bounds have the same join. */
  lemma SameBounds(a: seq<PublicSubscription>, b: seq<PublicSubscription>)
    requires forall u :: UpperBound(a, u) <==> UpperBound(b, u)
    ensures Accumulate(a) == Accumulate(b)
  {
    AccumulateIsJoin(a);
    AccumulateIsJoin(b);
    AccumulateSame(a, b);
  }

  lemma MergeOne(a: seq<PublicSubscription>, b: seq<PublicSubscription>)
    requires Merge(a).None? && Merge(b).Some?
    ensures Merge([Merge(b).value]) == Merge(a + b) <==> Leq(Accumulate(a), Accumulate(b))
  {
    var y := Accumulate(b);
    SingleMerge(y);
    AccumulateIsJoin(a);
    AccumulateIsJoin(b);
    AccumulateIsJoin(a + b);
    assert UpperBound(a, Accumulate(a + b)) && UpperBound(b, Accumulate(a + b));
    if Leq(Accumulate(a), y) {
      assert UpperBound(a + b, y);
      LeqAntisymmetric(y, Accumulate(a + b));
    }
  }

  lemma SingleMerge(s: PublicSubscription)
    requires Canonical(s)
    ensures Accumulate([s]) == s
  {
    AccumulateIsJoin([s]);
    assert s in [s];
    assert UpperBound([s], s);
    LeqAntisymmetric(Accumulate([s]), s);
  }

  lemma MergeNeither(a: seq<PublicSubscription>, b: seq<PublicSubscription>)
    requires Merge(a).None? && Merge(b).None?
    ensures Merge(a + b).None? && Merge([]).None?
  {
    var all := Accumulate(a + b);
    if all.instrumentIds != [] {
      AccumulateExact(a + b, all.instrumentIds[0], Ticker);
      AccumulateExact(a, all.instrumentIds[0], Ticker);
      AccumulateExact(b, all.instrumentIds[0], Ticker);
      assert false;
    }
  }

  lemma MergeGroupsNeedsInstruments()
    ensures var flagOnly := NOTHING.(ticker := true);
            var btc := NOTHING.(instrumentIds := ["BTC"]);
            && Merge([flagOnly]).None?
            && Merge([flagOnly, btc]) != Merge([btc])
  {
    var flagOnly := NOTHING.(ticker := true);
    var btc := NOTHING.(instrumentIds := ["BTC"]);
    assert [flagOnly, btc][..1] == [flagOnly];
    AccumulateIsJoin([btc]);
    AccumulateIsJoin([flagOnly, btc]);
    assert [btc][..0] == [] && [flagOnly][..0] == [];
    assert btc in [btc] && btc in [flagOnly, btc] && flagOnly in [flagOnly, btc];
    assert Wants(flagOnly, Ticker);
    assert !Wants(Accumulate([btc]), Ticker);
    assert "BTC" in Accumulate([btc]).instrumentIds;
  }

  // ----- routing ------------------------------------------------------------------------------

  function SplitBinance(s: PublicSubscription): map<PublicStreamRoute, PublicSubscription> {
    var market := s.(bookTop := false, orderBook := false);
    var public := NOTHING.(
      instrumentIds := s.instrumentIds, bookTop := s.bookTop, orderBook := s.orderBook);
    var routes: map<PublicStreamRoute, PublicSubscription> :=
      if s.ticker || s.trades || s.markPrice || s.fundingRate || s.openInterest || s.liquidations
         || s.klineIntervals != []
      then map[BinanceMarket := market] else map[];
    if s.bookTop || s.orderBook then routes[BinancePublic := public] else routes
  }

  function Route(venue: Venue, subs: seq<PublicSubscription>)
    : map<PublicStreamRoute, PublicSubscription>
  {
    match Merge(subs)
    case None => map[]
    case Some(s) =>
      match venue
      case Binance => SplitBinance(s)
      case Bybit => map[Default := s]
      case Mexc => map[Default := s]
  }

  ghost predicate Carries(
    plan: map<PublicStreamRoute, PublicSubscription>, r: PublicStreamRoute, id: string, t: Topic)
  {
    r in plan && Demands(plan[r], id, t)
  }

  /** The Binance split loses no demand, adds none, and sends no demand to both sockets. */
  lemma SplitPreservesDemand(s: PublicSubscription, id: string, t: Topic)
    ensures Demands(s, id, t) <==> exists r :: Carries(SplitBinance(s), r, id, t)
    ensures !(Carries(SplitBinance(s), BinanceMarket, id, t) && Carries(SplitBinance(s), BinancePublic, id, t))
    ensures !Carries(SplitBinance(s), Default, id, t)
  {
    var plan := SplitBinance(s);
    if Demands(s, id, t) {
      if t.BookTop? || t.OrderBook? {
        assert Carries(plan, BinancePublic, id, t);
      } else {
        assert Carries(plan, BinanceMarket, id, t);
      }
    }
  }

  /** The topics of the order book, which Binance serves on a socket of their own. */
  predicate BookTopic(t: Topic) {
    t == BookTop || t == OrderBook
  }

  /** The public socket carries the book topics and the market socket the others, for the same
      instruments; and a socket is opened exactly if it has a topic to carry. */
  lemma SplitByTopic(s: PublicSubscription, t: Topic)
    ensures var plan := SplitBinance(s);
            && plan.Keys <= {BinanceMarket, BinancePublic}
            && (BinancePublic in plan ==>
                  && plan[BinancePublic].instrumentIds == s.instrumentIds
                  && (Wants(plan[BinancePublic], t) <==> Wants(s, t) && BookTopic(t)))
            && (BinanceMarket in plan ==>
                  && plan[BinanceMarket].instrumentIds == s.instrumentIds
                  && (Wants(plan[BinanceMarket], t) <==> Wants(s, t) && !BookTopic(t)))
            && (BinancePublic in plan <==> exists u :: Wants(s, u) && BookTopic(u))
            && (BinanceMarket in plan <==> exists u :: Wants(s, u) && !BookTopic(u))
  {
    SplitSockets(s);
  }

  lemma SplitSockets(s: PublicSubscription)
    ensures BinancePublic in SplitBinance(s) <==> exists u :: Wants(s, u) && BookTopic(u)
    ensures BinanceMarket in SplitBinance(s) <==> exists u :: Wants(s, u) && !BookTopic(u)
  {
    if BinancePublic in SplitBinance(s) {
      assert Wants(s, if s.bookTop then BookTop else OrderBook);
    }
    if BinanceMarket in SplitBinance(s) {
      var u := if s.ticker then Ticker else if s.trades then Trades else if s.markPrice then MarkPrice
               else if s.fundingRate then FundingRate else if s.openInterest then OpenInterest
               else if s.liquidations then Liquidations else Kline(s.klineIntervals[0]);
      assert Wants(s, u) && !BookTopic(u);
    }
  }

  /** Other venues have one route, which runs the join as it is. */
  lemma RouteIsJoin(venue: Venue, subs: seq<PublicSubscription>)
    ensures Route(venue, subs) == (
              if forall s :: s in subs ==> s.instrumentIds == [] then map[]
              else if venue.Binance? then SplitBinance(Accumulate(subs))
              else map[Default := Accumulate(subs)])
  {
    var all := Accumulate(subs);
    if all.instrumentIds != [] {
      AccumulateExact(subs, all.instrumentIds[0], Ticker);
    }
    if s :| s in subs && s.instrumentIds != [] {
      AccumulateExact(subs, s.instrumentIds[0], Ticker);
    }
  }

  /** What the routed plan carries, exactly: topic `t` of instrument `id` is on the wire iff some
      lease names the instrument and some lease wants the topic; and on one route only. */
  lemma RouteIsExact(venue: Venue, subs: seq<PublicSubscription>, id: string, t: Topic)
    ensures (exists r :: Carries(Route(venue, subs), r, id, t))
       <==> (exists s :: s in subs && id in s.instrumentIds) && (exists s :: s in subs && Wants(s, t))
    ensures forall r, q :: Carries(Route(venue, subs), r, id, t) && Carries(Route(venue, subs), q, id, t) ==> r == q
  {
    AccumulateExact(subs, id, t);
    var all := Accumulate(subs);
    var plan := Route(venue, subs);
    SplitPreservesDemand(all, id, t);
    if all.instrumentIds != [] && Demands(all, id, t) {
      if !venue.Binance? {
        assert Carries(plan, Default, id, t);
      }
    }
  }

  lemma {:induction false} AccumulateExact(subs: seq<PublicSubscription>, id: string, t: Topic)
    ensures id in Accumulate(subs).instrumentIds <==> exists s :: s in subs && id in s.instrumentIds
    ensures Wants(Accumulate(subs), t) <==> exists s :: s in subs && Wants(s, t)
  {
    if subs != [] {
      var init, last := subs[..|subs| - 1], subs[|subs| - 1];
      AccumulateExact(init, id, t);
      AbsorbWants(Accumulate(init), last, t);
      assert subs == init + [last];
      assert forall s :: s in subs <==> s in init || s == last;
    }
  }

  /** Every demand of every lease is carried. */
  lemma RouteCoversLease(venue: Venue, subs: seq<PublicSubscription>, s: PublicSubscription, id: string, t: Topic)
    requires s in subs && Demands(s, id, t)
    ensures exists r :: Carries(Route(venue, subs), r, id, t)
  {
    RouteIsExact(venue, subs, id, t);
  }
}
