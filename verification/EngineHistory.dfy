/** What a reachable engine state holds, as a function of the history alone: market data is the
    latest accepted event, trade and liquidation queues are windows on what arrived, and the account
    is the last snapshot extended by the updates since. */
module EngineHistory {
  import opened Basics
  import opened Engine
  import EngineProperties
  import H = Health

  /** The instruments known after a run: those of the last replacement. */
  function Known(specs: seq<InstrumentSpec>, os: seq<Operation>): map<string, InstrumentSpec> {
    if os == [] then ById(specs) else NextKnown(Known(specs, os[..|os| - 1]), os[|os| - 1])
  }

  /** What an operation does to the market data. */
  function NextMarket(p: Policy, k: Market, o: Operation): Market {
    if o.Public? then (if ApplyMarket(p, k, o.public).Some? then ApplyMarket(p, k, o.public).value else k)
    else if o.Instruments? then Prune(k.(instruments := ById(o.specs)))
    else k
  }

  lemma {:induction false} MarketStep(s: State, o: Operation)
    ensures Apply(s, o).market == NextMarket(s.policy, s.market, o) && Apply(s, o).policy == s.policy
  {
    if o.Private? {
      PrivateStep(s, o.private);
    } else if o.Snapshot? {
      SnapshotStep(s, o.snapshot);
    }
  }

  lemma {:induction false} PrivateStep(s: State, e: PrivateEvent)
    ensures ApplyPrivate(s, e).market == s.market && ApplyPrivate(s, e).policy == s.policy
  {
  }

  lemma {:induction false} SnapshotStep(s: State, x: PrivateSnapshot)
    ensures ApplySnapshot(s, x).market == s.market && ApplySnapshot(s, x).policy == s.policy
  {
  }

  /** Parts of the market data after an operation, each on its own. */
  function NextKnown(known: map<string, InstrumentSpec>, o: Operation): map<string, InstrumentSpec> {
    if o.Instruments? then ById(o.specs) else known
  }

  function NextTradeMap(p: Policy, k: Market, o: Operation): map<string, seq<TradeTick>> {
    if o.Instruments? then Restrict(k.trades, ById(o.specs).Keys)
    else if o.Public? && o.public.Trade? && o.public.m.instrument in k.instruments
    then PushTrade(k.trades,
        TradeTick(o.public.tradeId, Unify(k.instruments[o.public.m.instrument], o.public.m)), p.tradeCapacity)
    else k.trades
  }

  function NextLiquidationMap(p: Policy, k: Market, o: Operation): map<string, seq<Unified>> {
    if o.Instruments? then Restrict(k.liquidations, ById(o.specs).Keys)
    else if o.Public? && o.public.Liquidation? && o.public.m.instrument in k.instruments
    then PushLiquidation(k.liquidations, Unify(k.instruments[o.public.m.instrument], o.public.m), p.tradeCapacity)
    else k.liquidations
  }

  lemma PublicParts(p: Policy, k: Market, e: PublicEvent)
    requires ApplyMarket(p, k, e).Some?
    ensures var k' := ApplyMarket(p, k, e).value;
            && k'.instruments == k.instruments
            && k'.trades == NextTradeMap(p, k, Public(e))
            && k'.liquidations == NextLiquidationMap(p, k, Public(e))
  {
  }

  lemma RefusedParts(p: Policy, k: Market, e: PublicEvent)
    requires ApplyMarket(p, k, e).None?
    ensures k.trades == NextTradeMap(p, k, Public(e)) && k.liquidations == NextLiquidationMap(p, k, Public(e))
  {
  }

  lemma NextParts(p: Policy, k: Market, o: Operation)
    ensures var k' := NextMarket(p, k, o);
            && k'.instruments == NextKnown(k.instruments, o)
            && k'.trades == NextTradeMap(p, k, o)
            && k'.liquidations == NextLiquidationMap(p, k, o)
  {
    if o.Public? {
      if ApplyMarket(p, k, o.public).Some? {
        PublicParts(p, k, o.public);
      } else {
        RefusedParts(p, k, o.public);
      }
    }
  }

  lemma {:induction false} RunInstruments(policy: Policy, specs: seq<InstrumentSpec>, os: seq<Operation>)
    ensures Run(NewState(policy, specs), os).market.instruments == Known(specs, os)
    ensures Run(NewState(policy, specs), os).policy == policy
  {
    if os != [] {
      RunInstruments(policy, specs, os[..|os| - 1]);
      var s := Run(NewState(policy, specs), os[..|os| - 1]);
      MarketStep(s, os[|os| - 1]);
      NextParts(s.policy, s.market, os[|os| - 1]);
    }
  }

  // ----- market data: the latest accepted event wins ------------------------------------------

  datatype Kind = Tickers | BookTops | Klines | MarkPrices | FundingRates | OpenInterests

  function KindOf(e: PublicEvent): (k: Option<Kind>)
    ensures k.Some? ==> !e.Divergence?
  {
    match e
    case Ticker(_) => Some(Tickers)
    case BookTop(_) => Some(BookTops)
    case Kline(_) => Some(Klines)
    case MarkPrice(_) => Some(MarkPrices)
    case FundingRate(_) => Some(FundingRates)
    case OpenInterest(_) => Some(OpenInterests)
    case _ => None
  }

  function Raw(m: Fast): Unified {
    Unified(m.instrument, m.value, 0, m.at)
  }

  /** What the engine shows for an instrument. */
  function Shown(k: Market, kind: Kind, id: string): Option<Unified> {
    match kind
    case Tickers => Get(k.tickers, id)
    case BookTops => Get(k.bookTops, id)
    case Klines => Get(k.klines, id)
    case MarkPrices => Get(k.markPrices, id)
    case FundingRates => if id in k.fundingRates then Some(Raw(k.fundingRates[id])) else None
    case OpenInterests => if id in k.openInterest then Some(Raw(k.openInterest[id])) else None
  }

  /** What an event contributes: nothing if it is of another kind or instrument, or is refused. */
  function Contribution(known: map<string, InstrumentSpec>, e: PublicEvent, kind: Kind, id: string): Option<Unified> {
    if KindOf(e) != Some(kind) || e.m.instrument != id then None
    else if kind.FundingRates? || kind.OpenInterests? then Some(Raw(e.m))
    else if id in known then Some(Unified(id, e.m.value, known[id].scale, e.m.at))
    else None
  }

  /** One operation's effect on what is shown, given the instruments known before it. */
  function NextShown(known: map<string, InstrumentSpec>, before: Option<Unified>, o: Operation, kind: Kind, id: string)
    : Option<Unified>
  {
    match o
    case Public(e) => if Contribution(known, e, kind, id).Some? then Contribution(known, e, kind, id) else before
    case Instruments(specs) => if id in ById(specs) then before else None
    case _ => before
  }

  /** The newest contribution since the instrument was last unknown to a replacement. */
  function Current(specs: seq<InstrumentSpec>, os: seq<Operation>, kind: Kind, id: string): Option<Unified> {
    if os == [] then None
    else
      var init := os[..|os| - 1];
      NextShown(Known(specs, init), Current(specs, init, kind, id), os[|os| - 1], kind, id)
  }

  lemma {:induction false} ShownStep(p: Policy, k: Market, o: Operation, kind: Kind, id: string)
    ensures Shown(NextMarket(p, k, o), kind, id) == NextShown(k.instruments, Shown(k, kind, id), o, kind, id)
  {
    if o.Public? {
      PublicShown(p, k, o.public, kind, id);
    }
  }

  lemma {:induction false} PublicShown(p: Policy, k: Market, e: PublicEvent, kind: Kind, id: string)
    ensures Shown(NextMarket(p, k, Public(e)), kind, id)
         == NextShown(k.instruments, Shown(k, kind, id), Public(e), kind, id)
  {
    if KindOf(e) == Some(kind) {
      SameKind(p, k, e, kind, id);
    } else {
      OtherKind(p, k, e, kind, id);
    }
  }

  lemma {:induction false} SameKind(p: Policy, k: Market, e: PublicEvent, kind: Kind, id: string)
    requires KindOf(e) == Some(kind)
    ensures var next := Contribution(k.instruments, e, kind, id);
            Shown(NextMarket(p, k, Public(e)), kind, id) == if next.Some? then next else Shown(k, kind, id)
  {
  }

  lemma {:induction false} OtherKind(p: Policy, k: Market, e: PublicEvent, kind: Kind, id: string)
    requires KindOf(e) != Some(kind)
    ensures Shown(NextMarket(p, k, Public(e)), kind, id) == Shown(k, kind, id)
  {
  }

  /** Over every run from a new engine. */
  lemma {:induction false} LatestEventWins(
    policy: Policy, specs: seq<InstrumentSpec>, os: seq<Operation>, kind: Kind, id: string)
    ensures Shown(Run(NewState(policy, specs), os).market, kind, id) == Current(specs, os, kind, id)
  {
    if os != [] {
      var init := os[..|os| - 1];
      LatestEventWins(policy, specs, init, kind, id);
      RunInstruments(policy, specs, init);
      var s := Run(NewState(policy, specs), init);
      MarketStep(s, os[|os| - 1]);
      ShownStep(s.policy, s.market, os[|os| - 1], kind, id);
    }
  }

  // ----- data of unknown instruments ----------------------------------------------------------

  /** The two kinds that are stored without looking the instrument up. */
  predicate Unchecked(kind: Kind) {
    kind.FundingRates? || kind.OpenInterests?
  }

  function Stored(k: Market, kind: Kind): set<string>
    requires Unchecked(kind)
  {
    if kind.FundingRates? then k.fundingRates.Keys else k.openInterest.Keys
  }

  /** The operation stores data of this kind for `id`. */
  predicate Stores(o: Operation, kind: Kind, id: string) {
    o.Public? && KindOf(o.public) == Some(kind) && o.public.m.instrument == id
  }

  /** The `i`-th operation stores data for `id` and no instrument replacement follows it. */
  ghost predicate StoredLast(os: seq<Operation>, i: int, kind: Kind, id: string) {
    0 <= i < |os| && Stores(os[i], kind, id) && forall j :: i < j < |os| ==> !os[j].Instruments?
  }

  ghost predicate StoredSince(os: seq<Operation>, kind: Kind, id: string) {
    exists i :: StoredLast(os, i, kind, id)
  }

  lemma {:induction false} StoredSinceSnoc(os: seq<Operation>, o: Operation, kind: Kind, id: string)
    ensures StoredSince(os + [o], kind, id) <==> !o.Instruments? && (Stores(o, kind, id) || StoredSince(os, kind, id))
  {
    var all := os + [o];
    if i :| StoredLast(all, i, kind, id) {
      if i < |os| {
        assert all[|os|] == o && all[i] == os[i] && forall j :: i < j < |os| ==> all[j] == os[j];
        assert StoredLast(os, i, kind, id);
      }
    }
    if !o.Instruments? {
      if Stores(o, kind, id) {
        assert StoredLast(all, |os|, kind, id);
      } else if i :| StoredLast(os, i, kind, id) {
        assert StoredLast(all, i, kind, id);
      }
    }
  }

  lemma {:induction false} StoredStep(p: Policy, k: Market, o: Operation, kind: Kind, id: string)
    requires Unchecked(kind)
    ensures id in Stored(NextMarket(p, k, o), kind)
       <==> if o.Instruments? then id in Stored(k, kind) && id in ById(o.specs)
            else Stores(o, kind, id) || id in Stored(k, kind)
  {
    ShownStep(p, k, o, kind, id);
    assert id in Stored(k, kind) <==> Shown(k, kind, id).Some?;
    assert id in Stored(NextMarket(p, k, o), kind) <==> Shown(NextMarket(p, k, o), kind, id).Some?;
  }

  /** What is stored is for instruments known now, or came after the last replacement; and what came
      after the last replacement is stored. */
  lemma {:induction false} StoredIds(
    policy: Policy, specs: seq<InstrumentSpec>, os: seq<Operation>, kind: Kind, id: string)
    requires Unchecked(kind)
    ensures var stored := Stored(Run(NewState(policy, specs), os).market, kind);
            && (StoredSince(os, kind, id) ==> id in stored)
            && (id in stored ==> StoredSince(os, kind, id) || id in Known(specs, os))
  {
    if os != [] {
      var init, o := os[..|os| - 1], os[|os| - 1];
      var s := Run(NewState(policy, specs), init);
      StoredIds(policy, specs, init, kind, id);
      MarketStep(s, o);
      StoredStep(s.policy, s.market, o, kind, id);
      StoredSinceSnoc(init, o, kind, id);
      assert os == init + [o];
    }
  }

  /** Funding rates, and open interest, are kept for known instruments only exactly when every such
      event since the last replacement of the instruments named a known one. */
  lemma {:induction false} UncheckedDataIsKnown(
    policy: Policy, specs: seq<InstrumentSpec>, os: seq<Operation>, kind: Kind)
    requires Unchecked(kind)
    ensures var k := Run(NewState(policy, specs), os).market;
            (Stored(k, kind) <= k.instruments.Keys
             <==> forall i, id :: StoredLast(os, i, kind, id) ==> id in Known(specs, os))
  {
    var k := Run(NewState(policy, specs), os).market;
    RunInstruments(policy, specs, os);
    forall id
      ensures StoredSince(os, kind, id) ==> id in Stored(k, kind)
      ensures id in Stored(k, kind) ==> StoredSince(os, kind, id) || id in Known(specs, os)
    {
      StoredIds(policy, specs, os, kind, id);
    }
    if Stored(k, kind) <= k.instruments.Keys {
      forall i, id | StoredLast(os, i, kind, id) ensures id in Known(specs, os) {
        assert StoredSince(os, kind, id);
      }
    }
  }

  // ----- queues are windows -------------------------------------------------------------------

  function Queue<T>(m: map<string, seq<T>>, id: string): seq<T> {
    if id in m then m[id] else []
  }

  /** One operation's effect on the accepted trades of an instrument. */
  function NextTrades(
    known: map<string, InstrumentSpec>, log: seq<TradeTick>, o: Operation, id: string)
    : seq<TradeTick>
  {
    if o.Instruments? then (if id in ById(o.specs) then log else [])
    else if o.Public? && o.public.Trade? && o.public.m.instrument == id && id in known
    then log + [TradeTick(o.public.tradeId, Unified(id, o.public.m.value, known[id].scale, o.public.m.at))]
    else log
  }

  /** The accepted trades of an instrument since it was last unknown to a replacement. */
  function TradeLog(specs: seq<InstrumentSpec>, os: seq<Operation>, id: string): seq<TradeTick> {
    if os == [] then []
    else
      var init := os[..|os| - 1];
      NextTrades(Known(specs, init), TradeLog(specs, init, id), os[|os| - 1], id)
  }

  function NextLiquidations(
    known: map<string, InstrumentSpec>, log: seq<Unified>, o: Operation, id: string)
    : seq<Unified>
  {
    if o.Instruments? then (if id in ById(o.specs) then log else [])
    else if o.Public? && o.public.Liquidation? && o.public.m.instrument == id && id in known
    then log + [Unified(id, o.public.m.value, known[id].scale, o.public.m.at)]
    else log
  }

  function LiquidationLog(specs: seq<InstrumentSpec>, os: seq<Operation>, id: string): seq<Unified> {
    if os == [] then []
    else
      var init := os[..|os| - 1];
      NextLiquidations(Known(specs, init), LiquidationLog(specs, init, id), os[|os| - 1], id)
  }

  /** Of each block of adjacent trades with one id the first stays. */
  function Squash(log: seq<TradeTick>): seq<TradeTick> {
    if log == [] then []
    else
      Squash(log[..|log| - 1])
      + (if |log| > 1 && log[|log| - 2].tradeId == log[|log| - 1].tradeId then [] else [log[|log| - 1]])
  }

  lemma {:induction false} SquashEndsAlike(log: seq<TradeTick>)
    requires log != []
    ensures Squash(log) != [] && Squash(log)[|Squash(log)| - 1].tradeId == log[|log| - 1].tradeId
  {
    if |log| > 1 {
      SquashEndsAlike(log[..|log| - 1]);
    }
  }

  lemma {:induction false} SquashSnoc(log: seq<TradeTick>, t: TradeTick)
    ensures Squash(log + [t])
         == if log != [] && log[|log| - 1].tradeId == t.tradeId then Squash(log) else Squash(log) + [t]
  {
    assert (log + [t])[..|log|] == log;
    assert Squash(log) + [] == Squash(log);
  }

  lemma {:induction false} WindowSlides<T>(s: seq<T>, x: T, capacity: nat)
    ensures Newest(Newest(s, capacity) + [x], capacity) == Newest(s + [x], capacity)
  {
  }

  lemma {:induction false} WindowEnd<T>(s: seq<T>, capacity: nat)
    requires capacity > 0
    ensures Newest(s, capacity) == [] <==> s == []
    ensures s != [] ==> Newest(s, capacity)[|Newest(s, capacity)| - 1] == s[|s| - 1]
  {
  }

  function Pushed(q: seq<TradeTick>, t: TradeTick, capacity: nat): seq<TradeTick> {
    if q != [] && q[|q| - 1].tradeId == t.tradeId then q else Newest(q + [t], capacity)
  }

  lemma {:induction false} PushQueue(trades: map<string, seq<TradeTick>>, t: TradeTick, capacity: nat, id: string)
    ensures Queue(PushTrade(trades, t, capacity), id)
         == if id == t.tick.instrument then Pushed(Queue(trades, id), t, capacity) else Queue(trades, id)
  {
  }

  lemma {:induction false} WindowPush(s: seq<TradeTick>, t: TradeTick, capacity: nat)
    ensures Pushed(Newest(s, capacity), t, capacity)
         == Newest(if s != [] && s[|s| - 1].tradeId == t.tradeId then s else s + [t], capacity)
  {
    WindowSlides(s, t, capacity);
    if capacity > 0 {
      WindowEnd(s, capacity);
    }
  }

  /** Pushing a trade into the window on a log gives the window on the longer log. */
  lemma {:induction false} TradePush(log: seq<TradeTick>, t: TradeTick, capacity: nat)
    ensures Pushed(Newest(Squash(log), capacity), t, capacity) == Newest(Squash(log + [t]), capacity)
  {
    WindowPush(Squash(log), t, capacity);
    SquashSnoc(log, t);
    if log != [] {
      SquashEndsAlike(log);
    }
  }

  lemma {:induction false} TradeStep(p: Policy, k: Market, o: Operation, id: string, log: seq<TradeTick>)
    requires Queue(k.trades, id) == Newest(Squash(log), p.tradeCapacity)
    ensures Queue(NextTradeMap(p, k, o), id) == Newest(Squash(NextTrades(k.instruments, log, o, id)), p.tradeCapacity)
  {
    if o.Instruments? {
      assert Queue(NextTradeMap(p, k, o), id) == if id in ById(o.specs) then Queue(k.trades, id) else [];
    } else if o.Public? && o.public.Trade? && o.public.m.instrument in k.instruments {
      var t := TradeTick(o.public.tradeId, Unify(k.instruments[o.public.m.instrument], o.public.m));
      PushQueue(k.trades, t, p.tradeCapacity, id);
      TradePush(log, t, p.tradeCapacity);
    }
  }

  /** The trade queue is the newest part, up to the capacity, of the accepted trades without
      adjacent repeats. */
  lemma {:induction false} TradeQueueIsWindow(
    policy: Policy, specs: seq<InstrumentSpec>, os: seq<Operation>, id: string)
    ensures Queue(Run(NewState(policy, specs), os).market.trades, id)
         == Newest(Squash(TradeLog(specs, os, id)), policy.tradeCapacity)
  {
    if os != [] {
      var init := os[..|os| - 1];
      TradeQueueIsWindow(policy, specs, init, id);
      RunInstruments(policy, specs, init);
      var s := Run(NewState(policy, specs), init);
      MarketStep(s, os[|os| - 1]);
      NextParts(s.policy, s.market, os[|os| - 1]);
      TradeStep(s.policy, s.market, os[|os| - 1], id, TradeLog(specs, init, id));
    }
  }

  lemma {:induction false} LiquidationStep(p: Policy, k: Market, o: Operation, id: string, log: seq<Unified>)
    requires Queue(k.liquidations, id) == Newest(log, p.tradeCapacity)
    ensures Queue(NextLiquidationMap(p, k, o), id)
         == Newest(NextLiquidations(k.instruments, log, o, id), p.tradeCapacity)
  {
    if o.Public? && o.public.Liquidation? && id in k.instruments && o.public.m.instrument == id {
      WindowSlides(log, Unify(k.instruments[id], o.public.m), p.tradeCapacity);
    }
  }

  lemma {:induction false} LiquidationQueueIsWindow(
    policy: Policy, specs: seq<InstrumentSpec>, os: seq<Operation>, id: string)
    ensures Queue(Run(NewState(policy, specs), os).market.liquidations, id)
         == Newest(LiquidationLog(specs, os, id), policy.tradeCapacity)
  {
    if os != [] {
      var init := os[..|os| - 1];
      LiquidationQueueIsWindow(policy, specs, init, id);
      RunInstruments(policy, specs, init);
      var s := Run(NewState(policy, specs), init);
      MarketStep(s, os[|os| - 1]);
      NextParts(s.policy, s.market, os[|os| - 1]);
      LiquidationStep(s.policy, s.market, os[|os| - 1], id, LiquidationLog(specs, init, id));
    }
  }

  // ----- the account since a snapshot ---------------------------------------------------------

  function Positions(es: seq<PrivateEvent>): seq<Position> {
    if es == [] then []
    else if es[|es| - 1].PositionUpdate? then Positions(es[..|es| - 1]) + [es[|es| - 1].position]
    else Positions(es[..|es| - 1])
  }

  function Balances(es: seq<PrivateEvent>): seq<Balance> {
    if es == [] then []
    else if es[|es| - 1].BalanceUpdate? then Balances(es[..|es| - 1]) + [es[|es| - 1].balance]
    else Balances(es[..|es| - 1])
  }

  function Orders(es: seq<PrivateEvent>): seq<Order> {
    if es == [] then []
    else if es[|es| - 1].OrderUpdate? then Orders(es[..|es| - 1]) + [es[|es| - 1].order]
    else Orders(es[..|es| - 1])
  }

  function FillsIn(es: seq<PrivateEvent>): seq<Execution> {
    if es == [] then []
    else if es[|es| - 1].Fill? then FillsIn(es[..|es| - 1]) + [es[|es| - 1].execution]
    else FillsIn(es[..|es| - 1])
  }

  lemma {:induction false} CollectSnoc<T>(xs: seq<T>, ys: seq<T>, y: T, key: T -> string)
    ensures Collect(xs + (ys + [y]), key) == Collect(xs + ys, key)[key(y) := y]
  {
    assert (xs + (ys + [y]))[..|xs + ys|] == xs + ys;
  }

  lemma {:induction false} ExecutionsSnoc(q: seq<Execution>, es: seq<Execution>, e: Execution, capacity: nat)
    ensures PushExecutions(q, es + [e], capacity) == PushExecution(PushExecutions(q, es, capacity), e, capacity)
  {
    assert (es + [e])[..|es|] == es;
  }

  lemma {:induction false} LastPrivate(s: State, es: seq<PrivateEvent>)
    requires es != []
    ensures Run(s, Privates(es)) == ApplyPrivate(Run(s, Privates(es[..|es| - 1])), es[|es| - 1])
  {
    assert Privates(es)[..|es| - 1] == Privates(es[..|es| - 1]);
  }

  /** What a private event does to the account. */
  ghost predicate Extends(a: Account, b: Account, e: PrivateEvent, capacity: nat) {
    && b.positions == (if e.PositionUpdate? then a.positions[e.position.instrument := e.position] else a.positions)
    && b.orders == (if e.OrderUpdate? then a.orders[e.order.id := e.order] else a.orders)
    && b.balances == (if e.BalanceUpdate? then a.balances[e.balance.asset := e.balance] else a.balances)
    && b.executions == (if e.Fill? then PushExecution(a.executions, e.execution, capacity) else a.executions)
    && b.summary == a.summary
  }

  lemma {:induction false} PrivateExtends(s: State, e: PrivateEvent)
    ensures Extends(s.account, ApplyPrivate(s, e).account, e, s.policy.executionCapacity)
  {
  }

  /** `a` is the account that snapshot `x`, applied to `before`, and the events `es` make. */
  ghost predicate Extended(before: Account, x: PrivateSnapshot, es: seq<PrivateEvent>, capacity: nat, a: Account) {
    && a.positions == ByInstrument(x.positions + Positions(es))
    && a.orders == Settled(before.orders) + ByOrderId(x.openOrders + Orders(es))
    && a.executions == PushExecutions(before.executions, FillsIn(es), capacity)
    && (x.account.Some? ==>
          && a.balances == ByAsset(x.account.value.balances + Balances(es))
          && a.summary == x.account.value.summary)
  }

  lemma {:induction false} PositionsStep(xs: seq<Position>, es: seq<PrivateEvent>, p: Position)
    ensures ByInstrument(xs + Positions(es + [PositionUpdate(p)]))
         == ByInstrument(xs + Positions(es))[p.instrument := p]
  {
    assert (es + [PositionUpdate(p)])[..|es|] == es;
    CollectSnoc(xs, Positions(es), p, (y: Position) => y.instrument);
  }

  lemma {:induction false} OrdersStep(settled: map<string, Order>, xs: seq<Order>, es: seq<PrivateEvent>, o: Order)
    ensures settled + ByOrderId(xs + Orders(es + [OrderUpdate(o)])) == (settled + ByOrderId(xs + Orders(es)))[o.id := o]
  {
    assert (es + [OrderUpdate(o)])[..|es|] == es;
    CollectSnoc(xs, Orders(es), o, (y: Order) => y.id);
  }

  lemma {:induction false} BalancesStep(xs: seq<Balance>, es: seq<PrivateEvent>, b: Balance)
    ensures ByAsset(xs + Balances(es + [BalanceUpdate(b)])) == ByAsset(xs + Balances(es))[b.asset := b]
  {
    assert (es + [BalanceUpdate(b)])[..|es|] == es;
    CollectSnoc(xs, Balances(es), b, (y: Balance) => y.asset);
  }

  lemma {:induction false} FillsStep(q: seq<Execution>, es: seq<PrivateEvent>, f: Execution, capacity: nat)
    ensures PushExecutions(q, FillsIn(es + [Fill(f)]), capacity)
         == PushExecution(PushExecutions(q, FillsIn(es), capacity), f, capacity)
  {
    assert (es + [Fill(f)])[..|es|] == es;
    ExecutionsSnoc(q, FillsIn(es), f, capacity);
  }

  /** An event of another kind adds nothing. */
  lemma {:induction false} OthersUnchanged(es: seq<PrivateEvent>, e: PrivateEvent)
    ensures !e.PositionUpdate? ==> Positions(es + [e]) == Positions(es)
    ensures !e.OrderUpdate? ==> Orders(es + [e]) == Orders(es)
    ensures !e.BalanceUpdate? ==> Balances(es + [e]) == Balances(es)
    ensures !e.Fill? ==> FillsIn(es + [e]) == FillsIn(es)
  {
    assert (es + [e])[..|es|] == es;
  }

  lemma {:induction false} ExtendedStep(
    before: Account, x: PrivateSnapshot, es: seq<PrivateEvent>, e: PrivateEvent,
    capacity: nat, a: Account, b: Account)
    requires Extended(before, x, es, capacity, a) && Extends(a, b, e, capacity)
    ensures Extended(before, x, es + [e], capacity, b)
  {
    OthersUnchanged(es, e);
    if e.PositionUpdate? {
      PositionsStep(x.positions, es, e.position);
    } else if e.OrderUpdate? {
      OrdersStep(Settled(before.orders), x.openOrders, es, e.order);
    } else if e.Fill? {
      FillsStep(before.executions, es, e.execution, capacity);
    } else if e.BalanceUpdate? && x.account.Some? {
      BalancesStep(x.account.value.balances, es, e.balance);
    }
  }

  /** Updates after a snapshot extend it: for every key the account shows the last of the snapshot's
      entries and the updates since, fills join the execution queue in order, and the settled orders
      from before stay unless an entry replaces them. */
  lemma {:induction false} UpdatesExtendSnapshot(s: State, x: PrivateSnapshot, es: seq<PrivateEvent>)
    ensures var t := Run(ApplySnapshot(s, x), Privates(es));
            t.policy == s.policy && Extended(s.account, x, es, s.policy.executionCapacity, t.account)
  {
    SnapshotStep(s, x);
    if es == [] {
      assert x.positions + [] == x.positions && x.openOrders + [] == x.openOrders;
      if x.account.Some? {
        assert x.account.value.balances + [] == x.account.value.balances;
      }
    } else {
      var init, e := es[..|es| - 1], es[|es| - 1];
      var t := Run(ApplySnapshot(s, x), Privates(init));
      UpdatesExtendSnapshot(s, x, init);
      LastPrivate(ApplySnapshot(s, x), es);
      PrivateStep(t, e);
      PrivateExtends(t, e);
      ExtendedStep(s.account, x, init, e, s.policy.executionCapacity, t.account, ApplyPrivate(t, e).account);
      assert es == init + [e];
    }
  }

  // ----- health -------------------------------------------------------------------------------

  /** The newest of the timestamps, if there are any. */
  lemma {:induction false} LatestIsNewest<T>(xs: seq<T>, at: T -> int)
    ensures Latest(xs, at).None? <==> xs == []
    ensures Latest(xs, at).Some? ==> exists i :: 0 <= i < |xs| && at(xs[i]) == Latest(xs, at).value
    ensures Latest(xs, at).Some? ==> forall i :: 0 <= i < |xs| ==> at(xs[i]) <= Latest(xs, at).value
  {
    if xs != [] {
      var init := xs[..|xs| - 1];
      LatestIsNewest(init, at);
      assert forall i :: 0 <= i < |init| ==> xs[i] == init[i];
      if Latest(xs, at).value == at(xs[|xs| - 1]) {
        assert 0 <= |xs| - 1 < |xs|;
      } else {
        var i :| 0 <= i < |init| && at(init[i]) == Latest(init, at).value;
        assert at(xs[i]) == Latest(xs, at).value;
      }
    }
  }

  /** Without a summary the time of an account snapshot is the newest among the balances it leaves. */
  lemma {:induction false} BalanceTimeIsNewest(xs: seq<Balance>)
    ensures var kept, t := ByAsset(xs), LatestBalance(ByAsset(xs), xs);
            && (t.None? <==> xs == [])
            && (forall k :: k in kept ==> t.Some? && kept[k].at <= t.value)
            && (t.Some? ==> exists k :: k in kept && kept[k].at == t.value)
  {
    var kept := ByAsset(xs);
    var at := (b: Balance) => if b.asset in kept then kept[b.asset].at else b.at;
    LatestIsNewest(xs, at);
    forall k ensures k in kept <==> exists i :: 0 <= i < |xs| && xs[i].asset == k {
      EngineProperties.CollectLast(xs, (x: Balance) => x.asset, k);
    }
    forall k | k in kept ensures Latest(xs, at).Some? && kept[k].at <= Latest(xs, at).value {
      var i :| 0 <= i < |xs| && xs[i].asset == k;
      assert at(xs[i]) == kept[k].at;
    }
    if xs != [] {
      var i :| 0 <= i < |xs| && at(xs[i]) == Latest(xs, at).value;
      assert xs[i].asset in kept;
    }
  }

  /** A private message at this time, if there is one. */
  function Observation(at: Option<int>): seq<H.Event> {
    if at.Some? then [H.PrivateMessage(at.value)] else []
  }

  function PublicHealthEvents(known: map<string, InstrumentSpec>, e: PublicEvent): seq<H.Event> {
    match e
    case OrderBookDelta(_) => []
    case Divergence(d) => [if d.StateDivergence? then H.MarkStateDivergence else H.PublicGap]
    case FundingRate(m) => [H.PublicMessage(m.at)]
    case OpenInterest(m) => [H.PublicMessage(m.at)]
    case _ => if e.m.instrument in known then [H.PublicMessage(e.m.at)] else []
  }

  function PrivateHealthEvent(e: PrivateEvent): H.Event {
    match e
    case BalanceUpdate(b) => H.PrivateMessage(b.at)
    case PositionUpdate(p) => H.PrivateMessage(p.at)
    case OrderUpdate(o) => H.PrivateMessage(o.at)
    case Fill(x) => H.PrivateMessage(x.at)
    case PrivateDivergence(d) =>
      if d.ReconcileRequired? then H.MarkReconcileRequired
      else if d.SequenceGap? then H.PrivateGap
      else H.MarkStateDivergence
  }

  function AccountTime(a: AccountSnapshot): Option<int> {
    if a.summary.Some? then Some(a.summary.value.at) else LatestBalance(ByAsset(a.balances), a.balances)
  }

  function SnapshotHealthEvents(x: PrivateSnapshot): seq<H.Event> {
    (if x.account.Some? then Observation(AccountTime(x.account.value)) else [])
    + Observation(Latest(x.positions, (p: Position) => p.at))
    + Observation(Latest(x.openOrders, (o: Order) => o.at))
  }

  /** What an operation tells the health machine, given the instruments known before it. */
  function HealthEvents(known: map<string, InstrumentSpec>, o: Operation): seq<H.Event> {
    match o
    case Public(e) => PublicHealthEvents(known, e)
    case Private(e) => [PrivateHealthEvent(e)]
    case Executions(es) => Observation(Latest(es, (x: Execution) => x.at))
    case OrderHistory(os) => Observation(Latest(os, (x: Order) => x.at))
    case Snapshot(x) => SnapshotHealthEvents(x)
    case Instruments(_) => []
    case Receipt(status) => if status.UnknownExecution? then [H.MarkCommandUncertain] else []
    case Reconcile(outcome) =>
      [match outcome
       case Synchronized => H.ReconcileComplete
       case StillUncertain => H.MarkReconcileRequired
       case Diverged => H.MarkStateDivergence]
    case Transport(e) => [e]
  }

  function HealthTrace(specs: seq<InstrumentSpec>, os: seq<Operation>): seq<H.Event> {
    if os == [] then []
    else HealthTrace(specs, os[..|os| - 1]) + HealthEvents(Known(specs, os[..|os| - 1]), os[|os| - 1])
  }

  lemma {:induction false} AfterObservation(es: seq<H.Event>, at: Option<int>)
    ensures H.After(es + Observation(at)) == Observed(H.After(es), at)
  {
    if at.Some? {
      H.AfterSnoc(es, H.PrivateMessage(at.value));
    } else {
      assert es + [] == es;
    }
  }

  lemma {:induction false} AfterSnapshot(s: State, x: PrivateSnapshot, es: seq<H.Event>)
    requires s.health == H.After(es)
    ensures ApplySnapshot(s, x).health == H.After(es + SnapshotHealthEvents(x))
  {
    var first := if x.account.Some? then Observation(AccountTime(x.account.value)) else [];
    var second := Observation(Latest(x.positions, (p: Position) => p.at));
    var third := Observation(Latest(x.openOrders, (o: Order) => o.at));
    if x.account.Some? {
      AfterObservation(es, AccountTime(x.account.value));
    } else {
      assert es + first == es;
    }
    AfterObservation(es + first, Latest(x.positions, (p: Position) => p.at));
    AfterObservation(es + first + second, Latest(x.openOrders, (o: Order) => o.at));
    assert es + first + second + third == es + SnapshotHealthEvents(x);
  }

  lemma {:induction false} AfterPublic(s: State, e: PublicEvent, es: seq<H.Event>)
    requires s.health == H.After(es)
    ensures ApplyPublic(s, e).0.health == H.After(es + PublicHealthEvents(s.market.instruments, e))
  {
    var told := PublicHealthEvents(s.market.instruments, e);
    if told == [] {
      assert es + told == es;
    } else {
      H.AfterSnoc(es, told[0]);
      assert told == [told[0]];
    }
  }

  lemma {:induction false} AfterReceipt(s: State, status: CommandStatus, es: seq<H.Event>)
    requires s.health == H.After(es)
    ensures ApplyReceipt(s, status).health == H.After(es + HealthEvents(s.market.instruments, Receipt(status)))
  {
    H.AfterSnoc(es, H.MarkCommandUncertain);
    assert es + [] == es;
  }

  lemma {:induction false} AfterReconcile(s: State, outcome: ReconcileOutcome, es: seq<H.Event>)
    requires s.health == H.After(es)
    ensures ApplyReconcile(s, outcome).health == H.After(es + HealthEvents(s.market.instruments, Reconcile(outcome)))
  {
    H.AfterSnoc(es, HealthEvents(s.market.instruments, Reconcile(outcome))[0]);
  }

  lemma {:induction false} AfterPrivate(s: State, e: PrivateEvent, es: seq<H.Event>)
    requires s.health == H.After(es)
    ensures ApplyPrivate(s, e).health == H.After(es + [PrivateHealthEvent(e)])
  {
    H.AfterSnoc(es, PrivateHealthEvent(e));
  }

  lemma {:induction false} AfterOperation(s: State, o: Operation, es: seq<H.Event>)
    requires s.health == H.After(es)
    ensures Apply(s, o).health == H.After(es + HealthEvents(s.market.instruments, o))
  {
    match o
    case Public(e) => AfterPublic(s, e, es);
    case Private(e) => AfterPrivate(s, e, es);
    case Executions(xs) => AfterObservation(es, Latest(xs, (x: Execution) => x.at));
    case OrderHistory(os) => AfterObservation(es, Latest(os, (x: Order) => x.at));
    case Snapshot(x) => AfterSnapshot(s, x, es);
    case Instruments(_) => assert es + [] == es;
    case Receipt(status) => AfterReceipt(s, status, es);
    case Reconcile(outcome) => AfterReconcile(s, outcome, es);
    case Transport(e) => H.AfterSnoc(es, e);
  }

  /** Over every run the engine's health is that of the health machine after exactly the events the
      operations told it, so every whole-run property of health holds of it. */
  lemma {:induction false} EngineHealthIsARun(policy: Policy, specs: seq<InstrumentSpec>, os: seq<Operation>)
    ensures var h := Run(NewState(policy, specs), os).health;
            && h == H.After(HealthTrace(specs, os))
            && H.KnownPair(h.status, h.degradedReason)
            && (h.stateDivergence <==> H.DivergenceOpen(HealthTrace(specs, os)))
  {
    if os != [] {
      var s := Run(NewState(policy, specs), os[..|os| - 1]);
      EngineHealthIsARun(policy, specs, os[..|os| - 1]);
      RunInstruments(policy, specs, os[..|os| - 1]);
      AfterOperation(s, os[|os| - 1], HealthTrace(specs, os[..|os| - 1]));
    }
    H.RunInvariant(HealthTrace(specs, os));
  }
}
