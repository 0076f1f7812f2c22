/** The local state projection (crates/bat-markets-core/src/state.rs), as values: what every
    operation of `EngineState` does to the state. Payloads are reduced to the fields the state
    logic reads; `Unify` stands for the scaling of fast integers by the instrument's scale. */
module Engine {
  import opened Basics
  import H = Health

  datatype InstrumentSpec = InstrumentSpec(id: string, scale: nat)

  datatype Fast = Fast(instrument: string, value: int, at: int)
  datatype Unified = Unified(instrument: string, value: int, scale: nat, at: int)
  datatype TradeTick = TradeTick(tradeId: string, tick: Unified)

  datatype DivergenceEvent = ReconcileRequired | StateDivergence | SequenceGap

  datatype PublicEvent =
    | Ticker(m: Fast)
    | Trade(tradeId: string, m: Fast)
    | BookTop(m: Fast)
    | OrderBookDelta(m: Fast)
    | Kline(m: Fast)
    | MarkPrice(m: Fast)
    | FundingRate(m: Fast)
    | OpenInterest(m: Fast)
    | Liquidation(m: Fast)
    | Divergence(d: DivergenceEvent)

  datatype OrderStatus = New | PartiallyFilled | Filled | Canceled | Rejected | Expired | PendingCancel

  datatype Balance = Balance(asset: string, amount: int, at: int)
  datatype Summary = Summary(total: int, at: int)
  datatype Direction = Long | Short | Flat
  datatype Position = Position(instrument: string, direction: Direction, size: int, at: int)
  datatype Order = Order(id: string, instrument: string, status: OrderStatus, at: int)
  datatype Execution = Execution(id: string, instrument: string, quantity: int, at: int)

  datatype PrivateEvent =
    | BalanceUpdate(balance: Balance)
    | PositionUpdate(position: Position)
    | OrderUpdate(order: Order)
    | Fill(execution: Execution)
    | PrivateDivergence(d: DivergenceEvent)

  datatype AccountSnapshot = AccountSnapshot(balances: seq<Balance>, summary: Option<Summary>)
  datatype PrivateSnapshot = PrivateSnapshot(
    account: Option<AccountSnapshot>, positions: seq<Position>, openOrders: seq<Order>)

  datatype CommandStatus = Accepted | Refused | UnknownExecution
  datatype ReconcileOutcome = Synchronized | StillUncertain | Diverged

  datatype Policy = Policy(tradeCapacity: nat, executionCapacity: nat)

  datatype Market = Market(
    instruments: map<string, InstrumentSpec>,
    tickers: map<string, Unified>,
    trades: map<string, seq<TradeTick>>,
    bookTops: map<string, Unified>,
    klines: map<string, Unified>,
    markPrices: map<string, Unified>,
    fundingRates: map<string, Fast>,
    openInterest: map<string, Fast>,
    liquidations: map<string, seq<Unified>>)

  datatype Account = Account(
    balances: map<string, Balance>,
    summary: Option<Summary>,
    positions: map<string, Position>,
    orders: map<string, Order>,
    executions: seq<Execution>)

  datatype State = State(policy: Policy, market: Market, account: Account, health: H.Report)

  // ----- shared pieces ------------------------------------------------------------------------

  function Get<T>(m: map<string, T>, k: string): Option<T> {
    if k in m then Some(m[k]) else None
  }

  /** Collecting into a map: a later entry replaces an earlier one with the same key. */
  function Collect<T>(xs: seq<T>, key: T -> string): map<string, T> {
    if xs == [] then map[] else Collect(xs[..|xs| - 1], key)[key(xs[|xs| - 1]) := xs[|xs| - 1]]
  }

  function ById(xs: seq<InstrumentSpec>): map<string, InstrumentSpec> {
    Collect(xs, (x: InstrumentSpec) => x.id)
  }

  function ByAsset(xs: seq<Balance>): map<string, Balance> {
    Collect(xs, (x: Balance) => x.asset)
  }

  function ByInstrument(xs: seq<Position>): map<string, Position> {
    Collect(xs, (x: Position) => x.instrument)
  }

  function ByOrderId(xs: seq<Order>): map<string, Order> {
    Collect(xs, (x: Order) => x.id)
  }

  /** `while len > capacity { pop_front }`. */
  function Newest<T>(s: seq<T>, capacity: nat): seq<T> {
    if |s| > capacity then s[|s| - capacity..] else s
  }

  function Latest<T>(xs: seq<T>, at: T -> int): Option<int> {
    if xs == [] then None
    else
      var before, t := Latest(xs[..|xs| - 1], at), at(xs[|xs| - 1]);
      if before.Some? && before.value > t then before else Some(t)
  }

  /** The health effect of an update whose newest timestamp, if any, is `at`. */
  function Observed(h: H.Report, at: Option<int>): H.Report {
    if at.Some? then H.Next(h, H.PrivateMessage(at.value)) else h
  }

  function Unify(spec: InstrumentSpec, m: Fast): Unified {
    Unified(m.instrument, m.value, spec.scale, m.at)
  }

  // ----- public events ------------------------------------------------------------------------

  function PushTrade(trades: map<string, seq<TradeTick>>, t: TradeTick, capacity: nat): map<string, seq<TradeTick>> {
    var id := t.tick.instrument;
    var entry := if id in trades then trades[id] else [];
    if entry != [] && entry[|entry| - 1].tradeId == t.tradeId then trades[id := entry]
    else trades[id := Newest(entry + [t], capacity)]
  }

  function PushLiquidation(queues: map<string, seq<Unified>>, u: Unified, capacity: nat): map<string, seq<Unified>> {
    var entry := if u.instrument in queues then queues[u.instrument] else [];
    queues[u.instrument := Newest(entry + [u], capacity)]
  }

  /** The market part of `apply_public_event`; `None` is the unknown-instrument error. */
  function ApplyMarket(p: Policy, k: Market, e: PublicEvent): Option<Market> {
    match e
    case Ticker(m) =>
      if m.instrument !in k.instruments then None
      else Some(k.(tickers := k.tickers[m.instrument := Unify(k.instruments[m.instrument], m)]))
    case Trade(tradeId, m) =>
      if m.instrument !in k.instruments then None
      else Some(k.(trades :=
          PushTrade(k.trades, TradeTick(tradeId, Unify(k.instruments[m.instrument], m)), p.tradeCapacity)))
    case BookTop(m) =>
      if m.instrument !in k.instruments then None
      else Some(k.(bookTops := k.bookTops[m.instrument := Unify(k.instruments[m.instrument], m)]))
    case OrderBookDelta(_) => Some(k)
    case Kline(m) =>
      if m.instrument !in k.instruments then None
      else Some(k.(klines := k.klines[m.instrument := Unify(k.instruments[m.instrument], m)]))
    case MarkPrice(m) =>
      if m.instrument !in k.instruments then None
      else Some(k.(markPrices := k.markPrices[m.instrument := Unify(k.instruments[m.instrument], m)]))
    case FundingRate(m) => Some(k.(fundingRates := k.fundingRates[m.instrument := m]))
    case OpenInterest(m) => Some(k.(openInterest := k.openInterest[m.instrument := m]))
    case Liquidation(m) =>
      if m.instrument !in k.instruments then None
      else Some(k.(liquidations :=
          PushLiquidation(k.liquidations, Unify(k.instruments[m.instrument], m), p.tradeCapacity)))
    case Divergence(_) => Some(k)
  }

  function PublicHealth(h: H.Report, e: PublicEvent): H.Report {
    match e
    case OrderBookDelta(_) => h
    case Divergence(d) =>
      if d.StateDivergence? then H.Next(h, H.MarkStateDivergence) else H.Next(h, H.PublicGap)
    case _ => H.Next(h, H.PublicMessage(e.m.at))
  }

  /** `apply_public_event`: on an error nothing has changed. */
  function ApplyPublic(s: State, e: PublicEvent): (State, bool) {
    match ApplyMarket(s.policy, s.market, e)
    case None => (s, false)
    case Some(k) => (s.(market := k, health := PublicHealth(s.health, e)), true)
  }

  // ----- private events -----------------------------------------------------------------------

  predicate KnownExecution(q: seq<Execution>, id: string) {
    exists i :: 0 <= i < |q| && q[i].id == id
  }

  function PushExecution(q: seq<Execution>, e: Execution, capacity: nat): seq<Execution> {
    if KnownExecution(q, e.id) then q else Newest(q + [e], capacity)
  }

  function PushExecutions(q: seq<Execution>, es: seq<Execution>, capacity: nat): seq<Execution> {
    if es == [] then q else PushExecution(PushExecutions(q, es[..|es| - 1], capacity), es[|es| - 1], capacity)
  }

  function ApplyPrivate(s: State, e: PrivateEvent): State {
    match e
    case BalanceUpdate(b) =>
      s.(account := s.account.(balances := s.account.balances[b.asset := b]), health := Observed(s.health, Some(b.at)))
    case PositionUpdate(p) =>
      s.(account := s.account.(positions := s.account.positions[p.instrument := p]),
         health := Observed(s.health, Some(p.at)))
    case OrderUpdate(o) =>
      s.(account := s.account.(orders := s.account.orders[o.id := o]), health := Observed(s.health, Some(o.at)))
    case Fill(x) =>
      s.(account := s.account.(executions := PushExecution(s.account.executions, x, s.policy.executionCapacity)),
         health := Observed(s.health, Some(x.at)))
    case PrivateDivergence(d) =>
      s.(health := match d
         case ReconcileRequired => H.Next(s.health, H.MarkReconcileRequired)
         case SequenceGap => H.Next(s.health, H.PrivateGap)
         case StateDivergence => H.Next(s.health, H.MarkStateDivergence))
  }

  function MergeExecutions(s: State, es: seq<Execution>): State {
    s.(account := s.account.(executions := PushExecutions(s.account.executions, es, s.policy.executionCapacity)),
       health := Observed(s.health, Latest(es, (x: Execution) => x.at)))
  }

  function MergeOrderHistory(s: State, os: seq<Order>): State {
    s.(account := s.account.(orders := s.account.orders + ByOrderId(os)),
       health := Observed(s.health, Latest(os, (o: Order) => o.at)))
  }

  // ----- snapshots ----------------------------------------------------------------------------

  predicate IsOpen(o: Order) {
    o.status.New? || o.status.PartiallyFilled?
  }

  function Settled(orders: map<string, Order>): map<string, Order> {
    map k | k in orders && !IsOpen(orders[k]) :: orders[k]
  }

  /** `open_orders`. */
  function OpenOrders(orders: map<string, Order>): map<string, Order> {
    map k | k in orders && IsOpen(orders[k]) :: orders[k]
  }

  /** The newest timestamp among the balances kept, asset by asset. */
  function LatestBalance(balances: map<string, Balance>, xs: seq<Balance>): Option<int> {
    Latest(xs, (b: Balance) => if b.asset in balances then balances[b.asset].at else b.at)
  }

  function ReplaceAccount(s: State, a: AccountSnapshot): State {
    var balances := ByAsset(a.balances);
    var at := if a.summary.Some? then Some(a.summary.value.at) else LatestBalance(balances, a.balances);
    s.(account := s.account.(balances := balances, summary := a.summary), health := Observed(s.health, at))
  }

  function ReplacePositions(s: State, ps: seq<Position>): State {
    s.(account := s.account.(positions := ByInstrument(ps)),
       health := Observed(s.health, Latest(ps, (p: Position) => p.at)))
  }

  function ReplaceOpenOrders(s: State, os: seq<Order>): State {
    s.(account := s.account.(orders := Settled(s.account.orders) + ByOrderId(os)),
       health := Observed(s.health, Latest(os, (o: Order) => o.at)))
  }

  function ApplySnapshot(s: State, snapshot: PrivateSnapshot): State {
    var withAccount := if snapshot.account.Some? then ReplaceAccount(s, snapshot.account.value) else s;
    ReplaceOpenOrders(ReplacePositions(withAccount, snapshot.positions), snapshot.openOrders)
  }

  // ----- instruments, commands, reconcile -----------------------------------------------------

  function Restrict<T>(m: map<string, T>, keys: set<string>): map<string, T> {
    map k | k in m && k in keys :: m[k]
  }

  function Prune(k: Market): Market {
    var keys := k.instruments.Keys;
    Market(k.instruments, Restrict(k.tickers, keys), Restrict(k.trades, keys), Restrict(k.bookTops, keys),
           Restrict(k.klines, keys), Restrict(k.markPrices, keys), Restrict(k.fundingRates, keys),
           Restrict(k.openInterest, keys), Restrict(k.liquidations, keys))
  }

  function ReplaceInstruments(s: State, specs: seq<InstrumentSpec>): State {
    s.(market := Prune(s.market.(instruments := ById(specs))))
  }

  function ApplyReceipt(s: State, status: CommandStatus): State {
    if status.UnknownExecution? then s.(health := H.Next(s.health, H.MarkCommandUncertain)) else s
  }

  function ApplyReconcile(s: State, outcome: ReconcileOutcome): State {
    s.(health := match outcome
       case Synchronized => H.Next(s.health, H.ReconcileComplete)
       case StillUncertain => H.Next(s.health, H.MarkReconcileRequired)
       case Diverged => H.Next(s.health, H.MarkStateDivergence))
  }

  function NewState(policy: Policy, specs: seq<InstrumentSpec>): State {
    State(policy,
          Market(ById(specs), map[], map[], map[], map[], map[], map[], map[], map[]),
          Account(map[], None, map[], map[], []),
          H.DEFAULT)
  }

  // ----- runs ---------------------------------------------------------------------------------

  datatype Operation =
    | Public(public: PublicEvent)
    | Private(private: PrivateEvent)
    | Executions(executions: seq<Execution>)
    | OrderHistory(orders: seq<Order>)
    | Snapshot(snapshot: PrivateSnapshot)
    | Instruments(specs: seq<InstrumentSpec>)
    | Receipt(status: CommandStatus)
    | Reconcile(outcome: ReconcileOutcome)
    | Transport(event: H.Event)

  function Apply(s: State, o: Operation): State {
    match o
    case Public(e) => ApplyPublic(s, e).0
    case Private(e) => ApplyPrivate(s, e)
    case Executions(es) => MergeExecutions(s, es)
    case OrderHistory(os) => MergeOrderHistory(s, os)
    case Snapshot(x) => ApplySnapshot(s, x)
    case Instruments(specs) => ReplaceInstruments(s, specs)
    case Receipt(status) => ApplyReceipt(s, status)
    case Reconcile(outcome) => ApplyReconcile(s, outcome)
    case Transport(e) => s.(health := H.Next(s.health, e))
  }

  function Run(s: State, os: seq<Operation>): State {
    if os == [] then s else Apply(Run(s, os[..|os| - 1]), os[|os| - 1])
  }

  function Privates(es: seq<PrivateEvent>): seq<Operation> {
    seq(|es|, i requires 0 <= i < |es| => Private(es[i]))
  }

  function Publics(es: seq<PublicEvent>): seq<Operation> {
    seq(|es|, i requires 0 <= i < |es| => Public(es[i]))
  }
}
