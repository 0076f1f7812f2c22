/** What the account of a reachable engine state holds, as a function of the list of operations alone:
    for every key the last entry that named it, unless a snapshot has dropped it since, and every fill
    in order of arrival. */
module AccountHistory {
  import opened Basics
  import opened Engine
  import EngineProperties

  /** The last entry with this key. */
  function LastWith<T>(xs: seq<T>, key: T -> string, k: string): Option<T> {
    if xs == [] then None
    else if key(xs[|xs| - 1]) == k then Some(xs[|xs| - 1])
    else LastWith(xs[..|xs| - 1], key, k)
  }

  lemma {:induction false} CollectIsLast<T>(xs: seq<T>, key: T -> string, k: string)
    ensures Get(Collect(xs, key), k) == LastWith(xs, key, k)
  {
    if xs != [] {
      CollectIsLast(xs[..|xs| - 1], key, k);
    }
  }

  function LastOrder(xs: seq<Order>, id: string): Option<Order> {
    LastWith(xs, (o: Order) => o.id, id)
  }

  function LastPosition(xs: seq<Position>, instrument: string): Option<Position> {
    LastWith(xs, (p: Position) => p.instrument, instrument)
  }

  function LastBalance(xs: seq<Balance>, asset: string): Option<Balance> {
    LastWith(xs, (b: Balance) => b.asset, asset)
  }

  lemma CollectedOrders(xs: seq<Order>, id: string)
    ensures Get(ByOrderId(xs), id) == LastOrder(xs, id)
  {
    CollectIsLast(xs, (o: Order) => o.id, id);
  }

  lemma CollectedPositions(xs: seq<Position>, instrument: string)
    ensures Get(ByInstrument(xs), instrument) == LastPosition(xs, instrument)
  {
    CollectIsLast(xs, (p: Position) => p.instrument, instrument);
  }

  lemma CollectedBalances(xs: seq<Balance>, asset: string)
    ensures Get(ByAsset(xs), asset) == LastBalance(xs, asset)
  {
    CollectIsLast(xs, (b: Balance) => b.asset, asset);
  }

  function Else<T>(first: Option<T>, second: Option<T>): Option<T> {
    if first.Some? then first else second
  }

  // ----- what one operation does to the account -----------------------------------------------

  function PrivateAccount(capacity: nat, a: Account, e: PrivateEvent): Account {
    match e
    case BalanceUpdate(b) => a.(balances := a.balances[b.asset := b])
    case PositionUpdate(p) => a.(positions := a.positions[p.instrument := p])
    case OrderUpdate(o) => a.(orders := a.orders[o.id := o])
    case Fill(x) => a.(executions := PushExecution(a.executions, x, capacity))
    case PrivateDivergence(_) => a
  }

  function SnapshotAccount(a: Account, x: PrivateSnapshot): Account {
    Account(
      if x.account.Some? then ByAsset(x.account.value.balances) else a.balances,
      if x.account.Some? then x.account.value.summary else a.summary,
      ByInstrument(x.positions),
      Settled(a.orders) + ByOrderId(x.openOrders),
      a.executions)
  }

  function NextAccount(capacity: nat, a: Account, o: Operation): Account {
    match o
    case Private(e) => PrivateAccount(capacity, a, e)
    case Executions(es) => a.(executions := PushExecutions(a.executions, es, capacity))
    case OrderHistory(os) => a.(orders := a.orders + ByOrderId(os))
    case Snapshot(x) => SnapshotAccount(a, x)
    case _ => a
  }

  lemma PrivateStep(s: State, e: PrivateEvent)
    ensures ApplyPrivate(s, e).account == PrivateAccount(s.policy.executionCapacity, s.account, e)
    ensures ApplyPrivate(s, e).policy == s.policy
  {
  }

  lemma SnapshotStep(s: State, x: PrivateSnapshot)
    ensures ApplySnapshot(s, x).account == SnapshotAccount(s.account, x) && ApplySnapshot(s, x).policy == s.policy
  {
  }

  lemma AccountStep(s: State, o: Operation)
    ensures Apply(s, o).account == NextAccount(s.policy.executionCapacity, s.account, o)
    ensures Apply(s, o).policy == s.policy
  {
    if o.Private? {
      PrivateStep(s, o.private);
    } else if o.Snapshot? {
      SnapshotStep(s, o.snapshot);
    }
  }

  // ----- orders -------------------------------------------------------------------------------

  /** The statuses of an order that is still in the book. */
  predicate StillOpen(o: Order) {
    o.status in {New, PartiallyFilled}
  }

  /** One operation's word on the order `id`: an update or the history names it, or a snapshot does;
      an open order that a snapshot does not name is gone. */
  function NextOrder(before: Option<Order>, o: Operation, id: string): Option<Order> {
    match o
    case Private(e) => if e.OrderUpdate? && e.order.id == id then Some(e.order) else before
    case OrderHistory(os) => Else(LastOrder(os, id), before)
    case Snapshot(x) =>
      Else(LastOrder(x.openOrders, id), if before.Some? && StillOpen(before.value) then None else before)
    case _ => before
  }

  function OrderShown(os: seq<Operation>, id: string): Option<Order> {
    if os == [] then None else NextOrder(OrderShown(os[..|os| - 1], id), os[|os| - 1], id)
  }

  lemma OrderStep(capacity: nat, a: Account, o: Operation, id: string)
    ensures Get(NextAccount(capacity, a, o).orders, id) == NextOrder(Get(a.orders, id), o, id)
  {
    if o.OrderHistory? {
      CollectedOrders(o.orders, id);
    } else if o.Snapshot? {
      CollectedOrders(o.snapshot.openOrders, id);
    }
  }

  /** Over every run: the last order with the id among updates, history and snapshots, absent if it
      was open and a later snapshot does not name it. */
  lemma {:induction false} OrdersFollowHistory(
    policy: Policy, specs: seq<InstrumentSpec>, os: seq<Operation>, id: string)
    ensures Get(Run(NewState(policy, specs), os).account.orders, id) == OrderShown(os, id)
  {
    if os != [] {
      var s, o := Run(NewState(policy, specs), os[..|os| - 1]), os[|os| - 1];
      OrdersFollowHistory(policy, specs, os[..|os| - 1], id);
      AccountStep(s, o);
      OrderStep(s.policy.executionCapacity, s.account, o, id);
    }
  }

  /** And the open orders are those of them that are new or partially filled. */
  lemma OpenOrdersFollowHistory(policy: Policy, specs: seq<InstrumentSpec>, os: seq<Operation>, id: string)
    ensures var shown := OrderShown(os, id);
            Get(OpenOrders(Run(NewState(policy, specs), os).account.orders), id)
            == if shown.Some? && StillOpen(shown.value) then shown else None
  {
    OrdersFollowHistory(policy, specs, os, id);
  }

  // ----- positions, balances, summary ---------------------------------------------------------

  function NextPosition(before: Option<Position>, o: Operation, instrument: string): Option<Position> {
    match o
    case Private(e) => if e.PositionUpdate? && e.position.instrument == instrument then Some(e.position) else before
    case Snapshot(x) => LastPosition(x.positions, instrument)
    case _ => before
  }

  function PositionShown(os: seq<Operation>, instrument: string): Option<Position> {
    if os == [] then None else NextPosition(PositionShown(os[..|os| - 1], instrument), os[|os| - 1], instrument)
  }

  function NextBalance(before: Option<Balance>, o: Operation, asset: string): Option<Balance> {
    match o
    case Private(e) => if e.BalanceUpdate? && e.balance.asset == asset then Some(e.balance) else before
    case Snapshot(x) => if x.account.Some? then LastBalance(x.account.value.balances, asset) else before
    case _ => before
  }

  function BalanceShown(os: seq<Operation>, asset: string): Option<Balance> {
    if os == [] then None else NextBalance(BalanceShown(os[..|os| - 1], asset), os[|os| - 1], asset)
  }

  function SummaryShown(os: seq<Operation>): Option<Summary> {
    if os == [] then None
    else
      var o := os[|os| - 1];
      if o.Snapshot? && o.snapshot.account.Some? then o.snapshot.account.value.summary
      else SummaryShown(os[..|os| - 1])
  }

  lemma PositionStep(capacity: nat, a: Account, o: Operation, instrument: string)
    ensures Get(NextAccount(capacity, a, o).positions, instrument)
         == NextPosition(Get(a.positions, instrument), o, instrument)
  {
    if o.Snapshot? {
      CollectedPositions(o.snapshot.positions, instrument);
    }
  }

  lemma BalanceStep(capacity: nat, a: Account, o: Operation, asset: string)
    ensures Get(NextAccount(capacity, a, o).balances, asset) == NextBalance(Get(a.balances, asset), o, asset)
  {
    if o.Snapshot? && o.snapshot.account.Some? {
      CollectedBalances(o.snapshot.account.value.balances, asset);
    }
  }

  lemma SummaryStep(capacity: nat, a: Account, o: Operation)
    ensures NextAccount(capacity, a, o).summary
         == if o.Snapshot? && o.snapshot.account.Some? then o.snapshot.account.value.summary else a.summary
  {
  }

  /** Over every run: updates since the last snapshot, on top of that snapshot. */
  lemma {:induction false} PositionsFollowHistory(
    policy: Policy, specs: seq<InstrumentSpec>, os: seq<Operation>, instrument: string)
    ensures Get(Run(NewState(policy, specs), os).account.positions, instrument) == PositionShown(os, instrument)
  {
    if os != [] {
      var s, o := Run(NewState(policy, specs), os[..|os| - 1]), os[|os| - 1];
      PositionsFollowHistory(policy, specs, os[..|os| - 1], instrument);
      AccountStep(s, o);
      PositionStep(s.policy.executionCapacity, s.account, o, instrument);
    }
  }

  /** Likewise, since the last snapshot that has an account part. */
  lemma {:induction false} BalancesFollowHistory(
    policy: Policy, specs: seq<InstrumentSpec>, os: seq<Operation>, asset: string)
    ensures Get(Run(NewState(policy, specs), os).account.balances, asset) == BalanceShown(os, asset)
    ensures Run(NewState(policy, specs), os).account.summary == SummaryShown(os)
  {
    if os != [] {
      var s, o := Run(NewState(policy, specs), os[..|os| - 1]), os[|os| - 1];
      BalancesFollowHistory(policy, specs, os[..|os| - 1], asset);
      AccountStep(s, o);
      BalanceStep(s.policy.executionCapacity, s.account, o, asset);
      SummaryStep(s.policy.executionCapacity, s.account, o);
    }
  }

  // ----- executions ---------------------------------------------------------------------------

  /** Every execution that arrived, alone or in a batch, in order. */
  function FillLog(os: seq<Operation>): seq<Execution> {
    if os == [] then []
    else
      var o := os[|os| - 1];
      if o.Executions? then FillLog(os[..|os| - 1]) + o.executions
      else if o.Private? && o.private.Fill? then FillLog(os[..|os| - 1]) + [o.private.execution]
      else FillLog(os[..|os| - 1])
  }

  /** Over every run the queue is that of pushing them one by one. */
  lemma {:induction false} ExecutionsFollowHistory(policy: Policy, specs: seq<InstrumentSpec>, os: seq<Operation>)
    ensures Run(NewState(policy, specs), os).account.executions
         == PushExecutions([], FillLog(os), policy.executionCapacity)
    ensures Run(NewState(policy, specs), os).policy == policy
  {
    if os != [] {
      var init, o := os[..|os| - 1], os[|os| - 1];
      var s := Run(NewState(policy, specs), init);
      ExecutionsFollowHistory(policy, specs, init);
      AccountStep(s, o);
      if o.Executions? {
        EngineProperties.PushExecutionsConcat([], FillLog(init), o.executions, policy.executionCapacity);
      } else if o.Private? && o.private.Fill? {
        OnePush(FillLog(init), o.private.execution, policy.executionCapacity);
      }
    }
  }

  lemma OnePush(es: seq<Execution>, e: Execution, capacity: nat)
    ensures PushExecutions([], es + [e], capacity) == PushExecution(PushExecutions([], es, capacity), e, capacity)
  {
    assert (es + [e])[..|es|] == es;
  }
}
