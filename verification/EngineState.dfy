/** `EngineState` as the code updates it: one object whose maps and queues the methods change
    (crates/bat-markets-core/src/state.rs). Every method is tied to its effect in `Engine`. */
module EngineStates {
  import opened Basics
  import H = Health
  import opened Engine

  /** `while len > capacity { pop_front }`. */
  method EvictOldest<T>(q: seq<T>, capacity: nat) returns (r: seq<T>)
    ensures r == Newest(q, capacity)
  {
    r := q;
    while |r| > capacity
      invariant |r| <= |q| && r == q[|q| - |r|..]
      invariant |r| < |q| ==> capacity <= |r|
    {
      r := r[1..];
    }
  }

  class EngineState {
    const policy: Policy
    var instruments: map<string, InstrumentSpec>
    var tickers: map<string, Unified>
    var trades: map<string, seq<TradeTick>>
    var bookTops: map<string, Unified>
    var klines: map<string, Unified>
    var markPrices: map<string, Unified>
    var fundingRates: map<string, Fast>
    var openInterest: map<string, Fast>
    var liquidations: map<string, seq<Unified>>
    var balances: map<string, Balance>
    var summary: Option<Summary>
    var positions: map<string, Position>
    var orders: map<string, Order>
    var executions: seq<Execution>
    const health: H.HealthReport

    function MarketView(): Market
      reads this
    {
      Market(instruments, tickers, trades, bookTops, klines, markPrices, fundingRates, openInterest, liquidations)
    }

    function AccountView(): Account
      reads this
    {
      Account(balances, summary, positions, orders, executions)
    }

    function View(): State
      reads this, health
    {
      State(policy, MarketView(), AccountView(), health.View())
    }

    constructor (policy: Policy, specs: seq<InstrumentSpec>)
      ensures View() == NewState(policy, specs) && fresh(health)
    {
      this.policy := policy;
      instruments := ById(specs);
      tickers, trades, bookTops, klines, markPrices := map[], map[], map[], map[], map[];
      fundingRates, openInterest, liquidations := map[], map[], map[];
      balances, summary, positions, orders, executions := map[], None, map[], map[], [];
      health := new H.HealthReport();
    }

    /** The newest timestamp of an update, if it has one, counts as a private message. */
    method ObserveLatest(at: Option<int>)
      modifies health
      ensures health.View() == Observed(old(health.View()), at)
    {
      if at.Some? {
        health.ObservePrivateMessage(at.value);
      }
    }

    method ApplyFastTicker(m: Fast) returns (ok: bool)
      modifies this`tickers, health
      ensures (View(), ok) == ApplyPublic(old(View()), Ticker(m))
    {
      if m.instrument !in instruments {
        return false;
      }
      health.ObservePublicMessage(m.at);
      tickers := tickers[m.instrument := Unify(instruments[m.instrument], m)];
      ok := true;
    }

    method ApplyFastTrade(tradeId: string, m: Fast) returns (ok: bool)
      modifies this`trades, health
      ensures (View(), ok) == ApplyPublic(old(View()), Trade(tradeId, m))
    {
      if m.instrument !in instruments {
        return false;
      }
      var unified := TradeTick(tradeId, Unify(instruments[m.instrument], m));
      health.ObservePublicMessage(m.at);
      var entry := if m.instrument in trades then trades[m.instrument] else [];
      if entry == [] || entry[|entry| - 1].tradeId != unified.tradeId {
        entry := EvictOldest(entry + [unified], policy.tradeCapacity);
      }
      trades := trades[m.instrument := entry];
      ok := true;
    }

    method ApplyFastBookTop(m: Fast) returns (ok: bool)
      modifies this`bookTops, health
      ensures (View(), ok) == ApplyPublic(old(View()), BookTop(m))
    {
      if m.instrument !in instruments {
        return false;
      }
      health.ObservePublicMessage(m.at);
      bookTops := bookTops[m.instrument := Unify(instruments[m.instrument], m)];
      ok := true;
    }

    method ApplyFastKline(m: Fast) returns (ok: bool)
      modifies this`klines, health
      ensures (View(), ok) == ApplyPublic(old(View()), Kline(m))
    {
      if m.instrument !in instruments {
        return false;
      }
      health.ObservePublicMessage(m.at);
      klines := klines[m.instrument := Unify(instruments[m.instrument], m)];
      ok := true;
    }

    method ApplyFastMarkPrice(m: Fast) returns (ok: bool)
      modifies this`markPrices, health
      ensures (View(), ok) == ApplyPublic(old(View()), MarkPrice(m))
    {
      if m.instrument !in instruments {
        return false;
      }
      health.ObservePublicMessage(m.at);
      markPrices := markPrices[m.instrument := Unify(instruments[m.instrument], m)];
      ok := true;
    }

    method ApplyFastLiquidation(m: Fast) returns (ok: bool)
      modifies this`liquidations, health
      ensures (View(), ok) == ApplyPublic(old(View()), Liquidation(m))
    {
      if m.instrument !in instruments {
        return false;
      }
      health.ObservePublicMessage(m.at);
      var entry := if m.instrument in liquidations then liquidations[m.instrument] else [];
      entry := EvictOldest(entry + [Unify(instruments[m.instrument], m)], policy.tradeCapacity);
      liquidations := liquidations[m.instrument := entry];
      ok := true;
    }

    method ApplyUnchecked(e: PublicEvent)
      requires e.FundingRate? || e.OpenInterest? || e.Divergence?
      modifies this`fundingRates, this`openInterest, health
      ensures (View(), true) == ApplyPublic(old(View()), e)
    {
      match e {
        case FundingRate(m) =>
          health.ObservePublicMessage(m.at);
          fundingRates := fundingRates[m.instrument := m];
        case OpenInterest(m) =>
          health.ObservePublicMessage(m.at);
          openInterest := openInterest[m.instrument := m];
        case Divergence(d) =>
          if d.StateDivergence? {
            health.MarkDivergence();
          } else {
            health.MarkPublicGap();
          }
      }
    }

    method ApplyPublicEvent(e: PublicEvent) returns (ok: bool)
      modifies this, health
      ensures (View(), ok) == ApplyPublic(old(View()), e)
    {
      ok := true;
      match e {
        case Ticker(m) => ok := ApplyFastTicker(m);
        case Trade(tradeId, m) => ok := ApplyFastTrade(tradeId, m);
        case BookTop(m) => ok := ApplyFastBookTop(m);
        case OrderBookDelta(_) =>
        case Kline(m) => ok := ApplyFastKline(m);
        case MarkPrice(m) => ok := ApplyFastMarkPrice(m);
        case FundingRate(_) => ApplyUnchecked(e);
        case OpenInterest(_) => ApplyUnchecked(e);
        case Liquidation(m) => ok := ApplyFastLiquidation(m);
        case Divergence(_) => ApplyUnchecked(e);
      }
    }

    /** The duplicate scan, the push and the eviction of one execution. */
    method AdmitExecution(x: Execution)
      modifies this`executions
      ensures executions == PushExecution(old(executions), x, policy.executionCapacity)
    {
      for i := 0 to |executions|
        invariant executions == old(executions)
        invariant forall j :: 0 <= j < i ==> executions[j].id != x.id
      {
        if executions[i].id == x.id {
          return;
        }
      }
      executions := EvictOldest(executions + [x], policy.executionCapacity);
    }

    method ApplyPrivateEvent(e: PrivateEvent)
      modifies this, health
      ensures View() == ApplyPrivate(old(View()), e)
    {
      match e {
        case BalanceUpdate(b) =>
          health.ObservePrivateMessage(b.at);
          balances := balances[b.asset := b];
        case PositionUpdate(p) =>
          health.ObservePrivateMessage(p.at);
          positions := positions[p.instrument := p];
        case OrderUpdate(o) =>
          health.ObservePrivateMessage(o.at);
          orders := orders[o.id := o];
        case Fill(x) =>
          health.ObservePrivateMessage(x.at);
          AdmitExecution(x);
        case PrivateDivergence(d) =>
          match d {
            case ReconcileRequired => health.MarkNeedsReconcile();
            case SequenceGap => health.MarkPrivateGap();
            case StateDivergence => health.MarkDivergence();
          }
      }
    }

    method MergeExecutionBatch(es: seq<Execution>)
      modifies this`executions, health
      ensures View() == MergeExecutions(old(View()), es)
    {
      var at := Latest(es, (x: Execution) => x.at);
      for i := 0 to |es|
        invariant health.View() == old(health.View())
        invariant executions == PushExecutions(old(executions), es[..i], policy.executionCapacity)
      {
        assert es[..i + 1][..i] == es[..i];
        AdmitExecution(es[i]);
      }
      assert es[..|es|] == es;
      ObserveLatest(at);
    }

    method InsertOrders(os: seq<Order>)
      modifies this`orders
      ensures orders == old(orders) + ByOrderId(os)
    {
      for i := 0 to |os|
        invariant orders == old(orders) + ByOrderId(os[..i])
      {
        assert os[..i + 1][..i] == os[..i];
        orders := orders[os[i].id := os[i]];
      }
      assert os[..|os|] == os;
    }

    method MergeOrders(os: seq<Order>)
      modifies this`orders, health
      ensures View() == MergeOrderHistory(old(View()), os)
    {
      InsertOrders(os);
      ObserveLatest(Latest(os, (o: Order) => o.at));
    }

    method ReplaceOpen(os: seq<Order>)
      modifies this`orders, health
      ensures View() == ReplaceOpenOrders(old(View()), os)
    {
      orders := map k | k in orders && !IsOpen(orders[k]) :: orders[k];
      InsertOrders(os);
      ObserveLatest(Latest(os, (o: Order) => o.at));
    }

    method ReplaceAccountSnapshot(a: AccountSnapshot)
      modifies this`balances, this`summary, health
      ensures View() == ReplaceAccount(old(View()), a)
    {
      balances := ByAsset(a.balances);
      summary := a.summary;
      ObserveLatest(if summary.Some? then Some(summary.value.at) else LatestBalance(balances, a.balances));
    }

    method ReplacePositionsSnapshot(ps: seq<Position>)
      modifies this`positions, health
      ensures View() == ReplacePositions(old(View()), ps)
    {
      positions := ByInstrument(ps);
      ObserveLatest(Latest(ps, (p: Position) => p.at));
    }

    method ApplyPrivateSnapshot(x: PrivateSnapshot)
      modifies this, health
      ensures View() == ApplySnapshot(old(View()), x)
    {
      if x.account.Some? {
        ReplaceAccountSnapshot(x.account.value);
      }
      ReplacePositionsSnapshot(x.positions);
      ReplaceOpen(x.openOrders);
    }

    method PruneOrphanMarketState()
      modifies this`tickers, this`trades, this`bookTops, this`klines,
               this`markPrices, this`fundingRates, this`openInterest, this`liquidations
      ensures MarketView() == Prune(old(MarketView()))
    {
      var keys := instruments.Keys;
      tickers, trades, bookTops := Restrict(tickers, keys), Restrict(trades, keys), Restrict(bookTops, keys);
      klines, markPrices := Restrict(klines, keys), Restrict(markPrices, keys);
      fundingRates, openInterest := Restrict(fundingRates, keys), Restrict(openInterest, keys);
      liquidations := Restrict(liquidations, keys);
    }

    method Replace(specs: seq<InstrumentSpec>)
      modifies this`instruments, this`tickers, this`trades, this`bookTops, this`klines,
               this`markPrices, this`fundingRates, this`openInterest, this`liquidations
      ensures View() == ReplaceInstruments(old(View()), specs)
    {
      instruments := ById(specs);
      PruneOrphanMarketState();
    }

    method ApplyCommandReceipt(status: CommandStatus)
      modifies health
      ensures View() == Apply(old(View()), Receipt(status))
    {
      match status {
        case Accepted =>
        case Refused =>
        case UnknownExecution => health.MarkUncertain();
      }
    }

    method ApplyReconcileReport(outcome: ReconcileOutcome)
      modifies health
      ensures View() == Apply(old(View()), Reconcile(outcome))
    {
      match outcome {
        case Synchronized => health.MarkReconcileComplete();
        case StillUncertain => health.MarkNeedsReconcile();
        case Diverged => health.MarkDivergence();
      }
    }

    method MarkRestSuccess(skew: Option<int>)
      modifies health
      ensures View() == Apply(old(View()), Transport(H.RestSuccess(skew)))
    {
      health.ObserveRestSuccess(skew);
    }

    method MarkPublicDisconnect()
      modifies health
      ensures View() == Apply(old(View()), Transport(H.PublicDisconnect))
    {
      health.MarkPublicDisconnect();
    }

    method MarkPrivateDisconnect()
      modifies health
      ensures View() == Apply(old(View()), Transport(H.PrivateDisconnect))
    {
      health.MarkPrivateDisconnect();
    }

    method MarkReconnect()
      modifies health
      ensures View() == Apply(old(View()), Transport(H.Reconnect))
    {
      health.MarkReconnect();
    }

    method MarkSnapshotAge(age: nat, staleAfter: nat)
      modifies health
      ensures View() == Apply(old(View()), Transport(H.SnapshotAge(age, staleAfter)))
    {
      health.MarkSnapshotAge(age, staleAfter);
    }

    /** Any of the operations above. */
    method Perform(o: Operation)
      modifies this, health
      ensures View() == Apply(old(View()), o)
    {
      match o {
        case Public(e) => var _ := ApplyPublicEvent(e);
        case Private(e) => ApplyPrivateEvent(e);
        case Executions(es) => MergeExecutionBatch(es);
        case OrderHistory(os) => MergeOrders(os);
        case Snapshot(x) => ApplyPrivateSnapshot(x);
        case Instruments(specs) => Replace(specs);
        case Receipt(status) => ApplyCommandReceipt(status);
        case Reconcile(outcome) => ApplyReconcileReport(outcome);
        case Transport(e) => PerformTransport(e);
      }
    }

    method PerformTransport(e: H.Event)
      modifies health
      ensures View() == Apply(old(View()), Transport(e))
    {
      match e {
        case PublicMessage(at) => health.ObservePublicMessage(at);
        case PrivateMessage(at) => health.ObservePrivateMessage(at);
        case RestSuccess(skew) => MarkRestSuccess(skew);
        case PublicDisconnect => MarkPublicDisconnect();
        case PublicGap => health.MarkPublicGap();
        case PrivateDisconnect => MarkPrivateDisconnect();
        case PrivateGap => health.MarkPrivateGap();
        case SnapshotAge(age, staleAfter) => MarkSnapshotAge(age, staleAfter);
        case Reconnect => MarkReconnect();
        case MarkReconcileRequired => health.MarkNeedsReconcile();
        case MarkCommandUncertain => health.MarkUncertain();
        case MarkStateDivergence => health.MarkDivergence();
        case ReconcileComplete => health.MarkReconcileComplete();
      }
    }
  }
}
