/** Invariants of every reachable engine state, the execution queue, and snapshot convergence. */
module EngineProperties {
  import opened Basics
  import H = Health
  import opened Engine

  // ----- reachable states ---------------------------------------------------------------------

  predicate TradesOk(q: seq<TradeTick>, capacity: nat) {
    |q| <= capacity && forall i :: 0 < i < |q| ==> q[i - 1].tradeId != q[i].tradeId
  }

  /** Market data is kept for known instruments only; queues are bounded; no two adjacent trades
      share an id. (Funding rates and open interest are not checked on arrival.) */
  ghost predicate MarketOk(p: Policy, k: Market) {
    && k.tickers.Keys <= k.instruments.Keys
    && k.trades.Keys <= k.instruments.Keys
    && k.bookTops.Keys <= k.instruments.Keys
    && k.klines.Keys <= k.instruments.Keys
    && k.markPrices.Keys <= k.instruments.Keys
    && k.liquidations.Keys <= k.instruments.Keys
    && (forall id :: id in k.trades ==> TradesOk(k.trades[id], p.tradeCapacity))
    && (forall id :: id in k.liquidations ==> |k.liquidations[id]| <= p.tradeCapacity)
  }

  ghost predicate ExecutionsOk(q: seq<Execution>, capacity: nat) {
    |q| <= capacity && forall i, j :: 0 <= i < j < |q| ==> q[i].id != q[j].id
  }

  ghost predicate Inv(s: State) {
    MarketOk(s.policy, s.market) && ExecutionsOk(s.account.executions, s.policy.executionCapacity)
  }

  lemma PushTradeOk(q: seq<TradeTick>, t: TradeTick, capacity: nat)
    requires TradesOk(q, capacity) && (q == [] || q[|q| - 1].tradeId != t.tradeId)
    ensures TradesOk(Newest(q + [t], capacity), capacity)
  {
  }

  lemma ApplyMarketOk(p: Policy, k: Market, e: PublicEvent)
    requires MarketOk(p, k) && ApplyMarket(p, k, e).Some?
    ensures MarketOk(p, ApplyMarket(p, k, e).value)
    ensures ApplyMarket(p, k, e).value.instruments == k.instruments
  {
    if e.Trade? {
      var id := e.m.instrument;
      var entry := if id in k.trades then k.trades[id] else [];
      var t := TradeTick(e.tradeId, Unify(k.instruments[id], e.m));
      assert TradesOk(entry, p.tradeCapacity);
      if entry == [] || entry[|entry| - 1].tradeId != t.tradeId {
        PushTradeOk(entry, t, p.tradeCapacity);
      }
    }
  }

  lemma PushExecutionOk(q: seq<Execution>, e: Execution, capacity: nat)
    requires ExecutionsOk(q, capacity)
    ensures ExecutionsOk(PushExecution(q, e, capacity), capacity)
  {
  }

  lemma {:induction false} PushExecutionsOk(q: seq<Execution>, es: seq<Execution>, capacity: nat)
    requires ExecutionsOk(q, capacity)
    ensures ExecutionsOk(PushExecutions(q, es, capacity), capacity)
  {
    if es != [] {
      PushExecutionsOk(q, es[..|es| - 1], capacity);
      PushExecutionOk(PushExecutions(q, es[..|es| - 1], capacity), es[|es| - 1], capacity);
    }
  }

  lemma ApplyKeepsInv(s: State, o: Operation)
    requires Inv(s)
    ensures Inv(Apply(s, o)) && Apply(s, o).policy == s.policy
  {
    match o
    case Public(e) =>
      if ApplyMarket(s.policy, s.market, e).Some? {
        ApplyMarketOk(s.policy, s.market, e);
      }
    case Private(e) =>
      if e.Fill? {
        PushExecutionOk(s.account.executions, e.execution, s.policy.executionCapacity);
      }
    case Executions(es) => PushExecutionsOk(s.account.executions, es, s.policy.executionCapacity);
    case OrderHistory(_) =>
    case Snapshot(_) =>
    case Instruments(specs) =>
    case Receipt(_) =>
    case Reconcile(_) =>
    case Transport(_) =>
  }

  /** The invariant holds after any sequence of operations on a new engine. */
  lemma {:induction false} RunInvariant(policy: Policy, specs: seq<InstrumentSpec>, os: seq<Operation>)
    ensures Inv(Run(NewState(policy, specs), os))
    ensures Run(NewState(policy, specs), os).policy == policy
  {
    if os != [] {
      RunInvariant(policy, specs, os[..|os| - 1]);
      ApplyKeepsInv(Run(NewState(policy, specs), os[..|os| - 1]), os[|os| - 1]);
    }
  }

  /** Funding rates and open interest can be stored for unknown instruments. */
  lemma UnknownInstrumentsAreStored(policy: Policy, m: Fast)
    ensures var k := Apply(NewState(policy, []), Public(FundingRate(m))).market;
            m.instrument in k.fundingRates && m.instrument !in k.instruments
    ensures var k := Apply(NewState(policy, []), Public(OpenInterest(m))).market;
            m.instrument in k.openInterest && m.instrument !in k.instruments
  {
  }

  /** `b` is `a` without the keys outside `keys`. */
  ghost predicate KeepsKnown<T(!new)>(a: map<string, T>, b: map<string, T>, keys: set<string>) {
    forall id :: (id in b <==> id in a && id in keys) && (id in b ==> b[id] == a[id])
  }

  /** A replacement drops all data of unknown instruments and keeps all the rest unchanged. */
  lemma ReplacementPrunesAll(s: State, specs: seq<InstrumentSpec>)
    ensures var k, k', keys := s.market, Apply(s, Instruments(specs)).market, ById(specs).Keys;
            && k'.instruments == ById(specs)
            && KeepsKnown(k.tickers, k'.tickers, keys) && KeepsKnown(k.trades, k'.trades, keys)
            && KeepsKnown(k.bookTops, k'.bookTops, keys) && KeepsKnown(k.klines, k'.klines, keys)
            && KeepsKnown(k.markPrices, k'.markPrices, keys) && KeepsKnown(k.liquidations, k'.liquidations, keys)
            && KeepsKnown(k.fundingRates, k'.fundingRates, keys) && KeepsKnown(k.openInterest, k'.openInterest, keys)
  {
  }

  // ----- the execution queue ------------------------------------------------------------------

  /** The reference: the first occurrence of every id, in order. */
  function Without(es: seq<Execution>, id: string): seq<Execution> {
    if es == [] then [] else (if es[0].id == id then [] else [es[0]]) + Without(es[1..], id)
  }

  function FirstOccurrences(es: seq<Execution>): seq<Execution>
    decreases |es|
  {
    if es == [] then []
    else
      WithoutShortens(es[1..], es[0].id);
      [es[0]] + FirstOccurrences(Without(es[1..], es[0].id))
  }

  lemma {:induction false} WithoutShortens(es: seq<Execution>, id: string)
    ensures |Without(es, id)| <= |es|
  {
    if es != [] {
      WithoutShortens(es[1..], id);
    }
  }

  lemma {:induction false} WithoutSnoc(es: seq<Execution>, e: Execution, id: string)
    ensures Without(es + [e], id) == Without(es, id) + (if e.id == id then [] else [e])
  {
    if es == [] {
      assert [] + [e] == [e];
      assert [e][1..] == [];
    } else {
      WithoutSnoc(es[1..], e, id);
      assert (es + [e])[1..] == es[1..] + [e];
      assert (es + [e])[0] == es[0];
    }
  }

  lemma {:induction false} WithoutKnown(es: seq<Execution>, id: string, x: string)
    ensures KnownExecution(Without(es, id), x) <==> x != id && KnownExecution(es, x)
  {
    if es != [] {
      WithoutKnown(es[1..], id, x);
      var w := Without(es[1..], id);
      KnownCons(es[0], es[1..], x);
      KnownCons(es[0], w, x);
      assert es == [es[0]] + es[1..] && [] + w == w;
    }
  }

  lemma KnownCons(e: Execution, es: seq<Execution>, x: string)
    ensures KnownExecution([e] + es, x) <==> e.id == x || KnownExecution(es, x)
  {
    var all := [e] + es;
    assert all[0] == e;
    if i :| 0 <= i < |es| && es[i].id == x {
      assert all[i + 1] == es[i];
    }
    if i :| 0 < i < |all| && all[i].id == x {
      assert all[i] == es[i - 1];
    }
  }

  lemma FirstOccurrencesCons(h: Execution, tail: seq<Execution>)
    ensures FirstOccurrences([h] + tail) == [h] + FirstOccurrences(Without(tail, h.id))
  {
    assert ([h] + tail)[1..] == tail;
  }

  /** Adding an execution at the end adds it to the first occurrences iff its id is new. */
  lemma {:induction false} FirstOccurrencesSnoc(es: seq<Execution>, e: Execution)
    ensures FirstOccurrences(es + [e]) == FirstOccurrences(es) + (if KnownExecution(es, e.id) then [] else [e])
    decreases |es|
  {
    if es == [] {
      FirstOccurrencesCons(e, []);
      assert [] + [e] == [e] + [];
    } else {
      var h, tail := es[0], es[1..];
      var rest := Without(tail, h.id);
      assert es == [h] + tail && es + [e] == [h] + (tail + [e]);
      FirstOccurrencesCons(h, tail);
      FirstOccurrencesCons(h, tail + [e]);
      WithoutSnoc(tail, e, h.id);
      KnownCons(h, tail, e.id);
      WithoutKnown(tail, h.id, e.id);
      WithoutShortens(tail, h.id);
      FirstOccurrencesSnoc(rest, e);
      assert rest + [] == rest;
    }
  }

  lemma {:induction false} FirstOccurrencesKnown(es: seq<Execution>, x: string)
    ensures KnownExecution(FirstOccurrences(es), x) <==> KnownExecution(es, x)
    decreases |es|
  {
    if es != [] {
      var rest := Without(es[1..], es[0].id);
      WithoutShortens(es[1..], es[0].id);
      FirstOccurrencesKnown(rest, x);
      WithoutKnown(es[1..], es[0].id, x);
      KnownCons(es[0], FirstOccurrences(rest), x);
      KnownCons(es[0], es[1..], x);
      assert es == [es[0]] + es[1..];
    }
  }

  lemma {:induction false} FittingQueue(es: seq<Execution>, capacity: nat)
    requires |FirstOccurrences(es)| <= capacity
    ensures PushExecutions([], es, capacity) == FirstOccurrences(es)
  {
    if es != [] {
      var init, last := es[..|es| - 1], es[|es| - 1];
      assert es == init + [last];
      FirstOccurrencesSnoc(init, last);
      FittingQueue(init, capacity);
      FirstOccurrencesKnown(init, last.id);
    }
  }

  /** The queue is the first occurrences of everything that arrived, in arrival order, with nothing
      lost and nothing duplicated, exactly while the distinct ids fit the capacity. */
  lemma QueueIsFirstOccurrences(es: seq<Execution>, capacity: nat)
    ensures PushExecutions([], es, capacity) == FirstOccurrences(es) <==> |FirstOccurrences(es)| <= capacity
  {
    PushExecutionsOk([], es, capacity);
    if |FirstOccurrences(es)| <= capacity {
      FittingQueue(es, capacity);
    }
  }

  /** Batches compose: merging two batches in turn is merging their concatenation, so a merge is
      the same as applying its executions one by one. */
  lemma {:induction false} PushExecutionsConcat(q: seq<Execution>, a: seq<Execution>, b: seq<Execution>, capacity: nat)
    ensures PushExecutions(PushExecutions(q, a, capacity), b, capacity) == PushExecutions(q, a + b, capacity)
  {
    if b == [] {
      assert a + b == a;
    } else {
      PushExecutionsConcat(q, a, b[..|b| - 1], capacity);
      assert (a + b)[..|a + b| - 1] == a + b[..|b| - 1];
    }
  }

  function Fills(es: seq<Execution>): seq<Operation> {
    seq(|es|, i requires 0 <= i < |es| => Private(Fill(es[i])))
  }

  lemma {:induction false} MergeIsFillByFill(s: State, es: seq<Execution>)
    ensures Run(s, Fills(es)).account.executions == MergeExecutions(s, es).account.executions
    ensures Run(s, Fills(es)).policy == s.policy
  {
    if es != [] {
      var init := es[..|es| - 1];
      MergeIsFillByFill(s, init);
      assert Fills(es)[..|es| - 1] == Fills(init);
    }
  }

  lemma {:induction false} FittingReplay(es: seq<Execution>, replay: seq<Execution>, capacity: nat)
    requires |FirstOccurrences(es)| <= capacity
    requires forall e :: e in replay ==> KnownExecution(es, e.id)
    ensures PushExecutions(PushExecutions([], es, capacity), replay, capacity) == PushExecutions([], es, capacity)
  {
    if replay != [] {
      var init, last := replay[..|replay| - 1], replay[|replay| - 1];
      FittingReplay(es, init, capacity);
      FittingQueue(es, capacity);
      FirstOccurrencesKnown(es, last.id);
      assert last in replay;
      assert KnownExecution(FirstOccurrences(es), last.id);
    }
  }

  /** An arrived execution whose id the queue has evicted. */
  lemma EvictedExecution(es: seq<Execution>, q: seq<Execution>) returns (e: Execution)
    requires |q| < |FirstOccurrences(es)|
    ensures e in FirstOccurrences(es) && !KnownExecution(q, e.id)
  {
    var first := FirstOccurrences(es);
    FirstOccurrencesDistinct(es);
    IdsBounded(q);
    IdsExact(first);
    if Ids(first) <= Ids(q) {
      SubsetSize(Ids(first), Ids(q));
      assert false;
    }
    var id :| id in Ids(first) && id !in Ids(q);
    var i :| 0 <= i < |first| && first[i].id == id;
    e := first[i];
  }

  ghost function Ids(q: seq<Execution>): set<string> {
    set i | 0 <= i < |q| :: q[i].id
  }

  lemma IdsSnoc(q: seq<Execution>)
    requires q != []
    ensures Ids(q) == Ids(q[..|q| - 1]) + {q[|q| - 1].id}
  {
    var init := q[..|q| - 1];
    forall x | x in Ids(q) ensures x in Ids(init) + {q[|q| - 1].id} {
      var i :| 0 <= i < |q| && q[i].id == x;
      assert i < |init| ==> init[i].id in Ids(init);
    }
    forall x | x in Ids(init) ensures x in Ids(q) {
      var i :| 0 <= i < |init| && init[i].id == x;
      assert q[i].id in Ids(q);
    }
  }

  lemma {:induction false} IdsBounded(q: seq<Execution>)
    ensures |Ids(q)| <= |q|
  {
    if q != [] {
      IdsBounded(q[..|q| - 1]);
      IdsSnoc(q);
    }
  }

  lemma {:induction false} IdsExact(q: seq<Execution>)
    requires forall i, j :: 0 <= i < j < |q| ==> q[i].id != q[j].id
    ensures |Ids(q)| == |q|
  {
    if q != [] {
      IdsExact(q[..|q| - 1]);
      IdsSnoc(q);
      assert q[|q| - 1].id !in Ids(q[..|q| - 1]);
    }
  }

  lemma FirstOccurrencesDistinct(es: seq<Execution>)
    ensures forall i, j :: 0 <= i < j < |FirstOccurrences(es)| ==>
              FirstOccurrences(es)[i].id != FirstOccurrences(es)[j].id
  {
    FittingQueue(es, |FirstOccurrences(es)|);
    PushExecutionsOk([], es, |FirstOccurrences(es)|);
  }

  ghost predicate ReplaySafe(es: seq<Execution>, capacity: nat) {
    forall replay: seq<Execution> :: (forall e :: e in replay ==> KnownExecution(es, e.id)) ==>
      PushExecutions(PushExecutions([], es, capacity), replay, capacity) == PushExecutions([], es, capacity)
  }

  /** Replaying any part of what has been applied changes nothing in the queue exactly when the
      distinct ids fit the capacity (or the queue holds nothing at all): beyond the capacity an
      evicted id is admitted again. */
  lemma ReplayIsIdempotent(es: seq<Execution>, capacity: nat)
    ensures ReplaySafe(es, capacity) <==> |FirstOccurrences(es)| <= capacity || capacity == 0
  {
    var q := PushExecutions([], es, capacity);
    PushExecutionsOk([], es, capacity);
    if |FirstOccurrences(es)| <= capacity {
      forall replay: seq<Execution> | forall e :: e in replay ==> KnownExecution(es, e.id)
        ensures PushExecutions(q, replay, capacity) == q
      {
        FittingReplay(es, replay, capacity);
      }
    } else if capacity == 0 {
      forall replay: seq<Execution> ensures PushExecutions(q, replay, capacity) == q {
        PushExecutionsOk(q, replay, capacity);
      }
    } else {
      var e := EvictedExecution(es, q);
      KnownMember(FirstOccurrences(es), e);
      FirstOccurrencesKnown(es, e.id);
      ReplayedIsAdmitted(q, e, capacity);
      assert forall x :: x in [e] ==> x == e;
    }
  }

  lemma KnownMember(es: seq<Execution>, e: Execution)
    requires e in es
    ensures KnownExecution(es, e.id)
  {
  }

  lemma ReplayedIsAdmitted(q: seq<Execution>, e: Execution, capacity: nat)
    requires !KnownExecution(q, e.id) && capacity > 0
    ensures PushExecutions(q, [e], capacity) != q
  {
    assert [e][..0] == [] && PushExecutions(q, [], capacity) == q;
    var r := PushExecutions(q, [e], capacity);
    assert r == PushExecution(q, e, capacity);
    assert r[|r| - 1] == e;
  }

  // ----- snapshots ----------------------------------------------------------------------------

  /** `Collect` keeps, for every key, the last entry with it. */
  lemma {:induction false} CollectLast<T>(xs: seq<T>, key: T -> string, k: string)
    ensures k in Collect(xs, key) <==> exists i :: 0 <= i < |xs| && key(xs[i]) == k
    ensures k in Collect(xs, key) ==>
              exists i :: 0 <= i < |xs| && key(xs[i]) == k && Collect(xs, key)[k] == xs[i]
                       && forall j :: i < j < |xs| ==> key(xs[j]) != k
  {
    if xs != [] {
      var n, init := |xs| - 1, xs[..|xs| - 1];
      CollectLast(init, key, k);
      if key(xs[n]) != k && k in Collect(init, key) {
        var i :| 0 <= i < n && key(init[i]) == k && Collect(init, key)[k] == init[i]
                 && forall j :: i < j < n ==> key(init[j]) != k;
        assert xs[i] == init[i] && forall j :: i < j < n ==> xs[j] == init[j];
      } else if exists i :: 0 <= i < |xs| && key(xs[i]) == k {
        var i :| 0 <= i < |xs| && key(xs[i]) == k;
        assert i < n ==> init[i] == xs[i];
      }
    }
  }

  predicate NotNamed(x: PrivateSnapshot, id: string) {
    forall i :: 0 <= i < |x.openOrders| ==> x.openOrders[i].id != id
  }

  /** Snapshot convergence: whatever two histories came before, after the same snapshot the open
      orders and positions are the same, namely the snapshot's own; so are balances and summary if
      the snapshot has an account part; and every settled order not named in it survives. */
  lemma SnapshotConverges(s: State, t: State, x: PrivateSnapshot)
    ensures var a, b := ApplySnapshot(s, x).account, ApplySnapshot(t, x).account;
            && OpenOrders(a.orders) == OpenOrders(b.orders) == OpenOrders(ByOrderId(x.openOrders))
            && a.positions == b.positions == ByInstrument(x.positions)
            && (x.account.Some? ==>
                  a.balances == b.balances == ByAsset(x.account.value.balances)
                  && a.summary == b.summary == x.account.value.summary)
            && (x.account.None? ==> a.balances == s.account.balances && a.summary == s.account.summary)
            && (forall k :: k in Settled(s.account.orders) && NotNamed(x, k) ==>
                  k in a.orders && a.orders[k] == s.account.orders[k])
            && a.executions == s.account.executions
  {
    var named := ByOrderId(x.openOrders);
    OpenAfterReplace(s.account.orders, named);
    OpenAfterReplace(t.account.orders, named);
    forall k | NotNamed(x, k) ensures k !in named {
      CollectLast(x.openOrders, (o: Order) => o.id, k);
    }
  }

  lemma OpenAfterReplace(orders: map<string, Order>, named: map<string, Order>)
    ensures OpenOrders(Settled(orders) + named) == OpenOrders(named)
  {
  }

  /** Applying a snapshot twice is applying it once, as far as the account goes. */
  lemma SnapshotIdempotent(s: State, x: PrivateSnapshot)
    ensures ApplySnapshot(ApplySnapshot(s, x), x).account == ApplySnapshot(s, x).account
  {
    var named := ByOrderId(x.openOrders);
    SettleTwice(s.account.orders, named);
  }

  lemma SettleTwice(orders: map<string, Order>, named: map<string, Order>)
    ensures Settled(Settled(orders) + named) + named == Settled(orders) + named
  {
  }

  /** Positions are kept by instrument alone: of two updates both stay visible exactly when they name
      different instruments, so the legs of a hedged position overwrite each other. */
  lemma BothPositionsShown(s: State, p: Position, q: Position)
    ensures var shown := ApplyPrivate(ApplyPrivate(s, PositionUpdate(p)), PositionUpdate(q)).account.positions;
            && p.instrument in shown && q.instrument in shown && shown[q.instrument] == q
            && (shown[p.instrument] == p <==> p.instrument != q.instrument || p == q)
  {
  }
}
