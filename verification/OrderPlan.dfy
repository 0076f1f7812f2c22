/** Order planning on exact numbers: quantization to ticks and steps, the trade plan, protective
    triggers and burst ladders (crates/bat-markets-testing/src/live_trade_cycle.rs). */
module OrderPlan {
  import opened Basics

  // ----- rounding -----------------------------------------------------------------------------

  function Ceil(x: real): int {
    -((-x).Floor)
  }

  function Max(a: real, b: real): real {
    if a < b then b else a
  }

  /** Rounding a non-negative number down, or up, to `scale` decimal places. */
  function DecimalFloor(x: real, scale: nat): real
    decreases scale
  {
    if scale == 0 then x.Floor as real else DecimalFloor(10.0 * x, scale - 1) / 10.0
  }

  function DecimalCeil(x: real, scale: nat): real
    decreases scale
  {
    if scale == 0 then Ceil(x) as real else DecimalCeil(10.0 * x, scale - 1) / 10.0
  }

  /** `round_dp_with_strategy(_, ToZero)`. */
  function TowardZero(x: real, scale: nat): real {
    if x >= 0.0 then DecimalFloor(x, scale) else -DecimalFloor(-x, scale)
  }

  /** `round_dp_with_strategy(_, AwayFromZero)`. */
  function AwayFromZero(x: real, scale: nat): real {
    if x >= 0.0 then DecimalCeil(x, scale) else -DecimalCeil(-x, scale)
  }

  function Times(k: int, step: real): real {
    k as real * step
  }

  function QuantizeDown(value: real, step: real, scale: nat): real
    requires step > 0.0
  {
    TowardZero(Times((value / step).Floor, step), scale)
  }

  function QuantizeUp(value: real, step: real, scale: nat): real
    requires step > 0.0
  {
    AwayFromZero(Times(Ceil(value / step), step), scale)
  }

  lemma {:induction false} DecimalBounds(x: real, scale: nat)
    ensures DecimalFloor(x, scale) <= x <= DecimalCeil(x, scale)
    ensures x >= 0.0 ==> 0.0 <= DecimalFloor(x, scale)
    decreases scale
  {
    if scale > 0 {
      DecimalBounds(10.0 * x, scale - 1);
    }
  }

  lemma StepsBracket(value: real, step: real, x: real)
    requires step > 0.0 && x == value / step
    ensures Times(x.Floor, step) <= value <= Times(Ceil(x), step)
    ensures value >= 0.0 ==> x >= 0.0 && 0.0 <= Times(x.Floor, step)
  {
    assert x * step == value;
    assert (x - x.Floor as real) * step >= 0.0;
    assert (Ceil(x) as real - x) * step >= 0.0;
    if value >= 0.0 {
      assert x >= 0.0;
    }
  }

  /** Rounding down never exceeds a non-negative value, rounding up never falls below it. */
  lemma QuantizeBounds(value: real, step: real, scale: nat)
    requires step > 0.0 && value >= 0.0
    ensures 0.0 <= QuantizeDown(value, step, scale) <= value <= QuantizeUp(value, step, scale)
  {
    StepsBracket(value, step, value / step);
    DecimalBounds(Times((value / step).Floor, step), scale);
    DecimalBounds(Times(Ceil(value / step), step), scale);
  }

  /** The number has at most `scale` decimal places. */
  predicate OnGrid(x: real, scale: nat)
    decreases scale
  {
    if scale == 0 then x.Floor as real == x else OnGrid(10.0 * x, scale - 1)
  }

  lemma {:induction false} GridSum(x: real, y: real, scale: nat)
    requires OnGrid(x, scale) && OnGrid(y, scale)
    ensures OnGrid(x + y, scale)
    decreases scale
  {
    if scale == 0 {
      WholeSum(x, y);
    } else {
      GridSum(10.0 * x, 10.0 * y, scale - 1);
      assert 10.0 * x + 10.0 * y == 10.0 * (x + y);
    }
  }

  lemma WholeCeil(x: real)
    requires x.Floor as real == x
    ensures Ceil(x) as real == x
  {
    var k := 0 - x.Floor;
    assert -x == k as real;
  }

  lemma WholeSum(x: real, y: real)
    requires x.Floor as real == x && y.Floor as real == y
    ensures (x + y).Floor as real == x + y
  {
    assert x + y == (x.Floor + y.Floor) as real;
  }

  lemma {:induction false} GridZero(scale: nat)
    ensures OnGrid(0.0, scale)
  {
    if scale > 0 {
      GridZero(scale - 1);
    }
  }

  lemma {:induction false} GridMultiple(k: nat, step: real, scale: nat)
    requires OnGrid(step, scale)
    ensures OnGrid(Times(k, step), scale)
  {
    if k == 0 {
      GridZero(scale);
    } else {
      GridMultiple(k - 1, step, scale);
      GridSum(Times(k - 1, step), step, scale);
      assert Times(k - 1, step) + step == Times(k, step);
    }
  }

  lemma {:induction false} GridIsExact(x: real, scale: nat)
    requires OnGrid(x, scale)
    ensures DecimalFloor(x, scale) == x == DecimalCeil(x, scale)
    decreases scale
  {
    if scale == 0 {
      WholeCeil(x);
    } else {
      GridIsExact(10.0 * x, scale - 1);
    }
  }

  /** With the step on the decimal grid, quantizing gives the neighbouring multiple of the step. */
  lemma QuantizeOnGrid(value: real, step: real, scale: nat)
    requires step > 0.0 && value >= 0.0 && OnGrid(step, scale)
    ensures QuantizeDown(value, step, scale) == Times((value / step).Floor, step)
    ensures QuantizeUp(value, step, scale) == Times(Ceil(value / step), step)
  {
    var x := value / step;
    StepsBracket(value, step, x);
    GridMultiple(x.Floor, step, scale);
    GridMultiple(Ceil(x), step, scale);
    GridIsExact(Times(x.Floor, step), scale);
    GridIsExact(Times(Ceil(x), step), scale);
  }

  // ----- the trade plan -----------------------------------------------------------------------

  datatype Spec = Spec(
    tick: real, step: real, priceScale: nat, qtyScale: nat, minQty: real, minNotional: real)

  datatype Plan = Plan(quantity: real, makerBuy: real, makerSell: real)

  const MAKER_TICKS_AWAY := 8.0
  const NOTIONAL_BUFFER := 1.05

  function PlannedQuantity(s: Spec, ask: real): real
    requires s.step > 0.0 && ask > 0.0
  {
    var minQty := QuantizeUp(s.minQty, s.step, s.qtyScale);
    var required := QuantizeUp(s.minNotional * NOTIONAL_BUFFER / ask, s.step, s.qtyScale);
    Max(minQty, required)
  }

  /** The arithmetic of `build_live_trade_plan`. */
  function BuildPlan(s: Spec, bid: real, ask: real, budget: real): Option<Plan> {
    if bid <= 0.0 || ask <= 0.0 || s.tick <= 0.0 || s.step <= 0.0 then None
    else
      var quantity := PlannedQuantity(s, ask);
      if quantity <= 0.0 || quantity * ask > budget then None
      else
        var makerBuy := QuantizeDown(Max(bid - s.tick * MAKER_TICKS_AWAY, s.tick), s.tick, s.priceScale);
        var makerSell := QuantizeUp(ask + s.tick * MAKER_TICKS_AWAY, s.tick, s.priceScale);
        if makerBuy <= 0.0 || makerSell <= makerBuy then None
        else Some(Plan(quantity, makerBuy, makerSell))
  }

  /** A planned quantity respects the venue's limits and the budget. */
  lemma PlanMeetsLimits(s: Spec, bid: real, ask: real, budget: real)
    requires s.minQty >= 0.0 && s.minNotional >= 0.0
    requires BuildPlan(s, bid, ask, budget).Some?
    ensures var p := BuildPlan(s, bid, ask, budget).value;
            && p.quantity >= s.minQty
            && p.quantity * ask >= s.minNotional * NOTIONAL_BUFFER
            && p.quantity * ask <= budget
  {
    QuantityCovers(s, ask);
  }

  lemma QuantityCovers(s: Spec, ask: real)
    requires s.minQty >= 0.0 && s.minNotional >= 0.0 && s.step > 0.0 && ask > 0.0
    ensures PlannedQuantity(s, ask) >= s.minQty
    ensures PlannedQuantity(s, ask) * ask >= s.minNotional * NOTIONAL_BUFFER
  {
    var notional := s.minNotional * NOTIONAL_BUFFER;
    var q := notional / ask;
    Quotient(notional, ask, q);
    QuantizeBounds(s.minQty, s.step, s.qtyScale);
    QuantizeBounds(q, s.step, s.qtyScale);
    NotionalCovered(PlannedQuantity(s, ask), notional, ask, q);
  }

  /** Its maker prices are ordered and keep their distance from the book. */
  lemma PlanKeepsDistance(s: Spec, bid: real, ask: real, budget: real)
    requires BuildPlan(s, bid, ask, budget).Some?
    ensures var p := BuildPlan(s, bid, ask, budget).value;
            && p.makerSell >= ask + MAKER_TICKS_AWAY * s.tick
            && 0.0 < p.makerBuy < p.makerSell
            && (bid >= 9.0 * s.tick ==> p.makerBuy <= bid - MAKER_TICKS_AWAY * s.tick)
  {
    QuantizeBounds(Max(bid - s.tick * MAKER_TICKS_AWAY, s.tick), s.tick, s.priceScale);
    QuantizeBounds(ask + s.tick * MAKER_TICKS_AWAY, s.tick, s.priceScale);
  }

  lemma Quotient(a: real, b: real, q: real)
    requires a >= 0.0 && b > 0.0 && q == a / b
    ensures q >= 0.0 && q * b == a
  {
    assert q * b == a;
  }

  lemma NotionalCovered(quantity: real, notional: real, ask: real, q: real)
    requires ask > 0.0 && q * ask == notional && quantity >= q
    ensures quantity * ask >= notional
  {
    NonNegativeProduct(quantity - q, ask);
    assert (quantity - q) * ask == quantity * ask - q * ask;
  }

  lemma NonNegativeProduct(a: real, b: real)
    requires a >= 0.0 && b >= 0.0
    ensures a * b >= 0.0
  {
  }

  /** With ticks on the price grid the last distance holds exactly when the bid is nine ticks up. */
  lemma MakerBuyDistance(s: Spec, bid: real, ask: real, budget: real)
    requires OnGrid(s.tick, s.priceScale)
    requires BuildPlan(s, bid, ask, budget).Some?
    ensures BuildPlan(s, bid, ask, budget).value.makerBuy <= bid - MAKER_TICKS_AWAY * s.tick <==> bid >= 9.0 * s.tick
  {
    var target := Max(bid - s.tick * MAKER_TICKS_AWAY, s.tick);
    QuantizeBounds(target, s.tick, s.priceScale);
    if bid < 9.0 * s.tick {
      OneTick(s.tick, s.priceScale);
    }
  }

  lemma SelfQuotient(x: real, q: real)
    requires x > 0.0 && q == x / x
    ensures q == 1.0
  {
    assert q * x == x;
    assert (q - 1.0) * x == 0.0;
  }

  lemma OneTick(tick: real, scale: nat)
    requires tick > 0.0 && OnGrid(tick, scale)
    ensures QuantizeDown(tick, tick, scale) == tick
  {
    QuantizeOnGrid(tick, tick, scale);
    SelfQuotient(tick, tick / tick);
    assert Times(1, tick) == tick;
  }

  // ----- protective triggers ------------------------------------------------------------------

  const PROTECTIVE_RATIO := 0.0035
  const PROTECTIVE_MIN_TICKS := 40.0

  function Offset(tick: real, entry: real): real {
    Max(entry * PROTECTIVE_RATIO, tick * PROTECTIVE_MIN_TICKS)
  }

  function StopPrice(tick: real, scale: nat, entry: real): real
    requires tick > 0.0
  {
    QuantizeDown(Max(entry - Offset(tick, entry), tick), tick, scale)
  }

  function TakeProfitPrice(tick: real, scale: nat, entry: real): real
    requires tick > 0.0
  {
    QuantizeUp(entry + Offset(tick, entry), tick, scale)
  }

  /** The take-profit lies above the entry; the stop lies below it when the entry is above one tick. */
  lemma TriggersBracketEntry(tick: real, scale: nat, entry: real)
    requires tick > 0.0 && entry > 0.0
    ensures entry < TakeProfitPrice(tick, scale, entry)
    ensures entry > tick ==> StopPrice(tick, scale, entry) < entry
  {
    QuantizeBounds(entry + Offset(tick, entry), tick, scale);
    QuantizeBounds(Max(entry - Offset(tick, entry), tick), tick, scale);
  }

  /** With ticks on the price grid that condition is also necessary. */
  lemma StopBelowEntry(tick: real, scale: nat, entry: real)
    requires tick > 0.0 && entry > 0.0 && OnGrid(tick, scale)
    ensures StopPrice(tick, scale, entry) < entry <==> entry > tick
  {
    TriggersBracketEntry(tick, scale, entry);
    if entry <= tick {
      OneTick(tick, scale);
    }
  }

  // ----- burst ladders ------------------------------------------------------------------------

  const BURST_RATIO := 0.0040
  const BURST_MIN_TICKS := 50.0

  function BurstDistance(tick: real, ask: real): real {
    Max(tick * BURST_MIN_TICKS, ask * BURST_RATIO)
  }

  /** The rung of order `index` in `round`. */
  function Rung(round: nat, burstSize: nat, index: nat): nat {
    round * burstSize + index + 1
  }

  function BuyPrice(tick: real, scale: nat, bid: real, ask: real, rung: nat): real
    requires tick > 0.0
  {
    QuantizeDown(Max(bid - (BurstDistance(tick, ask) + tick * rung as real), tick), tick, scale)
  }

  function SellPrice(tick: real, scale: nat, ask: real, rung: nat): real
    requires tick > 0.0
  {
    QuantizeUp(ask + (BurstDistance(tick, ask) + tick * rung as real), tick, scale)
  }

  lemma RungsDiffer(burstSize: nat, r: nat, i: nat, q: nat, j: nat)
    requires i < burstSize && j < burstSize && (r, i) != (q, j)
    ensures Rung(r, burstSize, i) != Rung(q, burstSize, j)
  {
    if r < q {
      assert q * burstSize >= (r + 1) * burstSize == r * burstSize + burstSize;
    } else if q < r {
      assert r * burstSize >= (q + 1) * burstSize == q * burstSize + burstSize;
    }
  }

  lemma ShiftByTicks(x: real, tick: real, n: int, y: real)
    requires tick > 0.0 && y == x + tick * n as real
    ensures y / tick == x / tick + n as real
  {
    var a, b := y / tick, x / tick;
    assert a * tick == y && b * tick == x;
    assert (a - b - n as real) * tick == 0.0;
  }

  /** On the price grid, sell rung `n` is exactly `n` ticks above rung zero. */
  lemma SellLadder(tick: real, scale: nat, ask: real, n: nat)
    requires tick > 0.0 && ask > 0.0 && OnGrid(tick, scale)
    ensures SellPrice(tick, scale, ask, n) == Times(Ceil((ask + BurstDistance(tick, ask)) / tick) + n, tick)
  {
    var x := ask + BurstDistance(tick, ask);
    var value := ask + (BurstDistance(tick, ask) + tick * n as real);
    assert tick * n as real >= 0.0;
    QuantizeOnGrid(value, tick, scale);
    ShiftByTicks(x, tick, n, value);
  }

  lemma AtLeastTick(value: real, tick: real, x: real)
    requires tick > 0.0 && x == value / tick
    ensures (Max(value, tick) / tick).Floor == if x.Floor >= 1 then x.Floor else 1
  {
    assert x * tick == value;
    assert tick / tick == 1.0;
    if value >= tick {
      assert (x - 1.0) * tick >= 0.0;
    } else {
      assert (1.0 - x) * tick > 0.0;
    }
  }

  /** And buy rung `n` is `n` ticks below rung zero, but never below one tick. */
  lemma BuyLadder(tick: real, scale: nat, bid: real, ask: real, n: nat)
    requires tick > 0.0 && OnGrid(tick, scale)
    ensures var base := ((bid - BurstDistance(tick, ask)) / tick).Floor;
            BuyPrice(tick, scale, bid, ask, n) == Times(if base - n >= 1 then base - n else 1, tick)
  {
    var x := bid - BurstDistance(tick, ask);
    var value := bid - (BurstDistance(tick, ask) + tick * n as real);
    var back := 0 - n;
    assert value == x + tick * back as real;
    ShiftByTicks(x, tick, back, value);
    AtLeastTick(value, tick, value / tick);
    QuantizeOnGrid(Max(value, tick), tick, scale);
  }

  /** No two sell orders of any rounds share a price: later rungs are strictly higher. */
  lemma SellPricesDiffer(tick: real, scale: nat, ask: real, m: nat, n: nat)
    requires tick > 0.0 && ask > 0.0 && OnGrid(tick, scale) && m < n
    ensures SellPrice(tick, scale, ask, m) < SellPrice(tick, scale, ask, n)
  {
    SellLadder(tick, scale, ask, m);
    SellLadder(tick, scale, ask, n);
    var base := Ceil((ask + BurstDistance(tick, ask)) / tick);
    TimesIncreases(base + m, base + n, tick);
  }

  /** Two buy orders share a price exactly when the higher one already sits at one tick, that is,
      when fewer than two ticks are left at its distance below the bid. */
  lemma BuyPricesDiffer(tick: real, scale: nat, bid: real, ask: real, m: nat, n: nat)
    requires tick > 0.0 && OnGrid(tick, scale) && m < n
    ensures BuyPrice(tick, scale, bid, ask, m) == BuyPrice(tick, scale, bid, ask, n)
       <==> ((bid - BurstDistance(tick, ask)) / tick).Floor < m + 2
    ensures BuyPrice(tick, scale, bid, ask, n) <= BuyPrice(tick, scale, bid, ask, m)
  {
    BuyLadder(tick, scale, bid, ask, m);
    BuyLadder(tick, scale, bid, ask, n);
    var base := ((bid - BurstDistance(tick, ask)) / tick).Floor;
    var a, b := if base - m >= 1 then base - m else 1, if base - n >= 1 then base - n else 1;
    if b < a {
      TimesIncreases(b, a, tick);
    }
  }

  /** Over all rounds of a burst run, no two orders of one side share a price, as long as the buy
      prices are not clamped to one tick. */
  lemma BurstPricesDiffer(
    tick: real, scale: nat, bid: real, ask: real, burstSize: nat, r: nat, i: nat, q: nat, j: nat)
    requires tick > 0.0 && ask > 0.0 && OnGrid(tick, scale)
    requires i < burstSize && j < burstSize && (r, i) != (q, j)
    ensures var m, n := Rung(r, burstSize, i), Rung(q, burstSize, j);
            && SellPrice(tick, scale, ask, m) != SellPrice(tick, scale, ask, n)
            && (m < ((bid - BurstDistance(tick, ask)) / tick).Floor
                && n < ((bid - BurstDistance(tick, ask)) / tick).Floor ==>
                  BuyPrice(tick, scale, bid, ask, m) != BuyPrice(tick, scale, bid, ask, n))
  {
    var m, n := Rung(r, burstSize, i), Rung(q, burstSize, j);
    RungsDiffer(burstSize, r, i, q, j);
    if m < n {
      SellPricesDiffer(tick, scale, ask, m, n);
      BuyPricesDiffer(tick, scale, bid, ask, m, n);
    } else {
      SellPricesDiffer(tick, scale, ask, n, m);
      BuyPricesDiffer(tick, scale, bid, ask, n, m);
    }
  }

  lemma TimesIncreases(a: int, b: int, tick: real)
    requires a < b && tick > 0.0
    ensures Times(a, tick) < Times(b, tick)
  {
    assert (b - a) as real * tick > 0.0;
  }

  // ----- exactly how far ----------------------------------------------------------------------

  lemma TimesAgainst(k: int, step: real, value: real, x: real)
    requires step > 0.0 && x == value / step
    ensures Times(k, step) <= value <==> k as real <= x
    ensures value <= Times(k, step) <==> x <= k as real
  {
    assert x * step == value;
    assert Times(k, step) - value == (k as real - x) * step;
    SignOfProduct(k as real - x, step);
  }

  lemma SignOfProduct(a: real, b: real)
    requires b > 0.0
    ensures a * b <= 0.0 <==> a <= 0.0
    ensures a * b >= 0.0 <==> a >= 0.0
  {
    if a > 0.0 {
      assert a * b > 0.0;
    } else if a < 0.0 {
      assert a * b < 0.0;
    }
  }

  lemma TimesOrder(a: int, b: int, step: real)
    requires step > 0.0
    ensures Times(a, step) <= Times(b, step) <==> a <= b
  {
    if a < b {
      TimesIncreases(a, b, step);
    } else if b < a {
      TimesIncreases(b, a, step);
    }
  }

  /** On the grid, rounding down gives the greatest multiple of the step that is no larger ... */
  lemma GreatestMultiple(value: real, step: real, scale: nat, k: int)
    requires step > 0.0 && value >= 0.0 && OnGrid(step, scale)
    ensures Times(k, step) <= QuantizeDown(value, step, scale) <==> Times(k, step) <= value
    ensures exists m :: QuantizeDown(value, step, scale) == Times(m, step)
  {
    var x := value / step;
    QuantizeOnGrid(value, step, scale);
    TimesAgainst(k, step, value, x);
    TimesOrder(k, x.Floor, step);
    assert k as real <= x <==> k <= x.Floor;
  }

  /** ... and rounding up the least that is no smaller. */
  lemma LeastMultiple(value: real, step: real, scale: nat, k: int)
    requires step > 0.0 && value >= 0.0 && OnGrid(step, scale)
    ensures QuantizeUp(value, step, scale) <= Times(k, step) <==> value <= Times(k, step)
    ensures exists m :: QuantizeUp(value, step, scale) == Times(m, step)
  {
    var x := value / step;
    QuantizeOnGrid(value, step, scale);
    TimesAgainst(k, step, value, x);
    TimesOrder(Ceil(x), k, step);
    CeilAgainst(x, k);
  }

  lemma CeilAgainst(x: real, k: int)
    ensures x <= k as real <==> Ceil(x) <= k
  {
    var f := (-x).Floor;
    assert f as real <= -x < f as real + 1.0;
  }

  /** The planned quantity is the least multiple of the step that meets both minima, with five percent
      on top of the notional. */
  lemma LeastQuantity(s: Spec, ask: real, k: int)
    requires s.minQty >= 0.0 && s.minNotional >= 0.0 && s.step > 0.0 && ask > 0.0 && OnGrid(s.step, s.qtyScale)
    ensures PlannedQuantity(s, ask) <= Times(k, s.step)
       <==> s.minQty <= Times(k, s.step) && 1.05 * s.minNotional <= Times(k, s.step) * ask
    ensures exists m :: PlannedQuantity(s, ask) == Times(m, s.step)
  {
    var notional := s.minNotional * NOTIONAL_BUFFER;
    var q := notional / ask;
    Quotient(notional, ask, q);
    LeastMultiple(s.minQty, s.step, s.qtyScale, k);
    LeastMultiple(q, s.step, s.qtyScale, k);
    ScaleBy(q, Times(k, s.step), ask, notional);
  }

  lemma ScaleBy(q: real, t: real, ask: real, notional: real)
    requires ask > 0.0 && q * ask == notional
    ensures q <= t <==> notional <= t * ask
  {
    assert t * ask - notional == (t - q) * ask;
    SignOfProduct(t - q, ask);
  }

  /** The maker prices: eight ticks away from the book and not a tick more than the grid asks for. */
  lemma MakerPricesExact(s: Spec, bid: real, ask: real, budget: real, k: int)
    requires BuildPlan(s, bid, ask, budget).Some? && OnGrid(s.tick, s.priceScale)
    ensures var p, t := BuildPlan(s, bid, ask, budget).value, Times(k, s.tick);
            && (p.makerSell <= t <==> ask + 8.0 * s.tick <= t)
            && (t <= p.makerBuy <==> t <= bid - 8.0 * s.tick || t <= s.tick)
            && p.quantity == PlannedQuantity(s, ask)
  {
    LeastMultiple(ask + s.tick * MAKER_TICKS_AWAY, s.tick, s.priceScale, k);
    GreatestMultiple(Max(bid - s.tick * MAKER_TICKS_AWAY, s.tick), s.tick, s.priceScale, k);
  }

  lemma MakerPricesOrdered(tick: real, scale: nat, bid: real, ask: real)
    requires 0.0 < bid <= ask && tick > 0.0 && OnGrid(tick, scale)
    ensures var buy := QuantizeDown(Max(bid - tick * MAKER_TICKS_AWAY, tick), tick, scale);
            0.0 < buy < QuantizeUp(ask + tick * MAKER_TICKS_AWAY, tick, scale)
  {
    var target := Max(bid - tick * MAKER_TICKS_AWAY, tick);
    QuantizeBounds(target, tick, scale);
    QuantizeBounds(ask + tick * MAKER_TICKS_AWAY, tick, scale);
    GreatestMultiple(target, tick, scale, 1);
    assert Times(1, tick) == tick;
  }

  /** For an uncrossed book and ticks on the grid there is a plan exactly when the quantity is positive
      and within the budget. */
  lemma PlanExists(s: Spec, bid: real, ask: real, budget: real)
    requires 0.0 < bid <= ask && s.tick > 0.0 && s.step > 0.0 && OnGrid(s.tick, s.priceScale)
    ensures BuildPlan(s, bid, ask, budget).Some?
       <==> 0.0 < PlannedQuantity(s, ask) && PlannedQuantity(s, ask) * ask <= budget
  {
    MakerPricesOrdered(s.tick, s.priceScale, bid, ask);
  }

  /** The triggers: 0.35 percent away from the entry, or forty ticks if that is more. */
  lemma TriggersExact(tick: real, scale: nat, entry: real, k: int)
    requires tick > 0.0 && entry > 0.0 && OnGrid(tick, scale)
    ensures var t := Times(k, tick);
            && (TakeProfitPrice(tick, scale, entry) <= t <==> entry + 0.0035 * entry <= t && entry + 40.0 * tick <= t)
            && (t <= StopPrice(tick, scale, entry)
                <==> (t <= entry - 0.0035 * entry && t <= entry - 40.0 * tick) || t <= tick)
  {
    LeastMultiple(entry + Offset(tick, entry), tick, scale, k);
    GreatestMultiple(Max(entry - Offset(tick, entry), tick), tick, scale, k);
  }

  /** The ladder: rung `n` is `n` ticks beyond four per mille of the ask, or fifty ticks if that is more. */
  lemma LadderExact(tick: real, scale: nat, bid: real, ask: real, n: nat, k: int)
    requires tick > 0.0 && ask > 0.0 && OnGrid(tick, scale)
    ensures var t, rung := Times(k, tick), tick * n as real;
            && (SellPrice(tick, scale, ask, n) <= t
                <==> ask + 0.0040 * ask + rung <= t && ask + 50.0 * tick + rung <= t)
            && (t <= BuyPrice(tick, scale, bid, ask, n)
                <==> (t <= bid - 0.0040 * ask - rung && t <= bid - 50.0 * tick - rung) || t <= tick)
  {
    var rung := tick * n as real;
    assert rung >= 0.0;
    LeastMultiple(ask + (BurstDistance(tick, ask) + rung), tick, scale, k);
    GreatestMultiple(Max(bid - (BurstDistance(tick, ask) + rung), tick), tick, scale, k);
  }
}
