/**
 * The slippage-aware leg executor: an IOC price ladder from mid to touch, then a market order for the rest.
 *
 * The broker is adversarial: an arbitrary function from the position of a call in the run, and from the
 * request, to what the call does. Every run against a stateful, adaptive broker is a run against such a function.
 */
module SmartExecutor {
  import opened Rounding

  datatype OrderSide = BUY | SELL
  datatype OrderType = MARKET | LIMIT
  datatype OrderStatus = PENDING | OPEN | COMPLETE | CANCELLED | REJECTED | UNKNOWN
  datatype OrderRequest = OrderRequest(side: OrderSide, qty: int, kind: OrderType, price: real)

  datatype QuoteRead = QuoteFails | Quote(bid: real, ask: real)
  datatype StatusRead = ReadFails | Read(qty: int, avg: real, status: OrderStatus)

  /** What becomes of one order: the reads made before the fill timeout, the read made after it, and the
      quantity it really trades in the end, whatever the reads say. */
  datatype OrderLife = OrderLife(accepted: bool, polls: seq<StatusRead>, later: StatusRead, traded: int)

  datatype Broker = Broker(quote: nat -> QuoteRead, life: (nat, OrderRequest) -> OrderLife)

  /** One placed order, with the fill the executor booked for it. */
  datatype Order = Order(req: OrderRequest, life: OrderLife, booked: int, avg: real)

  datatype LegFill = LegFill(filledQty: int, avgPrice: real, orderIds: seq<nat>, completed: bool)
  datatype Outcome = Returned(fill: LegFill) | Raised

  const TEN_NANO := 0.00000001

  // ---------------------------------------------------------------- prices

  function RoundTick(price: real, tick: real): (r: real)
    ensures tick <= 0.0 ==> price - 0.005 <= r <= price + 0.005
    ensures tick > 0.0 ==> price - tick / 2.0 - TEN_NANO / 2.0 <= r <= price + tick / 2.0 + TEN_NANO / 2.0
  {
    if tick > 0.0 then RoundTo(RoundTo(price, tick), TEN_NANO) else RoundTo(price, 0.01)
  }

  lemma RoundTickMonotone(p: real, q: real, tick: real)
    requires p <= q
    ensures RoundTick(p, tick) <= RoundTick(q, tick)
  {
    if tick > 0.0 {
      RoundToMonotone(p, q, tick);
      RoundToMonotone(RoundTo(p, tick), RoundTo(q, tick), TEN_NANO);
    } else {
      RoundToMonotone(p, q, 0.01);
    }
  }

  function Nanos(units: int): real { units as real * TEN_NANO }

  /** The tick has at most eight decimals. */
  ghost predicate WholeNanos(tick: real) { exists units: int :: tick == Nanos(units) }

  ghost predicate WithinHalfTick(tick: real) {
    forall price: real :: price - tick / 2.0 <= RoundTick(price, tick) <= price + tick / 2.0
  }

  /** The outer rounding to eight decimals keeps every rounded price within half a tick if and only if the tick has
      at most eight decimals itself. */
  lemma HalfTickIff(tick: real)
    requires tick > 0.0
    ensures WithinHalfTick(tick) <==> WholeNanos(tick)
  {
    if WholeNanos(tick) {
      forall price: real
        ensures price - tick / 2.0 <= RoundTick(price, tick) <= price + tick / 2.0
      {
        RoundTickHalf(price, tick);
      }
    } else {
      var price := FineTickStrays(tick);
    }
  }

  lemma {:induction false} RoundTickHalf(price: real, tick: real)
    requires tick > 0.0 && WholeNanos(tick)
    ensures price - tick / 2.0 <= RoundTick(price, tick) <= price + tick / 2.0
  {
    var units: int :| tick == Nanos(units);
    var n := RoundToMultiple(price, tick);
    Regroup(n, units);
    RoundToExact(n as real * tick, TEN_NANO, n * units);
  }

  lemma Regroup(n: int, units: int)
    ensures n as real * Nanos(units) == (n * units) as real * TEN_NANO
  {
    assert (n * units) as real == n as real * units as real;
  }

  /** A tick with more decimals moves some price by more than half a tick: one just above half a tick if the tick
      itself is rounded up, one just below one and a half ticks if it is rounded down. */
  lemma FineTickStrays(tick: real) returns (price: real)
    requires tick > 0.0 && !WholeNanos(tick)
    ensures RoundTick(price, tick) > price + tick / 2.0 || RoundTick(price, tick) < price - tick / 2.0
  {
    var n := RoundToMultiple(tick, TEN_NANO);
    var off := RoundTo(tick, TEN_NANO) - tick;
    assert off != 0.0 by {
      assert off == 0.0 ==> tick == Nanos(n);
    }
    var gap := if off > 0.0 then off / 2.0 else -off / 2.0;
    var shift := if gap < tick / 2.0 then gap else tick / 2.0;
    price := if off > 0.0 then tick / 2.0 + shift else 1.5 * tick - shift;
    RoundToOne(price, tick);
  }

  function Mid(bid: real, ask: real): real { (bid + ask) / 2.0 }

  function Touch(side: OrderSide, bid: real, ask: real): real { if side.SELL? then bid else ask }

  function Rungs(chases: int): (r: real)
    ensures r >= 1.0 && (chases > 0 ==> r == chases as real)
  {
    if chases > 1 then chases as real else 1.0
  }

  /** The share of the half-spread that attempt n is ready to give up: 0 at the mid, 1 at the touch. */
  function Frac(attempt: nat, chases: int): real { attempt as real / Rungs(chases) }

  function RawPrice(side: OrderSide, bid: real, ask: real, frac: real): real {
    Mid(bid, ask) + (Touch(side, bid, ask) - Mid(bid, ask)) * frac
  }

  function LadderPrice(side: OrderSide, bid: real, ask: real, attempt: nat, chases: int, tick: real): real {
    RoundTick(RawPrice(side, bid, ask, Frac(attempt, chases)), tick)
  }

  lemma FracOrder(a: nat, b: nat, chases: int)
    requires a <= b <= chases
    ensures 0.0 <= Frac(a, chases) <= Frac(b, chases) <= 1.0
    ensures Frac(0, chases) == 0.0 && (chases > 0 ==> Frac(chases, chases) == 1.0)
  {
    var rungs := Rungs(chases);
    hide Rungs;
    DivideOrder(0.0, a as real, rungs);
    DivideOrder(a as real, b as real, rungs);
    DivideOrder(b as real, rungs, rungs);
    assert 0.0 / rungs == 0.0 && rungs / rungs == 1.0;
  }

  lemma ShiftOrder(base: real, step: real, f: real, g: real)
    requires f <= g
    ensures step <= 0.0 ==> base + step * g <= base + step * f
    ensures step >= 0.0 ==> base + step * f <= base + step * g
  {
    if step <= 0.0 {
      ScaleOrder(f, g, -step);
      assert f * -step == -(step * f) && g * -step == -(step * g);
    } else {
      ScaleOrder(f, g, step);
      assert f * step == step * f && g * step == step * g;
    }
  }

  lemma RawOrder(side: OrderSide, bid: real, ask: real, f: real, g: real)
    requires bid <= ask && f <= g
    ensures side.SELL? ==> RawPrice(side, bid, ask, g) <= RawPrice(side, bid, ask, f)
    ensures side.BUY? ==> RawPrice(side, bid, ask, f) <= RawPrice(side, bid, ask, g)
    ensures RawPrice(side, bid, ask, 0.0) == Mid(bid, ask)
    ensures RawPrice(side, bid, ask, 1.0) == Touch(side, bid, ask)
  {
    ShiftOrder(Mid(bid, ask), Touch(side, bid, ask) - Mid(bid, ask), f, g);
  }

  /** The ladder starts at the mid, ends at the touch and moves only towards the touch. */
  lemma LadderMonotone(side: OrderSide, bid: real, ask: real, a: nat, b: nat, chases: int, tick: real)
    requires bid <= ask && a <= b <= chases
    ensures side.SELL? ==> LadderPrice(side, bid, ask, b, chases, tick) <= LadderPrice(side, bid, ask, a, chases, tick)
    ensures side.BUY? ==> LadderPrice(side, bid, ask, a, chases, tick) <= LadderPrice(side, bid, ask, b, chases, tick)
    ensures LadderPrice(side, bid, ask, 0, chases, tick) == RoundTick(Mid(bid, ask), tick)
    ensures chases > 0 ==> LadderPrice(side, bid, ask, chases, chases, tick) == RoundTick(Touch(side, bid, ask), tick)
  {
    FracOrder(a, b, chases);
    var f, g := Frac(a, chases), Frac(b, chases);
    RawOrder(side, bid, ask, f, g);
    if side.SELL? {
      RoundTickMonotone(RawPrice(side, bid, ask, g), RawPrice(side, bid, ask, f), tick);
    } else {
      RoundTickMonotone(RawPrice(side, bid, ask, f), RawPrice(side, bid, ask, g), tick);
    }
  }

  /** How far the rounding can move a price: half a tick when the tick has at most eight decimals, five parts in a
      billion more when it has not, 0.005 without a tick. */
  ghost function Slack(tick: real): real {
    if tick <= 0.0 then 0.005 else if WholeNanos(tick) then tick / 2.0 else tick / 2.0 + TEN_NANO / 2.0
  }

  predicate InSpread(side: OrderSide, bid: real, ask: real, price: real, slack: real) {
    if side.SELL? then bid - slack <= price <= Mid(bid, ask) + slack
    else Mid(bid, ask) - slack <= price <= ask + slack
  }

  /** The ladder never leaves the interval from mid to touch by more than the rounding does. */
  lemma LadderWithin(side: OrderSide, bid: real, ask: real, attempt: nat, chases: int, tick: real)
    requires bid <= ask && attempt <= chases
    ensures InSpread(side, bid, ask, LadderPrice(side, bid, ask, attempt, chases, tick), Slack(tick))
  {
    FracOrder(attempt, chases, chases);
    var f := Frac(attempt, chases);
    RawOrder(side, bid, ask, 0.0, f);
    RawOrder(side, bid, ask, f, 1.0);
    if tick > 0.0 && WholeNanos(tick) {
      RoundTickHalf(RawPrice(side, bid, ask, f), tick);
    }
  }

  // ---------------------------------------------------------------- waiting for one order

  predicate Filled(r: StatusRead) { r.Read? && r.status.COMPLETE? && r.avg > 0.0 }

  predicate Dead(r: StatusRead) { r.Read? && (r.status.CANCELLED? || r.status.REJECTED?) }

  /** What polling yields: the first decisive read wins; on timeout the last successful read counts only if COMPLETE. */
  function Awaited(polls: seq<StatusRead>, last: StatusRead): (r: StatusRead)
    requires last.Read?
    ensures r.Read?
    ensures r.qty != 0 ==> r.status.COMPLETE? && (r in polls || r == last)
    ensures (exists k :: 0 <= k < |polls| && Filled(polls[k]) && forall j :: 0 <= j < k ==> !Dead(polls[j])) ==>
        Filled(r)
  {
    if polls == [] then last.(qty := if last.status.COMPLETE? then last.qty else 0)
    else if polls[0].ReadFails? then
      var r := Awaited(polls[1..], last);
      AwaitTail(polls);
      r
    else if Filled(polls[0]) then polls[0]
    else if Dead(polls[0]) then Read(0, 0.0, polls[0].status)
    else
      var r := Awaited(polls[1..], polls[0]);
      AwaitTail(polls);
      r
  }

  lemma AwaitTail(polls: seq<StatusRead>)
    requires polls != [] && !Filled(polls[0])
    ensures (exists k :: 0 <= k < |polls| && Filled(polls[k]) && forall j :: 0 <= j < k ==> !Dead(polls[j]))
        ==> (exists k :: 0 <= k < |polls[1..]| && Filled(polls[1..][k])
                         && forall j :: 0 <= j < k ==> !Dead(polls[1..][j]))
  {
    if k :| 0 <= k < |polls| && Filled(polls[k]) && forall j :: 0 <= j < k ==> !Dead(polls[j]) {
      var rest := polls[1..];
      assert Filled(rest[k - 1]);
      assert forall j :: 0 <= j < k - 1 ==> rest[j] == polls[j + 1];
    }
  }

  const NEVER_READ := Read(0, 0.0, UNKNOWN)

  method AwaitFill(polls: seq<StatusRead>) returns (qty: int, avg: real, status: OrderStatus)
    ensures Read(qty, avg, status) == Awaited(polls, NEVER_READ)
  {
    var last := NEVER_READ;
    var i := 0;
    while i < |polls|
      invariant 0 <= i <= |polls| && last.Read?
      invariant Awaited(polls[i..], last) == Awaited(polls, NEVER_READ)
    {
      var f := polls[i];
      assert polls[i..][0] == f && polls[i..][1..] == polls[i + 1..];
      i := i + 1;
      if f.ReadFails? {
        continue;
      }
      last := f;
      if f.status.COMPLETE? && f.avg > 0.0 {
        return f.qty, f.avg, f.status;
      }
      if f.status.CANCELLED? || f.status.REJECTED? {
        return 0, 0.0, f.status;
      }
    }
    return if last.status.COMPLETE? then last.qty else 0, last.avg, last.status;
  }

  // ---------------------------------------------------------------- what is booked for one order

  function Usable(qty: int, avg: real): (int, real) {
    if qty > 0 && avg > 0.0 then (qty, avg) else (0, 0.0)
  }

  /** An IOC order is booked from the read after the wait, falling back to the wait's own result. */
  function LimitFill(life: OrderLife): (int, real) {
    var waited := Awaited(life.polls, NEVER_READ);
    if life.later.Read? && life.later.qty > 0 then Usable(life.later.qty, life.later.avg)
    else Usable(waited.qty, waited.avg)
  }

  /** A market order is booked from the wait, falling back to one more read, which may raise. */
  predicate MarketReadRaises(life: OrderLife) {
    var waited := Awaited(life.polls, NEVER_READ);
    (waited.qty <= 0 || waited.avg <= 0.0) && life.later.ReadFails?
  }

  function MarketFill(life: OrderLife): (int, real)
    requires !MarketReadRaises(life)
  {
    var waited := Awaited(life.polls, NEVER_READ);
    if waited.qty > 0 && waited.avg > 0.0 then (waited.qty, waited.avg)
    else Usable(life.later.qty, life.later.avg)
  }

  // ---------------------------------------------------------------- sums over the orders of a leg

  function Booked(log: seq<Order>): int {
    if log == [] then 0 else Booked(log[..|log| - 1]) + log[|log| - 1].booked
  }

  /** What the first n orders booked. */
  function BookedBy(log: seq<Order>, n: nat): int
    requires n <= |log|
  {
    Booked(log[..n])
  }

  function Traded(log: seq<Order>): int {
    if log == [] then 0 else Traded(log[..|log| - 1]) + log[|log| - 1].life.traded
  }

  function Notional(log: seq<Order>): real {
    if log == [] then 0.0 else Notional(log[..|log| - 1]) + Value(log[|log| - 1])
  }

  function Value(o: Order): real { o.avg * o.booked as real }

  // ---------------------------------------------------------------- what a run of the executor is

  /** Attempt n of the ladder can be priced. */
  predicate Quoted(b: Broker, side: OrderSide, n: nat, chases: int, tick: real) {
    var q := b.quote(n);
    q.Quote? && q.bid > 0.0 && q.ask > 0.0 && LadderPrice(side, q.bid, q.ask, n, chases, tick) > 0.0
  }

  /** The n-th order of a leg is an IOC rung, for exactly what is not booked yet, at the n-th rung's price. */
  predicate Rung(b: Broker, side: OrderSide, qty: int, chases: int, tick: real, log: seq<Order>, n: nat)
    requires n < |log|
  {
    var o := log[n];
    n <= chases && Quoted(b, side, n, chases, tick) && o.req.qty > 0
    && o.req == OrderRequest(side, qty - BookedBy(log, n), LIMIT,
                             LadderPrice(side, b.quote(n).bid, b.quote(n).ask, n, chases, tick))
    && o.life == b.life(n, o.req)
    && (o.booked, o.avg) == if o.life.accepted then LimitFill(o.life) else (0, 0.0)
  }

  /** The n-th order is the market order that mops up what no rung booked. */
  predicate Mop(b: Broker, side: OrderSide, qty: int, log: seq<Order>, n: nat)
    requires n < |log|
  {
    var o := log[n];
    o.req == OrderRequest(side, qty - BookedBy(log, n), MARKET, 0.0)
    && o.life == b.life(n, o.req)
    && (o.booked, o.avg) == if o.life.accepted && !MarketReadRaises(o.life) then MarketFill(o.life) else (0, 0.0)
  }

  /** Why the ladder stops after n rungs. */
  predicate LadderOver(b: Broker, side: OrderSide, qty: int, chases: int, tick: real, log: seq<Order>) {
    Booked(log) >= qty || |log| > chases || !Quoted(b, side, |log|, chases, tick)
  }

  /** The ladder so far: every order an accepted rung that left something to do. */
  predicate Climbing(b: Broker, side: OrderSide, qty: int, chases: int, tick: real, log: seq<Order>, upto: int)
    requires upto <= |log|
  {
    forall n :: 0 <= n < upto ==>
      Rung(b, side, qty, chases, tick, log, n) && log[n].life.accepted && BookedBy(log, n + 1) < qty
  }

  predicate LastOrder(b: Broker, side: OrderSide, qty: int, chases: int, useLimit: bool, tick: real,
                      log: seq<Order>, m: nat)
    requires m < |log|
  {
    if !useLimit then m == 0 && Mop(b, side, qty, log, 0)
    else Rung(b, side, qty, chases, tick, log, m)
         || (Mop(b, side, qty, log, m) && BookedBy(log, m) < qty && LadderOver(b, side, qty, chases, tick, log[..m]))
  }

  /** The order's place_order raised, or the last-resort read of a market order did. */
  predicate OrderRaises(o: Order) {
    !o.life.accepted || (o.req.kind.MARKET? && MarketReadRaises(o.life))
  }

  predicate Verdict(qty: int, log: seq<Order>, r: Outcome) {
    match r
    case Raised => log != [] && OrderRaises(log[|log| - 1])
    case Returned(fill) =>
      (log != [] ==> !OrderRaises(log[|log| - 1]))
      && (Booked(log) >= qty || (log != [] && log[|log| - 1].req.kind.MARKET?))
      && fill.filledQty == Booked(log)
      && fill.avgPrice == RoundTo(Average(log), TEN_NANO)
      && fill.orderIds == seq(|log|, i => i)
      && (fill.completed <==> Booked(log) >= qty)
  }

  /** One run of the executor: rungs, each for what the earlier ones did not book, then possibly a market order,
      and the verdict on all of them. */
  predicate Run(b: Broker, side: OrderSide, qty: int, chases: int, useLimit: bool, tick: real,
                log: seq<Order>, r: Outcome)
  {
    Climbing(b, side, qty, chases, tick, log, |log| - 1)
    && (log != [] ==> LastOrder(b, side, qty, chases, useLimit, tick, log, |log| - 1))
    && (log == [] ==> useLimit && qty <= 0)
    && Verdict(qty, log, r)
  }

  function Average(log: seq<Order>): real {
    if Booked(log) == 0 then 0.0 else Notional(log) / Booked(log) as real
  }

  method PlaceMarket(b: Broker, side: OrderSide, qty: int, log: seq<Order>) returns (raised: bool, log': seq<Order>)
    ensures |log'| == |log| + 1 && log'[..|log|] == log
    ensures Mop(b, side, qty, log', |log|)
    ensures raised <==> OrderRaises(log'[|log|])
  {
    var req := OrderRequest(side, qty - Booked(log), MARKET, 0.0);
    var life := b.life(|log|, req);
    if !life.accepted {
      return true, log + [Order(req, life, 0, 0.0)];
    }
    var q, avg, _ := AwaitFill(life.polls);
    if q <= 0 || avg <= 0.0 {
      match life.later
      case ReadFails =>
        return true, log + [Order(req, life, 0, 0.0)];
      case Read(qty', avg', _) =>
        q, avg := qty', avg';
    }
    raised := false;
    log' := log + [if q > 0 && avg > 0.0 then Order(req, life, q, avg) else Order(req, life, 0, 0.0)];
  }

  /** One IOC attempt: place it, wait, read once more, book the authoritative fill. */
  method PlaceRung(b: Broker, side: OrderSide, qty: int, price: real, log: seq<Order>) returns (log': seq<Order>)
    ensures |log'| == |log| + 1 && log'[..|log|] == log
    ensures var o := log'[|log|];
            o.req == OrderRequest(side, qty - Booked(log), LIMIT, price)
            && o.life == b.life(|log|, o.req)
            && (o.booked, o.avg) == if o.life.accepted then LimitFill(o.life) else (0, 0.0)
  {
    var req := OrderRequest(side, qty - Booked(log), LIMIT, price);
    var life := b.life(|log|, req);
    if !life.accepted {
      return log + [Order(req, life, 0, 0.0)];
    }
    var q, avg, _ := AwaitFill(life.polls);
    var fq, favg := 0, 0.0;
    if life.later.Read? {
      fq, favg := life.later.qty, life.later.avg;
    }
    if fq <= 0 && q > 0 {
      fq, favg := q, avg;
    }
    log' := log + [if fq > 0 && favg > 0.0 then Order(req, life, fq, favg) else Order(req, life, 0, 0.0)];
  }

  /** One pass of the ladder loop: nothing left, no usable quote or price (stop), or one more rung. */
  method Attempt(b: Broker, side: OrderSide, qty: int, chases: int, tick: real, filledQty: int, log: seq<Order>)
    returns (stop: bool, log': seq<Order>)
    requires |log| <= chases && filledQty == Booked(log)
    ensures stop ==> log' == log && LadderOver(b, side, qty, chases, tick, log)
    ensures !stop ==> |log'| == |log| + 1 && log'[..|log|] == log && Rung(b, side, qty, chases, tick, log', |log|)
  {
    hide LadderPrice, Value;
    var remaining := qty - filledQty;
    if remaining <= 0 {
      return true, log;
    }
    var quote := b.quote(|log|);
    if quote.QuoteFails? || !(quote.bid > 0.0 && quote.ask > 0.0) {
      return true, log;
    }
    var price := LadderPrice(side, quote.bid, quote.ask, |log|, chases, tick);
    if price <= 0.0 {
      return true, log;
    }
    log' := PlaceRung(b, side, qty, price, log);
    stop := false;
  }

  method ExecuteLeg(b: Broker, side: OrderSide, qty: int, chases: int, useLimit: bool, tick: real)
    returns (r: Outcome, log: seq<Order>)
    ensures Run(b, side, qty, chases, useLimit, tick, log, r)
  {
    hide Value, RoundTo, Run, Rung, Mop, LadderOver;
    log := [];
    var stop, raised := false, false;
    if !useLimit {
      raised, log := PlaceMarket(b, side, qty, log);
      MarketOnly(b, side, qty, chases, tick, log);
      return if raised then Raised else Finish(qty, log[0].booked, Value(log[0]), log), log;
    }
    var attempt, filledQty, notional := 0, 0, 0.0;
    while attempt <= chases && !stop
      invariant attempt == |log| && filledQty == Booked(log) && notional == Notional(log)
      invariant Climbing(b, side, qty, chases, tick, log, |log|) && (log != [] ==> filledQty < qty)
      invariant stop ==> LadderOver(b, side, qty, chases, tick, log)
      decreases chases - attempt, !stop
    {
      ghost var before := log;
      stop, log := Attempt(b, side, qty, chases, tick, filledQty, log);
      if !stop {
        Extended(b, side, qty, chases, tick, before, log);
        LadderEnds(b, side, qty, chases, tick, log);
        filledQty := filledQty + log[attempt].booked;
        notional := notional + Value(log[attempt]);
        if !log[attempt].life.accepted {
          return Raised, log;
        }
        if filledQty >= qty {
          return Finish(qty, filledQty, notional, log), log;
        }
        attempt := attempt + 1;
      }
    }
    LadderDone(b, side, qty, chases, tick, log, stop);
    if filledQty < qty {
      ghost var rungs := log;
      raised, log := PlaceMarket(b, side, qty, log);
      Extended(b, side, qty, chases, tick, rungs, log);
      MoppedUp(b, side, qty, chases, tick, rungs, log);
      filledQty := filledQty + log[attempt].booked;
      notional := notional + Value(log[attempt]);
    }
    r := if raised then Raised else Finish(qty, filledQty, notional, log);
  }

  function Finish(qty: int, filledQty: int, notional: real, log: seq<Order>): Outcome {
    var avg := if filledQty != 0 then notional / filledQty as real else 0.0;
    Returned(LegFill(filledQty, RoundTo(avg, TEN_NANO), seq(|log|, i => i), filledQty >= qty))
  }

  /** Appending an order changes nothing about the orders before it. */
  lemma Extended(b: Broker, side: OrderSide, qty: int, chases: int, tick: real, log: seq<Order>, log': seq<Order>)
    requires |log'| == |log| + 1 && log'[..|log|] == log
    requires Climbing(b, side, qty, chases, tick, log, |log|)
    ensures Climbing(b, side, qty, chases, tick, log', |log|)
    ensures forall n :: 0 <= n <= |log| ==> BookedBy(log', n) == BookedBy(log, n)
    ensures BookedBy(log', |log'|) == Booked(log') && BookedBy(log, |log|) == Booked(log)
    ensures Booked(log') == Booked(log) + log'[|log|].booked && Notional(log') == Notional(log) + Value(log'[|log|])
  {
    hide LadderPrice, Value;
    assert log'[..|log'|] == log' && log[..|log|] == log;
    forall n | 0 <= n <= |log|
      ensures BookedBy(log', n) == BookedBy(log, n)
    {
      assert log'[..n] == log[..n];
    }
    forall n | 0 <= n < |log|
      ensures Rung(b, side, qty, chases, tick, log', n) && log'[n].life.accepted && BookedBy(log', n + 1) < qty
    {
      assert Rung(b, side, qty, chases, tick, log, n);
    }
  }

  lemma LadderDone(b: Broker, side: OrderSide, qty: int, chases: int, tick: real, log: seq<Order>, stop: bool)
    requires |log| > chases || stop
    requires stop ==> LadderOver(b, side, qty, chases, tick, log)
    ensures LadderOver(b, side, qty, chases, tick, log)
    ensures log == [] && qty <= 0 ==> Run(b, side, qty, chases, true, tick, log, Finish(qty, 0, 0.0, log))
  {
  }

  lemma LadderEnds(b: Broker, side: OrderSide, qty: int, chases: int, tick: real, log: seq<Order>)
    requires log != [] && Climbing(b, side, qty, chases, tick, log, |log| - 1)
    requires Rung(b, side, qty, chases, tick, log, |log| - 1)
    ensures !log[|log| - 1].life.accepted ==> Run(b, side, qty, chases, true, tick, log, Raised)
    ensures log[|log| - 1].life.accepted && Booked(log) >= qty ==>
              Run(b, side, qty, chases, true, tick, log, Finish(qty, Booked(log), Notional(log), log))
  {
    hide LadderPrice, Value, RoundTo, Rung;
    assert log[|log| - 1].req.kind.LIMIT? by { OrderKind(b, side, qty, chases, tick, log, |log| - 1); }
  }

  lemma OrderKind(b: Broker, side: OrderSide, qty: int, chases: int, tick: real, log: seq<Order>, n: nat)
    requires n < |log|
    ensures Rung(b, side, qty, chases, tick, log, n) ==> log[n].req.kind.LIMIT? && n <= chases && log[n].req.qty > 0
    ensures Mop(b, side, qty, log, n) ==> log[n].req.kind.MARKET?
    ensures Rung(b, side, qty, chases, tick, log, n) || Mop(b, side, qty, log, n) ==>
              log[n].booked >= 0 && log[n].life == b.life(n, log[n].req) && log[n].req.qty == qty - BookedBy(log, n)
  {
    hide LadderPrice;
  }

  lemma MarketOnly(b: Broker, side: OrderSide, qty: int, chases: int, tick: real, log: seq<Order>)
    requires |log| == 1 && Mop(b, side, qty, log, 0)
    ensures Booked(log) == log[0].booked && Notional(log) == Value(log[0])
    ensures Run(b, side, qty, chases, false, tick, log,
                if OrderRaises(log[0]) then Raised else Finish(qty, Booked(log), Notional(log), log))
  {
    hide LadderPrice, Value, RoundTo;
    assert log[..0] == [];
    assert Booked(log) == Booked([]) + log[0].booked;
    assert Notional(log) == Notional([]) + Value(log[0]);
  }

  lemma MoppedUp(b: Broker, side: OrderSide, qty: int, chases: int, tick: real, log: seq<Order>, log': seq<Order>)
    requires Climbing(b, side, qty, chases, tick, log, |log|) && LadderOver(b, side, qty, chases, tick, log)
        && Booked(log) < qty
    requires |log'| == |log| + 1 && log'[..|log|] == log && Mop(b, side, qty, log', |log|)
    ensures Run(b, side, qty, chases, true, tick, log',
                if OrderRaises(log'[|log|]) then Raised else Finish(qty, Booked(log'), Notional(log'), log'))
  {
    hide LadderPrice, Value, RoundTo, Rung, Mop, LadderOver;
    Extended(b, side, qty, chases, tick, log, log');
    assert log[..|log|] == log;
    OrderKind(b, side, qty, chases, tick, log', |log|);
  }

  // ---------------------------------------------------------------- what an honest broker guarantees

  /** The broker never trades more than an order asks for and never reports more than it trades. */
  predicate HonestLife(req: OrderRequest, life: OrderLife) {
    0 <= life.traded <= req.qty
    && (life.later.Read? ==> life.later.qty <= life.traded)
    && forall k :: 0 <= k < |life.polls| && life.polls[k].Read? ==> life.polls[k].qty <= life.traded
  }

  ghost predicate Honest(b: Broker) {
    forall n: nat, req: OrderRequest :: req.qty >= 0 ==> HonestLife(req, b.life(n, req))
  }

  /** An IOC order is dead by the second read, which succeeds and prices whatever traded. */
  predicate IocSettled(life: OrderLife) {
    life.later.Read? && life.later.qty == life.traded && (life.traded > 0 ==> life.later.avg > 0.0)
  }

  ghost predicate IocTerminal(b: Broker) {
    forall n: nat, req: OrderRequest :: req.kind.LIMIT? && b.life(n, req).accepted ==> IocSettled(b.life(n, req))
  }

  /** The read a market order is booked from is final. */
  predicate MarketSettled(life: OrderLife) {
    var waited := Awaited(life.polls, NEVER_READ);
    var final := if waited.qty > 0 && waited.avg > 0.0 then waited else life.later;
    final.Read? && final.qty == life.traded && (life.traded > 0 ==> final.avg > 0.0)
  }

  lemma OrderAccounted(b: Broker, side: OrderSide, qty: int, chases: int, useLimit: bool, tick: real,
                       log: seq<Order>, r: Outcome, n: nat)
    requires qty >= 0 && Honest(b) && Run(b, side, qty, chases, useLimit, tick, log, r) && n < |log|
    ensures 0 <= log[n].booked <= log[n].life.traded <= log[n].req.qty == qty - BookedBy(log, n)
  {
    OrderOf(b, side, qty, chases, useLimit, tick, log, r, n);
    hide Run, LadderPrice;
    assert HonestLife(log[n].req, b.life(n, log[n].req));
  }

  lemma OrderOf(b: Broker, side: OrderSide, qty: int, chases: int, useLimit: bool, tick: real,
                log: seq<Order>, r: Outcome, n: nat)
    requires Run(b, side, qty, chases, useLimit, tick, log, r) && n < |log|
    ensures Rung(b, side, qty, chases, tick, log, n) || (n == |log| - 1 && Mop(b, side, qty, log, n))
    ensures n < |log| - 1 ==> log[n].life.accepted && log[n].req.kind.LIMIT?
    ensures log[n].booked >= 0 && log[n].req.qty == qty - BookedBy(log, n)
    ensures log[n].req.qty > 0 || (n == 0 && log[n].req.qty == qty)
  {
    hide Rung, Mop;
    OrderKind(b, side, qty, chases, tick, log, n);
    assert n == 0 ==> log[..n] == [];
  }

  lemma {:induction false} Sums(log: seq<Order>)
    requires forall n :: 0 <= n < |log| ==> 0 <= log[n].booked <= log[n].life.traded
    ensures 0 <= Booked(log) <= Traded(log)
    ensures Booked(log) == Traded(log) <==> forall n :: 0 <= n < |log| ==> log[n].booked == log[n].life.traded
  {
    if log != [] {
      var m := |log| - 1;
      Sums(log[..m]);
      assert forall n :: 0 <= n < m ==> log[..m][n] == log[n];
    }
  }

  /** For every honest broker and every outcome: nothing is booked that did not trade, the leg is never over-booked,
      and whatever trades beyond `qty` is quantity that earlier IOC orders traded but their reads did not show. */
  lemma NeverOverBooked(b: Broker, side: OrderSide, qty: int, chases: int, useLimit: bool, tick: real,
                        log: seq<Order>, r: Outcome)
    requires qty >= 0 && Honest(b) && Run(b, side, qty, chases, useLimit, tick, log, r)
    ensures 0 <= Booked(log) <= Traded(log) && Booked(log) <= qty
    ensures log != [] ==> Traded(log) <= qty + Traded(log[..|log| - 1]) - Booked(log[..|log| - 1])
    ensures Booked(log) == Traded(log) <==> forall n :: 0 <= n < |log| ==> log[n].booked == log[n].life.traded
    ensures r.Returned? ==> r.fill.filledQty <= Traded(log) && r.fill.filledQty <= qty
  {
    hide LadderPrice, Value, RoundTo;
    forall n | 0 <= n < |log|
      ensures 0 <= log[n].booked <= log[n].life.traded <= log[n].req.qty == qty - BookedBy(log, n)
    {
      OrderAccounted(b, side, qty, chases, useLimit, tick, log, r, n);
    }
    Sums(log);
    if log != [] {
      assert BookedBy(log, |log| - 1) == Booked(log[..|log| - 1]);
    }
  }

  lemma LimitExact(b: Broker, side: OrderSide, qty: int, chases: int, useLimit: bool, tick: real,
                   log: seq<Order>, r: Outcome, n: nat)
    requires qty >= 0 && Honest(b) && IocTerminal(b) && Run(b, side, qty, chases, useLimit, tick, log, r) && n < |log|
    ensures log[n].req.kind.LIMIT? && log[n].life.accepted ==> log[n].booked == log[n].life.traded
    ensures log[n].req.kind.MARKET? && !OrderRaises(log[n]) && MarketSettled(log[n].life) ==>
        log[n].booked == log[n].life.traded
  {
    OrderAccounted(b, side, qty, chases, useLimit, tick, log, r, n);
    OrderOf(b, side, qty, chases, useLimit, tick, log, r, n);
    hide Run, LadderPrice;
    assert log[n].req.kind.LIMIT? && log[n].life.accepted ==> IocSettled(b.life(n, log[n].req));
  }

  /** With IOC orders terminal at their second read the account never trades more than was asked for, and when the
      mop-up order is terminal too, what is booked is exactly what traded. */
  lemma NeverOverTraded(b: Broker, side: OrderSide, qty: int, chases: int, useLimit: bool, tick: real,
                        log: seq<Order>, r: Outcome)
    requires qty >= 0 && Honest(b) && IocTerminal(b) && Run(b, side, qty, chases, useLimit, tick, log, r)
    ensures 0 <= Booked(log) <= Traded(log) <= qty
    ensures r.Returned? && (log != [] && log[|log| - 1].req.kind.MARKET? ==> MarketSettled(log[|log| - 1].life))
        ==> r.fill.filledQty == Traded(log)
  {
    NeverOverBooked(b, side, qty, chases, useLimit, tick, log, r);
    forall n | 0 <= n < |log|
      ensures 0 <= log[n].booked <= log[n].life.traded
      ensures n < |log| - 1 ==> log[n].booked == log[n].life.traded
    {
      OrderAccounted(b, side, qty, chases, useLimit, tick, log, r, n);
      LimitExact(b, side, qty, chases, useLimit, tick, log, r, n);
    }
    if log != [] {
      var m := |log| - 1;
      LimitExact(b, side, qty, chases, useLimit, tick, log, r, m);
      Sums(log[..m]);
    }
  }

  /** What the reads of a run's orders missed of what traded. */
  function Missed(log: seq<Order>): int { Traded(log) - Booked(log) }

  /** Exactly when a leg stays within `qty`: what the reads of the earlier orders missed must fit into what the last
      order left untraded. */
  lemma WithinQtyIff(b: Broker, side: OrderSide, qty: int, chases: int, useLimit: bool, tick: real,
                     log: seq<Order>, r: Outcome)
    requires qty >= 0 && Honest(b) && Run(b, side, qty, chases, useLimit, tick, log, r)
    ensures log == [] ==> Traded(log) == 0
    ensures log != [] ==> var m := |log| - 1;
              var last := log[m];
              0 <= Missed(log[..m])
              && (Traded(log) <= qty <==> Missed(log[..m]) <= last.req.qty - last.life.traded)
    ensures log != [] && log[|log| - 1].life.traded == log[|log| - 1].req.qty ==>
              (Traded(log) <= qty <==> forall n :: 0 <= n < |log| - 1 ==> log[n].booked == log[n].life.traded)
  {
    hide Run, Booked;
    if log != [] {
      var m := |log| - 1;
      forall n | 0 <= n < |log|
        ensures 0 <= log[n].booked <= log[n].life.traded <= log[n].req.qty == qty - BookedBy(log, n)
      {
        OrderAccounted(b, side, qty, chases, useLimit, tick, log, r, n);
      }
      assert forall n :: 0 <= n < m ==> log[..m][n] == log[n];
      Sums(log[..m]);
      assert Traded(log) == Traded(log[..m]) + log[m].life.traded;
    }
  }

  /** The IOC assumption is needed: one failed second read and an honest broker trades twice the quantity,
      while the executor reports a clean complete fill. */
  lemma LostReadDoubles(qty: int) returns (b: Broker, log: seq<Order>, r: Outcome)
    requires qty > 0
    ensures Honest(b) && Run(b, SELL, qty, 0, true, 0.0, log, r)
    ensures r.Returned? && r.fill.completed && r.fill.filledQty == qty && Traded(log) == 2 * qty
  {
    hide LadderPrice, Value, RoundTo;
    b := Forgetful();
    var price := LadderPrice(SELL, 1.0, 1.0, 0, 0, 0.0);
    assert price > 0.0 by { LadderWithin(SELL, 1.0, 1.0, 0, 0, 0.0); }
    var rung, mop := OrderRequest(SELL, qty, LIMIT, price), OrderRequest(SELL, qty, MARKET, 0.0);
    var first := [Order(rung, b.life(0, rung), 0, 0.0)];
    log := first + [Order(mop, b.life(1, mop), qty, 1.0)];
    assert log[..1] == first && first[..0] == [] && first[..1] == first;
    assert Booked(first) == Booked([]) && Traded(first) == Traded([]) + qty;
    assert Climbing(b, SELL, qty, 0, 0.0, first, 1);
    MoppedUp(b, SELL, qty, 0, 0.0, first, log);
    r := Finish(qty, Booked(log), Notional(log), log);
  }

  /** Honest, but the read after an IOC order always fails. */
  function Forgetful(): Broker {
    Broker((n: nat) => Quote(1.0, 1.0),
           (n: nat, req: OrderRequest) =>
             OrderLife(true, [], if req.kind.LIMIT? then ReadFails else Read(req.qty, 1.0, COMPLETE), req.qty))
  }

  lemma Blend(notional: real, units: real, avg: real, more: real, lo: real, hi: real)
    requires lo * units <= notional <= hi * units
    requires more >= 0.0 && (more > 0.0 ==> lo <= avg <= hi)
    ensures lo * (units + more) <= notional + avg * more <= hi * (units + more)
  {
    if more > 0.0 {
      ScaleOrder(lo, avg, more);
      ScaleOrder(avg, hi, more);
    }
    assert lo * (units + more) == lo * units + lo * more && hi * (units + more) == hi * units + hi * more;
  }

  lemma ValueIs(o: Order)
    ensures Value(o) == o.avg * o.booked as real
  {
  }

  lemma {:induction false} NotionalWithin(log: seq<Order>, lo: real, hi: real)
    requires forall n :: 0 <= n < |log| ==> log[n].booked == 0 || (log[n].booked > 0 && lo <= log[n].avg <= hi)
    ensures Booked(log) >= 0
    ensures lo * Booked(log) as real <= Notional(log) <= hi * Booked(log) as real
  {
    hide Value;
    if log != [] {
      var m := |log| - 1;
      NotionalWithin(log[..m], lo, hi);
      assert log[m].booked == 0 || (log[m].booked > 0 && lo <= log[m].avg <= hi);
      assert Notional(log) == Notional(log[..m]) + Value(log[m]);
      assert Booked(log) == Booked(log[..m]) + log[m].booked;
      hide Notional, Booked;
      ValueIs(log[m]);
      Blend(Notional(log[..m]), Booked(log[..m]) as real, log[m].avg, log[m].booked as real, lo, hi);
    }
  }

  lemma Quotient(notional: real, units: real, lo: real, hi: real)
    requires units > 0.0 && lo * units <= notional <= hi * units
    ensures lo <= notional / units <= hi
  {
    DivideOrder(lo * units, notional, units);
    DivideOrder(notional, hi * units, units);
    assert lo * units / units == lo && hi * units / units == hi;
  }

  /** The volume-weighted average of the booked fills lies between the cheapest and the dearest of them. */
  lemma AverageWithin(b: Broker, side: OrderSide, qty: int, chases: int, useLimit: bool, tick: real,
                      log: seq<Order>, r: Outcome, lo: real, hi: real)
    requires Run(b, side, qty, chases, useLimit, tick, log, r) && Booked(log) != 0
    requires forall n :: 0 <= n < |log| && log[n].booked > 0 ==> lo <= log[n].avg <= hi
    ensures lo <= Average(log) <= hi
  {
    hide Run;
    forall n | 0 <= n < |log|
      ensures log[n].booked >= 0
    {
      BookedNonNegative(b, side, qty, chases, useLimit, tick, log, r, n);
    }
    NotionalWithin(log, lo, hi);
    Quotient(Notional(log), Booked(log) as real, lo, hi);
  }

  lemma BookedNonNegative(b: Broker, side: OrderSide, qty: int, chases: int, useLimit: bool, tick: real,
                          log: seq<Order>, r: Outcome, n: nat)
    requires Run(b, side, qty, chases, useLimit, tick, log, r) && n < |log|
    ensures log[n].booked >= 0
  {
    OrderOf(b, side, qty, chases, useLimit, tick, log, r, n);
  }

  /** At most one order per rung and one market order; against a standing quote the rungs move one way,
      from mid to touch, and stay within the rounding error of that interval. */
  lemma LadderRun(b: Broker, side: OrderSide, qty: int, chases: nat, tick: real,
                  log: seq<Order>, r: Outcome, bid: real, ask: real, i: nat, j: nat)
    requires Run(b, side, qty, chases, true, tick, log, r)
    requires bid <= ask && forall n :: 0 <= n <= chases ==> b.quote(n) == Quote(bid, ask)
    requires i <= j < |log| && log[j].req.kind.LIMIT?
    ensures |log| <= chases + 2 && log[i].req.kind.LIMIT?
    ensures side.SELL? ==> log[j].req.price <= log[i].req.price
    ensures side.BUY? ==> log[i].req.price <= log[j].req.price
    ensures InSpread(side, bid, ask, log[i].req.price, Slack(tick))
  {
    OrdersPlaced(b, side, qty, chases, true, tick, log, r);
    LadderOf(b, side, qty, chases, tick, log, r, i);
    LadderOf(b, side, qty, chases, tick, log, r, j);
    LadderMonotone(side, bid, ask, i, j, chases, tick);
    LadderWithin(side, bid, ask, i, chases, tick);
  }

  lemma LadderOf(b: Broker, side: OrderSide, qty: int, chases: nat, tick: real, log: seq<Order>, r: Outcome, n: nat)
    requires Run(b, side, qty, chases, true, tick, log, r) && n < |log| <= chases + 2
    requires n < |log| - 1 || log[n].req.kind.LIMIT?
    ensures n <= chases && log[n].req.kind.LIMIT?
    ensures log[n].req.price == LadderPrice(side, b.quote(n).bid, b.quote(n).ask, n, chases, tick)
  {
    hide LadderPrice, Value, RoundTo;
  }

  lemma OrdersPlaced(b: Broker, side: OrderSide, qty: int, chases: int, useLimit: bool, tick: real,
                     log: seq<Order>, r: Outcome)
    requires Run(b, side, qty, chases, useLimit, tick, log, r)
    ensures |log| <= if useLimit && chases >= 0 then chases + 2 else 1
    ensures forall n :: 0 <= n < |log| - 1 ==> log[n].req.kind.LIMIT?
  {
    hide LadderPrice, Value, RoundTo;
    if |log| > 1 {
      assert Rung(b, side, qty, chases, tick, log, |log| - 2);
    }
  }

  // ---------------------------------------------------------------- what a run says, read by read

  /** A rounded price is a whole number of ten-millionths next to a multiple of the tick nearest to the price, or a
      whole number of hundredths without a tick. */
  lemma RoundTickMeans(price: real, tick: real) returns (ticks: int, units: int)
    ensures tick <= 0.0 ==> RoundTick(price, tick) == units as real * 0.01
    ensures tick > 0.0 ==>
              RoundTick(price, tick) == units as real * 0.00000001
              && price - tick / 2.0 <= ticks as real * tick <= price + tick / 2.0
              && ticks as real * tick - 0.000000005 <= RoundTick(price, tick) <= ticks as real * tick + 0.000000005
  {
    hide RoundTo;
    if tick > 0.0 {
      ticks := RoundToMultiple(price, tick);
      units := RoundToMultiple(RoundTo(price, tick), TEN_NANO);
    } else {
      ticks := 0;
      units := RoundToMultiple(price, 0.01);
    }
  }

  /** The ladder in equal steps: after n of `chases` steps the unrounded price is n parts touch and the rest mid. */
  lemma EqualSteps(side: OrderSide, bid: real, ask: real, n: nat, chases: int, tick: real) returns (raw: real)
    ensures LadderPrice(side, bid, ask, n, chases, tick) == RoundTick(raw, tick)
    ensures var touch := if side.SELL? then bid else ask;
            var c := (if chases > 1 then chases else 1) as real;
            raw * c == touch * n as real + (bid + ask) / 2.0 * (c - n as real)
  {
    raw := RawPrice(side, bid, ask, Frac(n, chases));
    LadderIs(side, bid, ask, n, chases, tick);
    RawParts(side, bid, ask, n, chases);
    hide *;
  }

  lemma LadderIs(side: OrderSide, bid: real, ask: real, n: nat, chases: int, tick: real)
    ensures LadderPrice(side, bid, ask, n, chases, tick) == RoundTick(RawPrice(side, bid, ask, Frac(n, chases)), tick)
  {
  }

  lemma RawParts(side: OrderSide, bid: real, ask: real, n: nat, chases: int)
    ensures var touch := if side.SELL? then bid else ask;
            var c := (if chases > 1 then chases else 1) as real;
            RawPrice(side, bid, ask, Frac(n, chases)) * c == touch * n as real + (bid + ask) / 2.0 * (c - n as real)
  {
    var mid, touch := (bid + ask) / 2.0, if side.SELL? then bid else ask;
    var c := (if chases > 1 then chases else 1) as real;
    FracTimes(n, chases);
    RawIs(side, bid, ask, Frac(n, chases));
    hide RawPrice, Frac;
    Weighted(mid, touch, Frac(n, chases), c, n as real);
  }

  lemma FracTimes(n: nat, chases: int)
    ensures Frac(n, chases) * (if chases > 1 then chases else 1) as real == n as real
  {
    TimesBack(n as real, Rungs(chases));
  }

  lemma TimesBack(x: real, d: real)
    requires d != 0.0
    ensures x / d * d == x
  {
  }

  lemma RawIs(side: OrderSide, bid: real, ask: real, f: real)
    ensures var mid, touch := (bid + ask) / 2.0, if side.SELL? then bid else ask;
            RawPrice(side, bid, ask, f) == mid + (touch - mid) * f
  {
  }

  lemma Weighted(mid: real, touch: real, f: real, c: real, n: real)
    requires f * c == n
    ensures (mid + (touch - mid) * f) * c == touch * n + mid * (c - n)
  {
    assert (touch - mid) * f * c == (touch - mid) * n;
  }

  /** A read that ends the wait: complete with an average, cancelled, or rejected. */
  predicate Decisive(r: StatusRead) {
    r.Read? && ((r.status == COMPLETE && r.avg > 0.0) || r.status == CANCELLED || r.status == REJECTED)
  }

  predicate DecidedAt(polls: seq<StatusRead>, k: nat) {
    k < |polls| && Decisive(polls[k]) && forall j :: 0 <= j < k ==> !Decisive(polls[j])
  }

  /** The last successful read, or `last` if there is none. */
  predicate LastRead(polls: seq<StatusRead>, last: StatusRead, r: StatusRead) {
    ((forall j :: 0 <= j < |polls| ==> polls[j].ReadFails?) && r == last)
    || exists k :: 0 <= k < |polls| && polls[k].Read? && r == polls[k]
                   && forall j :: k < j < |polls| ==> polls[j].ReadFails?
  }

  /** What waiting yields: the first decisive read, with nothing filled if that is not a completion; without one the
      last successful read, whose quantity counts only if complete. */
  lemma {:induction false} AwaitedMeans(polls: seq<StatusRead>, last: StatusRead)
    requires last.Read?
    ensures forall k: nat :: DecidedAt(polls, k) ==>
              Awaited(polls, last) == if polls[k].status == COMPLETE then polls[k] else Read(0, 0.0, polls[k].status)
    ensures (forall k: nat :: !DecidedAt(polls, k)) ==>
              exists r: StatusRead :: LastRead(polls, last, r) && r.Read?
                && Awaited(polls, last) == Read(if r.status == COMPLETE then r.qty else 0, r.avg, r.status)
  {
    if polls == [] {
      assert LastRead(polls, last, last);
    } else {
      var rest := polls[1..];
      var next := if polls[0].ReadFails? then last else polls[0];
      AwaitedMeans(rest, next);
      forall k: nat | !Decisive(polls[0])
        ensures DecidedAt(rest, k) <==> DecidedAt(polls, k + 1)
      {
        assert forall j :: 0 <= j < |rest| ==> rest[j] == polls[j + 1];
      }
      if Decisive(polls[0]) {
        assert DecidedAt(polls, 0);
      } else if forall k: nat :: !DecidedAt(polls, k) {
        assert forall k: nat :: !DecidedAt(rest, k);
        var r: StatusRead :| LastRead(rest, next, r) && r.Read?
          && Awaited(rest, next) == Read(if r.status == COMPLETE then r.qty else 0, r.avg, r.status);
        LastReadTail(polls, last, r);
      }
    }
  }

  lemma LastReadTail(polls: seq<StatusRead>, last: StatusRead, r: StatusRead)
    requires polls != [] && LastRead(polls[1..], if polls[0].ReadFails? then last else polls[0], r)
    ensures LastRead(polls, last, r)
  {
    var rest := polls[1..];
    assert forall j :: 0 < j < |polls| ==> polls[j] == rest[j - 1];
    if k :| 0 <= k < |rest| && rest[k].Read? && r == rest[k] && forall j :: k < j < |rest| ==> rest[j].ReadFails? {
      assert polls[k + 1] == r;
    }
  }

  /** The wait ended with a fill: its first decisive read is a completion of this quantity at this average. */
  ghost predicate WaitFilled(polls: seq<StatusRead>, qty: int, avg: real) {
    exists k: nat ::
      DecidedAt(polls, k) && polls[k].status == COMPLETE && polls[k].qty == qty > 0 && polls[k].avg == avg
  }

  lemma WaitUsable(polls: seq<StatusRead>)
    ensures var w := Awaited(polls, NEVER_READ);
            if w.qty > 0 && w.avg > 0.0 then WaitFilled(polls, w.qty, w.avg)
            else forall q, a :: !WaitFilled(polls, q, a)
  {
    AwaitedMeans(polls, NEVER_READ);
    if forall k: nat :: !DecidedAt(polls, k) {
      var r: StatusRead :| LastRead(polls, NEVER_READ, r) && r.Read?
        && Awaited(polls, NEVER_READ) == Read(if r.status == COMPLETE then r.qty else 0, r.avg, r.status);
      if r.status == COMPLETE && r.avg > 0.0 {
        FirstDecisive(polls, NEVER_READ, r);
      }
    } else {
      var k: nat :| DecidedAt(polls, k);
      forall q, a | WaitFilled(polls, q, a)
        ensures polls[k].status == COMPLETE && polls[k].qty == q && polls[k].avg == a
      {
        var j: nat :| DecidedAt(polls, j) && polls[j].status == COMPLETE && polls[j].qty == q > 0 && polls[j].avg == a;
        assert j == k;
      }
    }
  }

  lemma FirstDecisive(polls: seq<StatusRead>, last: StatusRead, r: StatusRead)
    requires LastRead(polls, last, r) && Decisive(r) && !Decisive(last)
    ensures exists k: nat :: DecidedAt(polls, k)
  {
    var k: nat :| k < |polls| && polls[k] == r;
    EarliestDecisive(polls, k);
  }

  lemma {:induction false} EarliestDecisive(polls: seq<StatusRead>, k: nat)
    requires k < |polls| && Decisive(polls[k])
    ensures exists j: nat :: DecidedAt(polls, j)
  {
    if j: nat :| j < k && Decisive(polls[j]) {
      EarliestDecisive(polls, j);
    } else {
      assert DecidedAt(polls, k);
    }
  }

  /** Every order of every run is booked from one read, quantity and average together. An IOC order: the read after
      the wait if it shows a quantity, else the wait's own fill. The market order: the wait's fill, else the read after
      it. A read that shows a quantity without an average books nothing. */
  lemma BookedFrom(b: Broker, side: OrderSide, qty: int, chases: int, useLimit: bool, tick: real,
                   log: seq<Order>, r: Outcome, n: nat)
    requires Run(b, side, qty, chases, useLimit, tick, log, r) && n < |log|
    ensures var o := log[n];
            var life := o.life;
            var shown := life.later.Read? && life.later.qty > 0 && life.later.avg > 0.0;
            var late := shown && o.booked == life.later.qty && o.avg == life.later.avg;
            var waited := WaitFilled(life.polls, o.booked, o.avg);
            var nothing := o.booked == 0 && o.avg == 0.0;
            var unfilled := forall q, a :: !WaitFilled(life.polls, q, a);
            (o.booked > 0 ==> life.accepted && o.avg > 0.0 && (late || waited))
            && (o.booked <= 0 ==> nothing)
            && (life.accepted && o.req.kind.LIMIT? && life.later.Read? && life.later.qty > 0 ==>
                  if life.later.avg > 0.0 then late else nothing)
            && (life.accepted && o.req.kind.LIMIT? && (life.later.ReadFails? || life.later.qty <= 0) ==>
                  waited || (nothing && unfilled))
            && (life.accepted && o.req.kind.MARKET? ==> waited || (unfilled && (late || nothing)))
            && (life.accepted && o.req.kind.MARKET? && shown ==> waited || late)
  {
    OrderOf(b, side, qty, chases, useLimit, tick, log, r, n);
    OrderKind(b, side, qty, chases, tick, log, n);
    WaitUsable(log[n].life.polls);
    hide Run, LadderPrice, BookedBy, Awaited, WaitFilled;
  }

  /** Every order of every run asks for what the earlier ones did not book, on the run's side; the IOC orders at the
      ladder's price, in order from the first attempt on. */
  lemma AskedFor(b: Broker, side: OrderSide, qty: int, chases: int, useLimit: bool, tick: real,
                 log: seq<Order>, r: Outcome, n: nat)
    requires Run(b, side, qty, chases, useLimit, tick, log, r) && n < |log|
    ensures var o := log[n];
            o.req.side == side && o.req.qty == qty - Booked(log[..n]) && o.life == b.life(n, o.req)
            && (o.req.kind.MARKET? ==> o.req.price == 0.0 && n == |log| - 1)
            && (o.req.kind.LIMIT? ==>
                  useLimit && n <= chases && b.quote(n).Quote? && b.quote(n).bid > 0.0 && b.quote(n).ask > 0.0
                  && o.req.price == LadderPrice(side, b.quote(n).bid, b.quote(n).ask, n, chases, tick) > 0.0)
  {
    OrderOf(b, side, qty, chases, useLimit, tick, log, r, n);
    hide LadderPrice, Booked, Verdict;
  }

  /** The ladder gives way to the market order only when it has run out of attempts, or its next attempt has no usable
      quote or price; it leaves something to do; and without limit orders there is only the market order. */
  lemma MopWhen(b: Broker, side: OrderSide, qty: int, chases: int, useLimit: bool, tick: real,
                log: seq<Order>, r: Outcome)
    requires Run(b, side, qty, chases, useLimit, tick, log, r) && log != [] && log[|log| - 1].req.kind.MARKET?
    ensures var m := |log| - 1;
            var q := b.quote(m);
            if !useLimit then m == 0
            else Booked(log[..m]) < qty
                 && (m > chases || q.QuoteFails? || q.bid <= 0.0 || q.ask <= 0.0
                     || LadderPrice(side, q.bid, q.ask, m, chases, tick) <= 0.0)
  {
    hide LadderPrice, Booked, Verdict;
    OrderKind(b, side, qty, chases, tick, log, |log| - 1);
  }

  /** What a run returns: all its orders, what they booked, and the average paid for that. It returns only once the
      quantity is booked or the market order has been read. */
  lemma ReturnedMeans(b: Broker, side: OrderSide, qty: int, chases: int, useLimit: bool, tick: real,
                      log: seq<Order>, fill: LegFill)
    requires Run(b, side, qty, chases, useLimit, tick, log, Returned(fill))
    ensures fill.filledQty == Booked(log) && (fill.completed <==> Booked(log) >= qty)
    ensures |fill.orderIds| == |log| && forall i :: 0 <= i < |log| ==> fill.orderIds[i] == i
    ensures forall i :: 0 <= i < |log| ==> log[i].life.accepted
    ensures Booked(log) < qty ==> log != [] && log[|log| - 1].req.kind.MARKET?
    ensures Booked(log) > 0 ==>
              var paid := Notional(log) / Booked(log) as real;
              paid - 0.000000005 <= fill.avgPrice <= paid + 0.000000005
    ensures Booked(log) == 0 ==> fill.avgPrice == 0.0
  {
    hide Run, Booked, Notional, RoundTo;
    VerdictOf(b, side, qty, chases, useLimit, tick, log, Returned(fill));
    forall i | 0 <= i < |log|
      ensures log[i].life.accepted
    {
      OrderOf(b, side, qty, chases, useLimit, tick, log, Returned(fill), i);
    }
    AverageNear(log);
    hide MarketReadRaises, Average;
  }

  lemma VerdictOf(b: Broker, side: OrderSide, qty: int, chases: int, useLimit: bool, tick: real,
                  log: seq<Order>, r: Outcome)
    requires Run(b, side, qty, chases, useLimit, tick, log, r)
    ensures Verdict(qty, log, r)
  {
    hide Verdict, Climbing, LastOrder;
  }

  lemma AverageNear(log: seq<Order>)
    ensures Booked(log) != 0 ==>
              var paid := Notional(log) / Booked(log) as real;
              paid - 0.000000005 <= RoundTo(Average(log), TEN_NANO) <= paid + 0.000000005
    ensures Booked(log) == 0 ==> RoundTo(Average(log), TEN_NANO) == 0.0
  {
    hide Booked, Notional, RoundTo;
    RoundToExact(0.0, TEN_NANO, 0);
  }

  /** Something is always ordered for a positive quantity, and always without limit orders. */
  lemma Orders(b: Broker, side: OrderSide, qty: int, chases: int, useLimit: bool, tick: real,
               log: seq<Order>, r: Outcome)
    requires Run(b, side, qty, chases, useLimit, tick, log, r) && (qty > 0 || !useLimit)
    ensures log != []
  {
    hide LadderPrice, Climbing, LastOrder, RoundTo;
  }

  /** Exactly when a run raises: its last order could not be placed, or it is the market order, which neither the wait
      nor the read after it could tell anything about. */
  lemma RaisedIff(b: Broker, side: OrderSide, qty: int, chases: int, useLimit: bool, tick: real,
                  log: seq<Order>, r: Outcome)
    requires Run(b, side, qty, chases, useLimit, tick, log, r)
    ensures r.Raised? <==>
            log != []
            && var o := log[|log| - 1];
               !o.life.accepted
               || (o.req.kind.MARKET? && o.life.later.ReadFails? && forall q, a :: !WaitFilled(o.life.polls, q, a))
  {
    hide LadderPrice, Booked, Climbing, LastOrder, RoundTo;
    if log != [] {
      WaitUsable(log[|log| - 1].life.polls);
      hide Awaited, WaitFilled;
    }
  }

  /** The three sums are sums: they add up over any split, and over one order are its own. */
  lemma {:induction false} SumsAdd(a: seq<Order>, b: seq<Order>)
    ensures Booked(a + b) == Booked(a) + Booked(b)
    ensures Traded(a + b) == Traded(a) + Traded(b)
    ensures Notional(a + b) == Notional(a) + Notional(b)
  {
    hide Value;
    if b == [] {
      assert a + b == a;
    } else {
      var m := |b| - 1;
      SumsAdd(a, b[..m]);
      assert (a + b)[..|a + b| - 1] == a + b[..m] && (a + b)[|a + b| - 1] == b[m];
    }
  }

  lemma SumsOne(o: Order)
    ensures Booked([o]) == o.booked && Traded([o]) == o.life.traded && Notional([o]) == o.avg * o.booked as real
  {
    ValueIs(o);
    assert [o][..0] == [];
    assert Notional([o]) == Notional([]) + Value(o);
  }
}
