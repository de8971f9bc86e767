/**
 * The live straddle fill: two legs through the executor, then the atomicity guard (flatten, reconcile, abort).
 *
 * A leg's orders move only that leg's own symbol, so the concurrent legs are taken one after the other; the
 * quantity an order trades (`OrderLife.traded`) is what it trades in the end, late fills included.
 */
module StraddleBridge {
  import opened SmartExecutor

  datatype Action = ENTRY | EXIT
  datatype Leg = CE | PE

  /** What one leg meets: its symbol ("" when none resolves), its broker, and the reads made of its last order
      when it looks under-filled. */
  datatype LegWorld = LegWorld(symbol: string, ltp: real, broker: Broker, confirm: seq<StatusRead>)

  /** What a leg reports to the guard; `log` is what it really ordered. */
  datatype LegReport = LegReport(leg: Leg, symbol: string, px: real, fq: int, log: seq<Order>)

  datatype PositionsRead = Unavailable | Positions(held: seq<(string, int)>)

  /** How the broker answers a plain market order sent by the guard: rejected, or trading some of it. */
  datatype PlainLife = Rejected | Trades(qty: int)

  /** The broker as the guard meets it: answers to plain orders and the read of an account's positions. */
  datatype GuardWorld = GuardWorld(plain: (string, OrderSide, int) -> PlainLife,
                                   recon: (string, OrderSide, int) -> PlainLife,
                                   report: map<string, int> -> PositionsRead)

  datatype Published = Fill(px: map<Leg, real>) | EntryAborted

  function Opposite(side: OrderSide): OrderSide { if side.SELL? then BUY else SELL }

  function Signed(side: OrderSide, qty: int): int { if side.BUY? then qty else -qty }

  function Held(pos: map<string, int>, symbol: string): int { if symbol in pos then pos[symbol] else 0 }

  class Account {
    var pos: map<string, int>

    constructor ()
      ensures pos == map[]
    {
      pos := map[];
    }

    method Trade(symbol: string, side: OrderSide, qty: int)
      modifies this
      ensures Held(pos, symbol) == old(Held(pos, symbol)) + Signed(side, qty)
      ensures forall s :: s != symbol ==> Held(pos, s) == old(Held(pos, s))
    {
      pos := pos[symbol := Held(pos, symbol) + Signed(side, qty)];
    }
  }

  // ---------------------------------------------------------------- what the guard may rely on

  /** A market order trades in full or not at all. */
  ghost predicate AllOrNothing(b: Broker) {
    forall n: nat, req: OrderRequest :: req.kind.MARKET? ==> b.life(n, req).traded in {0, req.qty}
  }

  /** A read of a leg's last order shows an average only if something of that order traded. */
  predicate AverageMeansTraded(confirm: seq<StatusRead>, log: seq<Order>) {
    forall k :: 0 <= k < |confirm| && confirm[k].Read? && confirm[k].avg > 0.0 && log != [] ==>
      log[|log| - 1].life.traded > 0
  }

  /** A broker read shows, for every symbol held, exactly one line with the real quantity, and nothing else. */
  predicate Truthful(held: seq<(string, int)>, pos: map<string, int>) {
    (forall i :: 0 <= i < |held| ==> held[i].1 == Held(pos, held[i].0))
    && (forall i, j :: 0 <= i < j < |held| ==> held[i].0 != held[j].0)
    && (forall s :: s in pos && pos[s] != 0 ==> exists i :: 0 <= i < |held| && held[i].0 == s)
  }

  /** Reconciliation can do its job: positions are read, settled and true, and its own orders fill. */
  ghost predicate Reconcilable(g: GuardWorld) {
    (forall pos :: g.report(pos).Positions? && Truthful(g.report(pos).held, pos))
    && (forall symbol, side, qty :: g.recon(symbol, side, qty) == Trades(qty))
  }

  // ---------------------------------------------------------------- one leg

  /** `_do_leg` after the executor returned an under-fill: the first read with an average promotes the leg to the
      full quantity, because the fill record has no `filled_qty` to say otherwise. */
  predicate Promotes(confirm: seq<StatusRead>) {
    confirm != [] && confirm[0].Read? && (confirm[0].avg > 0.0 || Promotes(confirm[1..]))
  }

  lemma {:induction false} PromotedBy(confirm: seq<StatusRead>)
    ensures Promotes(confirm) <==> exists k :: 0 <= k < |confirm| && confirm[k].Read? && confirm[k].avg > 0.0
                                               && forall j :: 0 <= j < k ==> confirm[j].Read?
  {
    if confirm != [] && confirm[0].Read? && confirm[0].avg <= 0.0 {
      PromotedBy(confirm[1..]);
      if Promotes(confirm) {
        var k :| 0 <= k < |confirm[1..]| && confirm[1..][k].Read? && confirm[1..][k].avg > 0.0
                 && forall j :: 0 <= j < k ==> confirm[1..][j].Read?;
        assert confirm[k + 1].avg > 0.0;
        assert forall j :: 0 < j < k + 1 ==> confirm[j] == confirm[1..][j - 1];
      }
    }
  }

  /** The leg under-filled and a confirming read made the quantity up. */
  predicate Promoted(r: Outcome, qty: int, confirm: seq<StatusRead>) {
    r.Returned? && r.fill.filledQty < qty && r.fill.orderIds != [] && Promotes(confirm)
  }

  /** The quantity a leg reports, given what its executor run came to. */
  function Reported(r: Outcome, qty: int, confirm: seq<StatusRead>): int {
    match r
    case Raised => 0
    case Returned(fill) => if Promoted(r, qty, confirm) then qty else fill.filledQty
  }

  /** The k-th confirming read is the first with an average, and none before it failed. */
  predicate ShownAt(confirm: seq<StatusRead>, k: nat) {
    k < |confirm| && confirm[k].Read? && confirm[k].avg > 0.0
    && forall j :: 0 <= j < k ==> confirm[j].Read? && confirm[j].avg <= 0.0
  }

  /** The price a leg reports: the confirmed one of a promoted leg, else the average paid, else the last price. */
  ghost predicate Priced(w: LegWorld, qty: int, r: Outcome, px: real) {
    match r
    case Raised => px == w.ltp
    case Returned(fill) =>
      if Promoted(r, qty, w.confirm) then exists k: nat :: ShownAt(w.confirm, k) && px == w.confirm[k].avg
      else px == if fill.avgPrice > 0.0 then fill.avgPrice else w.ltp
  }

  /** Exactly when a leg that reports full has traded in full: always, unless it was promoted, and then just when its
      last order, the mop-up, traded all it asked for. */
  lemma FullIff(w: LegWorld, side: OrderSide, qty: int, chases: int, useLimit: bool, log: seq<Order>, r: Outcome)
    requires qty > 0 && Run(w.broker, side, qty, chases, useLimit, 0.0, log, r)
    requires Honest(w.broker) && IocTerminal(w.broker)
    ensures 0 <= Reported(r, qty, w.confirm) <= qty
    ensures Promoted(r, qty, w.confirm) ==> log != [] && log[|log| - 1].req.kind.MARKET?
    ensures Reported(r, qty, w.confirm) == qty ==>
              (Traded(log) == qty <==>
                 (Promoted(r, qty, w.confirm) ==> log[|log| - 1].life.traded == log[|log| - 1].req.qty))
  {
    hide Run, Promotes, Traded, Booked;
    NeverOverTraded(w.broker, side, qty, chases, useLimit, 0.0, log, r);
    RunVerdict(w.broker, side, qty, chases, useLimit, 0.0, log, r);
    if Promoted(r, qty, w.confirm) {
      LastOrderDecides(w.broker, side, qty, chases, useLimit, log, r);
    }
  }

  lemma RunVerdict(b: Broker, side: OrderSide, qty: int, chases: int, useLimit: bool, tick: real,
                   log: seq<Order>, r: Outcome)
    requires Run(b, side, qty, chases, useLimit, tick, log, r)
    ensures Verdict(qty, log, r)
  {
  }

  /** With every rung read exactly, the whole leg is full just when its last order is. */
  lemma LastOrderDecides(b: Broker, side: OrderSide, qty: int, chases: int, useLimit: bool, log: seq<Order>, r: Outcome)
    requires qty > 0 && Run(b, side, qty, chases, useLimit, 0.0, log, r) && log != []
    requires Honest(b) && IocTerminal(b)
    ensures Traded(log) == qty <==> log[|log| - 1].life.traded == log[|log| - 1].req.qty
  {
    hide Run, Booked;
    var m := |log| - 1;
    OrderAccounted(b, side, qty, chases, useLimit, 0.0, log, r, m);
    forall n | 0 <= n < m
      ensures log[..m][n].booked == log[..m][n].life.traded && log[..m][n].booked >= 0
    {
      OrderOf(b, side, qty, chases, useLimit, 0.0, log, r, n);
      LimitExact(b, side, qty, chases, useLimit, 0.0, log, r, n);
    }
    Sums(log[..m]);
    assert Traded(log) == Traded(log[..m]) + log[m].life.traded;
  }

  /** With all-or-nothing market orders a leg that reports full has traded in full, promoted or not. */
  lemma FullMeansFull(w: LegWorld, side: OrderSide, qty: int, chases: int, useLimit: bool, log: seq<Order>, r: Outcome)
    requires qty > 0 && Run(w.broker, side, qty, chases, useLimit, 0.0, log, r)
    requires Honest(w.broker) && IocTerminal(w.broker) && AllOrNothing(w.broker) && AverageMeansTraded(w.confirm, log)
    ensures 0 <= Reported(r, qty, w.confirm) <= qty
    ensures Reported(r, qty, w.confirm) == qty ==> Traded(log) == qty
  {
    hide Run, Traded;
    FullIff(w, side, qty, chases, useLimit, log, r);
    if Promoted(r, qty, w.confirm) {
      PromotedBy(w.confirm);
      var m := |log| - 1;
      OrderOf(w.broker, side, qty, chases, useLimit, 0.0, log, r, m);
      OrderKind(w.broker, side, qty, chases, 0.0, log, m);
      assert w.broker.life(m, log[m].req).traded in {0, log[m].req.qty};
    }
  }

  /** Without all-or-nothing market orders it is false: one unit trades, a read shows its average, and the leg
      reports the full quantity. */
  lemma PartialPromoted(qty: int) returns (w: LegWorld, log: seq<Order>, r: Outcome)
    requires qty > 1
    ensures Honest(w.broker) && IocTerminal(w.broker) && AverageMeansTraded(w.confirm, log)
    ensures Run(w.broker, SELL, qty, 0, false, 0.0, log, r)
    ensures Reported(r, qty, w.confirm) == qty && Traded(log) == 1
  {
    w := LegWorld("CE", 0.0, OneUnitBroker(), [Read(1, 5.0, OPEN)]);
    var req := OrderRequest(SELL, qty, MARKET, 0.0);
    log := [Order(req, w.broker.life(0, req), 1, 5.0)];
    assert log[..0] == [];
    assert Mop(w.broker, SELL, qty, log, 0);
    MarketOnly(w.broker, SELL, qty, 0, 0.0, log);
    r := Finish(qty, Booked(log), Notional(log), log);
    assert Traded(log) == Traded([]) + 1;
    PromotedBy(w.confirm);
  }

  /** Of every market order one unit trades, and the reads after the wait say so. */
  function OneUnitBroker(): Broker {
    Broker((n: nat) => QuoteFails,
           (n: nat, req: OrderRequest) =>
             if req.kind.MARKET? && req.qty >= 1 then OrderLife(true, [], Read(1, 5.0, OPEN), 1)
             else OrderLife(true, [], Read(0, 0.0, CANCELLED), 0))
  }

  // ---------------------------------------------------------------- the bridge

  class Bridge {
    var orderIds: map<Leg, nat>
    /** the prices the last entry event carried, filled or not */
    var lastEntry: map<Leg, real>

    constructor ()
      ensures orderIds == map[] && lastEntry == map[]
    {
      orderIds, lastEntry := map[], map[];
    }

    method DoLeg(acct: Account, leg: Leg, w: LegWorld, side: OrderSide, qty: int, chases: int, useLimit: bool)
      returns (rep: LegReport, ghost r: Outcome)
      modifies this`orderIds, acct
      ensures rep.leg == leg && rep.symbol == w.symbol
      ensures w.symbol == "" ==> rep.fq == 0 && rep.log == [] && rep.px == w.ltp && unchanged(acct)
      ensures w.symbol != "" ==> Run(w.broker, side, qty, chases, useLimit, 0.0, rep.log, r)
                                 && rep.fq == Reported(r, qty, w.confirm) && Priced(w, qty, r, rep.px)
      ensures LegRun(w, side, qty, chases, useLimit, rep)
      ensures w.symbol != "" ==>
                Held(acct.pos, w.symbol) == old(Held(acct.pos, w.symbol)) + Signed(side, Traded(rep.log))
      ensures forall s :: s != w.symbol ==> Held(acct.pos, s) == old(Held(acct.pos, s))
      ensures orderIds == if Placed(rep) then old(orderIds)[leg := |rep.log| - 1] else old(orderIds)
    {
      hide LegRun, Run, Traded, Held, Signed, LegRaised;
      if w.symbol == "" {
        IsLegRun(w, side, qty, chases, useLimit, LegReport(leg, w.symbol, w.ltp, 0, []), Raised);
        return LegReport(leg, w.symbol, w.ltp, 0, []), Raised;
      }
      var outcome, log := ExecuteLeg(w.broker, side, qty, chases, useLimit, 0.0);
      acct.Trade(w.symbol, side, Traded(log));
      r := outcome;
      OutcomeMeans(w.broker, side, qty, chases, useLimit, log, r);
      match outcome
      case Raised =>
        rep := LegReport(leg, w.symbol, w.ltp, 0, log);
        IsLegRun(w, side, qty, chases, useLimit, rep, r);
      case Returned(fill) =>
        var px, fq := if fill.avgPrice > 0.0 then fill.avgPrice else w.ltp, fill.filledQty;
        if fill.orderIds != [] {
          orderIds := orderIds[leg := fill.orderIds[|fill.orderIds| - 1]];
        }
        if fq < qty && fill.orderIds != [] {
          var k := 0;
          while k < |w.confirm| && w.confirm[k].Read?
            invariant 0 <= k <= |w.confirm|
            invariant fq == fill.filledQty && px == (if fill.avgPrice > 0.0 then fill.avgPrice else w.ltp)
            invariant Promotes(w.confirm) == Promotes(w.confirm[k..])
            invariant forall j :: 0 <= j < k ==> w.confirm[j].Read? && w.confirm[j].avg <= 0.0
          {
            assert w.confirm[k..][0] == w.confirm[k] && w.confirm[k..][1..] == w.confirm[k + 1..];
            if w.confirm[k].avg > 0.0 {
              assert ShownAt(w.confirm, k);
              px, fq := w.confirm[k].avg, qty;
              break;
            }
            k := k + 1;
          }
        }
        rep := LegReport(leg, w.symbol, px, fq, log);
        IsLegRun(w, side, qty, chases, useLimit, rep, r);
    }

    /** `_reconcile_flat`: read the real positions and market-flatten whatever is left in the leg symbols. */
    method ReconcileFlat(acct: Account, g: GuardWorld, symbols: set<string>)
      modifies acct
      ensures Reconcilable(g) ==> forall s :: s in symbols ==> Held(acct.pos, s) == 0
      ensures symbols == {} || g.report(old(acct.pos)).Unavailable? ==> acct.pos == old(acct.pos)
      ensures forall s :: s !in symbols ==> Held(acct.pos, s) == old(Held(acct.pos, s))
    {
      if symbols == {} {
        return;
      }
      var read := g.report(acct.pos);
      if read.Unavailable? {
        return;
      }
      ghost var before := acct.pos;
      var i := 0;
      while i < |read.held|
        invariant 0 <= i <= |read.held|
        invariant forall s :: s !in symbols ==> Held(acct.pos, s) == Held(before, s)
        invariant Reconcilable(g) ==> forall j :: 0 <= j < i && read.held[j].0 in symbols ==>
            Held(acct.pos, read.held[j].0) == 0
        invariant Reconcilable(g) ==> forall j :: i <= j < |read.held| ==>
            Held(acct.pos, read.held[j].0) == read.held[j].1
        invariant forall s :: (forall j :: 0 <= j < |read.held| ==> read.held[j].0 != s) ==>
            Held(acct.pos, s) == Held(before, s)
      {
        var (symbol, qty) := read.held[i];
        i := i + 1;
        if symbol !in symbols || qty == 0 {
          continue;
        }
        var side := if qty > 0 then SELL else BUY;
        var life := g.recon(symbol, side, if qty > 0 then qty else -qty);
        if life.Trades? {
          acct.Trade(symbol, side, life.qty);
        }
      }
      if Reconcilable(g) {
        forall s | s in symbols
          ensures Held(acct.pos, s) == 0
        {
          if s in before && before[s] != 0 {
            assert exists j :: 0 <= j < |read.held| && read.held[j].0 == s;
          }
        }
      }
    }

    /** Flatten what the filled legs report: each gets one opposite market order, which may be rejected. */
    method FlattenFilled(acct: Account, g: GuardWorld, side: OrderSide, reports: seq<LegReport>)
      requires SymbolsDiffer(reports)
      modifies acct
      ensures forall k :: 0 <= k < |reports| && reports[k].symbol != "" ==>
        Held(acct.pos, reports[k].symbol) == old(Held(acct.pos, reports[k].symbol)) + Flattened(g, side, reports[k])
      ensures forall s :: (forall k :: 0 <= k < |reports| ==> reports[k].symbol != s) ==>
          Held(acct.pos, s) == old(Held(acct.pos, s))
    {
      var i := 0;
      while i < |reports|
        invariant 0 <= i <= |reports|
        invariant forall k :: 0 <= k < |reports| && reports[k].symbol != "" ==>
          Held(acct.pos, reports[k].symbol)
            == old(Held(acct.pos, reports[k].symbol)) + if k < i then Flattened(g, side, reports[k]) else 0
        invariant forall s :: (forall k :: 0 <= k < |reports| ==> reports[k].symbol != s) ==>
            Held(acct.pos, s) == old(Held(acct.pos, s))
      {
        var rep := reports[i];
        i := i + 1;
        if rep.fq <= 0 || rep.symbol == "" {
          continue;
        }
        var life := g.plain(rep.symbol, Opposite(side), rep.fq);
        if life.Trades? {
          acct.Trade(rep.symbol, Opposite(side), life.qty);
        }
      }
    }

    /** Flatten directly, then reconcile against the positions the account really has. */
    method Abort(acct: Account, g: GuardWorld, side: OrderSide, reports: seq<LegReport>)
      requires SymbolsDiffer(reports)
      modifies acct
      ensures Reconcilable(g) ==> forall k :: 0 <= k < |reports| && reports[k].symbol != "" ==>
          Held(acct.pos, reports[k].symbol) == 0
      ensures (forall pos :: g.report(pos).Unavailable?) ==>
          forall k :: 0 <= k < |reports| && reports[k].symbol != "" ==>
        Held(acct.pos, reports[k].symbol) == old(Held(acct.pos, reports[k].symbol)) + Flattened(g, side, reports[k])
      ensures forall s :: (forall k :: 0 <= k < |reports| ==> reports[k].symbol != s) ==>
          Held(acct.pos, s) == old(Held(acct.pos, s))
    {
      hide Reconcilable, Flattened;
      FlattenFilled(acct, g, side, reports);
      ReconcileFlat(acct, g, set k | 0 <= k < |reports| && reports[k].symbol != "" :: reports[k].symbol);
    }

    /** The legs of one event, through the executor. */
    method RunLegs(acct: Account, legs: seq<Leg>, world: Leg -> LegWorld, side: OrderSide, qty: int, chases: int,
                   useLimit: bool)
      returns (reports: seq<LegReport>, fills: map<Leg, real>)
      requires Distinct(legs, world)
      modifies this`orderIds, acct
      ensures |reports| == |legs|
      ensures forall k :: 0 <= k < |legs| ==> reports[k].leg == legs[k] && reports[k].symbol == world(legs[k]).symbol
      ensures forall k :: 0 <= k < |legs| ==> LegRun(world(legs[k]), side, qty, chases, useLimit, reports[k])
      ensures forall k :: 0 <= k < |legs| && reports[k].symbol != "" ==>
        Held(acct.pos, reports[k].symbol) == old(Held(acct.pos, reports[k].symbol))
          + Signed(side, Traded(reports[k].log))
      ensures forall s :: (forall k :: 0 <= k < |legs| ==> world(legs[k]).symbol != s) ==>
          Held(acct.pos, s) == old(Held(acct.pos, s))
      ensures fills.Keys == (set k | 0 <= k < |legs| :: legs[k]) && forall k :: 0 <= k < |legs| ==>
          fills[legs[k]] == reports[k].px
      ensures Recorded(old(orderIds), orderIds, legs, reports)
    {
      hide Run, Reported, Traded, Promotes, Signed, LegRun, Held, Priced, Placed, Recorded, Moved;
      NothingRecorded(orderIds);
      NothingMoved(acct.pos, legs, world, side);
      assert legs[..0] == [];
      reports, fills := [], map[];
      var i := 0;
      while i < |legs|
        invariant 0 <= i <= |legs| && |reports| == i
        invariant forall k :: 0 <= k < i ==> reports[k].leg == legs[k] && reports[k].symbol == world(legs[k]).symbol
        invariant forall k :: 0 <= k < i ==> LegRun(world(legs[k]), side, qty, chases, useLimit, reports[k])
        invariant Moved(old(acct.pos), acct.pos, legs, world, reports, side)
        invariant fills.Keys == (set k | 0 <= k < i :: legs[k]) && forall k :: 0 <= k < i ==>
            fills[legs[k]] == reports[k].px
        invariant Recorded(old(orderIds), orderIds, legs[..i], reports)
      {
        ghost var ids, pos := orderIds, acct.pos;
        var rep, r := DoLeg(acct, legs[i], world(legs[i]), side, qty, chases, useLimit);
        RecordedMore(old(orderIds), ids, orderIds, legs, reports, rep);
        MovedMore(old(acct.pos), pos, acct.pos, legs, world, reports, rep, side);
        reports, fills := reports + [rep], fills[legs[i] := rep.px];
        i := i + 1;
      }
      assert legs[..i] == legs;
      MovedAll(old(acct.pos), acct.pos, legs, world, reports, side);
    }

    /** `_live_fill`. The clause on `Settled` is the point of the guard: after a live entry from a flat account every
        leg is held in full or none at all if some leg reports a fill, or if the reads of the last orders leave no
        other end open (`WholeIff`: exactly then). Otherwise the legs may fill late and differently. */
    method LiveFill(acct: Account, action: Action, paper: bool, legs: seq<Leg>, world: Leg -> LegWorld,
                    g: GuardWorld, qty: int, chases: int, useLimit: bool)
      returns (published: Published, reports: seq<LegReport>)
      requires qty > 0 && Distinct(legs, world)
      modifies this, acct
      ensures |reports| == |legs|
      ensures var side := if action.ENTRY? then SELL else BUY;
              forall k :: 0 <= k < |legs| ==>
                reports[k].leg == legs[k] && LegRun(world(legs[k]), side, qty, chases, useLimit, reports[k])
      ensures published.EntryAborted? <==> action.ENTRY? && !paper && OneSided(legs, world, reports, qty)
      ensures published.EntryAborted? <==> action.ENTRY? && !paper && Asymmetric(reports, qty)
      ensures Recorded(old(orderIds), orderIds, legs, reports)
      ensures published.Fill? ==> published.px.Keys == (set k | 0 <= k < |legs| :: legs[k])
                                  && forall k :: 0 <= k < |legs| ==> published.px[legs[k]] == reports[k].px
      ensures lastEntry == if published.Fill? && action.ENTRY? then map[CE := world(CE).ltp, PE := world(PE).ltp]
                           else old(lastEntry)
      ensures published.Fill? ==> forall i :: 0 <= i < |legs| && reports[i].symbol != "" ==>
                Held(acct.pos, reports[i].symbol) == old(Held(acct.pos, reports[i].symbol))
                  + Signed(if action.ENTRY? then SELL else BUY, Traded(reports[i].log))
      ensures forall s :: (forall i :: 0 <= i < |legs| ==> world(legs[i]).symbol != s) ==>
          Held(acct.pos, s) == old(Held(acct.pos, s))
      ensures action.ENTRY? && !paper && old(FlatIn(acct.pos, legs, world)) && Reconcilable(g)
              && GoodLegs(legs, world, reports)
              ==> (FlatIn(acct.pos, legs, world) || FullIn(acct.pos, legs, world, -qty) <==> Settled(reports, qty))
                  && (Sure(legs, world, reports, qty) ==> Settled(reports, qty))
      ensures published.EntryAborted? && Reconcilable(g) ==> FlatIn(acct.pos, legs, world)
      // without readable positions only the direct flatten orders have worked
      ensures published.EntryAborted? && (forall pos :: g.report(pos).Unavailable?) ==>
          forall i :: 0 <= i < |legs| && reports[i].symbol != "" ==>
                Held(acct.pos, reports[i].symbol)
                  == old(Held(acct.pos, reports[i].symbol)) - Traded(reports[i].log) + Flattened(g, SELL, reports[i])
    {
      hide Run, Reported, Truthful, Reconcilable, Traded, LegRun, Flattened, GoodLegs, Asymmetric, Settled, Sure,
           OneSided, Recorded;
      var side := if action.ENTRY? then SELL else BUY;
      var fills;
      reports, fills := RunLegs(acct, legs, world, side, qty, chases, useLimit);
      GuardMeans(legs, world, reports, side, qty, chases, useLimit);
      if action.ENTRY? && !paper && Asymmetric(reports, qty) {
        Abort(acct, g, side, reports);
        assert Settled(reports, qty) by { AsymmetricSettles(reports, qty); }
        return EntryAborted, reports;
      }
      if action.ENTRY? && !paper && old(FlatIn(acct.pos, legs, world)) && GoodLegs(legs, world, reports) {
        LetThrough(old(acct.pos), acct.pos, legs, world, reports, qty, chases, useLimit);
      }
      if action.ENTRY? {
        lastEntry := map[CE := world(CE).ltp, PE := world(PE).ltp];
      }
      published := Fill(fills);
    }
  }

  /** The executor raised on these orders: the last could not be placed, or it is the market order and neither the
      wait nor the read after it showed anything. */
  ghost predicate LegRaised(log: seq<Order>) {
    log != []
    && var o := log[|log| - 1];
       !o.life.accepted
       || (o.req.kind.MARKET? && o.life.later.ReadFails? && forall q, a :: !WaitFilled(o.life.polls, q, a))
  }

  /** The leg's orders all went through: the last one is remembered. */
  ghost predicate Placed(rep: LegReport) { rep.symbol != "" && rep.log != [] && !LegRaised(rep.log) }

  /** Each leg whose orders went through has its last order's id recorded; nothing else has changed. */
  ghost predicate Recorded(before: map<Leg, nat>, ids: map<Leg, nat>, legs: seq<Leg>, reports: seq<LegReport>)
    requires |reports| == |legs|
  {
    (forall k :: 0 <= k < |legs| && Placed(reports[k]) ==> legs[k] in ids && ids[legs[k]] == |reports[k].log| - 1)
    && forall leg :: (forall k :: 0 <= k < |legs| && Placed(reports[k]) ==> legs[k] != leg) ==>
         (leg in ids <==> leg in before) && (leg in ids ==> ids[leg] == before[leg])
  }

  lemma NothingRecorded(ids: map<Leg, nat>)
    ensures Recorded(ids, ids, [], [])
  {
  }

  lemma RecordedMore(before: map<Leg, nat>, ids: map<Leg, nat>, ids': map<Leg, nat>, legs: seq<Leg>,
                     reports: seq<LegReport>, rep: LegReport)
    requires |reports| < |legs| && Recorded(before, ids, legs[..|reports|], reports)
    requires forall i, j :: 0 <= i < j < |legs| ==> legs[i] != legs[j]
    requires ids' == if Placed(rep) then ids[legs[|reports|] := |rep.log| - 1] else ids
    ensures Recorded(before, ids', legs[..|reports| + 1], reports + [rep])
  {
    hide Placed;
    var i := |reports|;
    var done, reports' := legs[..i + 1], reports + [rep];
    assert done == legs[..i] + [legs[i]];
    forall leg | forall k :: 0 <= k < |done| && Placed(reports'[k]) ==> done[k] != leg
      ensures (leg in ids' <==> leg in before) && (leg in ids' ==> ids'[leg] == before[leg])
    {
      assert Placed(reports'[i]) ==> done[i] != leg;
      assert forall k :: 0 <= k < i ==> reports'[k] == reports[k] && done[k] == legs[..i][k];
    }
  }

  /** Every leg so far has moved its own symbol by what it traded, and no other symbol has moved. */
  ghost predicate Moved(before: map<string, int>, pos: map<string, int>, legs: seq<Leg>, world: Leg -> LegWorld,
                        reports: seq<LegReport>, side: OrderSide)
    requires |reports| <= |legs|
  {
    (forall k :: 0 <= k < |reports| && reports[k].symbol != "" ==>
       Held(pos, reports[k].symbol) == Held(before, reports[k].symbol) + Signed(side, Traded(reports[k].log)))
    && forall s :: (forall k :: 0 <= k < |reports| ==> world(legs[k]).symbol != s) ==> Held(pos, s) == Held(before, s)
  }

  lemma NothingMoved(pos: map<string, int>, legs: seq<Leg>, world: Leg -> LegWorld, side: OrderSide)
    ensures Moved(pos, pos, legs, world, [], side)
  {
  }

  lemma MovedMore(before: map<string, int>, pos: map<string, int>, pos': map<string, int>, legs: seq<Leg>,
                  world: Leg -> LegWorld, reports: seq<LegReport>, rep: LegReport, side: OrderSide)
    requires Distinct(legs, world) && |reports| < |legs| && Moved(before, pos, legs, world, reports, side)
    requires forall k :: 0 <= k < |reports| ==> reports[k].symbol == world(legs[k]).symbol
    requires rep.symbol == world(legs[|reports|]).symbol
    requires Held(pos', rep.symbol)
          == Held(pos, rep.symbol) + if rep.symbol == "" then 0 else Signed(side, Traded(rep.log))
    requires forall s :: s != rep.symbol ==> Held(pos', s) == Held(pos, s)
    ensures Moved(before, pos', legs, world, reports + [rep], side)
  {
    hide Held, Signed, Traded;
    var i, reports' := |reports|, reports + [rep];
    assert forall k :: 0 <= k < i ==> reports'[k] == reports[k];
    forall s | forall k :: 0 <= k < |reports'| ==> world(legs[k]).symbol != s
      ensures Held(pos', s) == Held(before, s)
    {
      assert world(legs[i]).symbol != s;
    }
    if rep.symbol != "" {
      assert forall k :: 0 <= k < i ==> world(legs[k]).symbol != rep.symbol;
    }
  }

  lemma MovedAll(before: map<string, int>, pos: map<string, int>, legs: seq<Leg>, world: Leg -> LegWorld,
                 reports: seq<LegReport>, side: OrderSide)
    requires |reports| == |legs| && Moved(before, pos, legs, world, reports, side)
    ensures forall k :: 0 <= k < |legs| && reports[k].symbol != "" ==>
              Held(pos, reports[k].symbol) == Held(before, reports[k].symbol) + Signed(side, Traded(reports[k].log))
    ensures forall s :: (forall k :: 0 <= k < |legs| ==> world(legs[k]).symbol != s) ==> Held(pos, s) == Held(before, s)
  {
    hide Held, Signed, Traded;
  }

  lemma OutcomeMeans(b: Broker, side: OrderSide, qty: int, chases: int, useLimit: bool, log: seq<Order>, r: Outcome)
    requires Run(b, side, qty, chases, useLimit, 0.0, log, r)
    ensures r.Raised? <==> LegRaised(log)
    ensures r.Returned? ==> |r.fill.orderIds| == |log| && r.fill.filledQty == Booked(log)
                            && (log != [] ==> r.fill.orderIds[|log| - 1] == |log| - 1)
  {
    RaisedIff(b, side, qty, chases, useLimit, 0.0, log, r);
    if r.Returned? {
      ReturnedMeans(b, side, qty, chases, useLimit, 0.0, log, r.fill);
    }
    hide Run, Booked;
  }

  /** What a leg reports, said of its orders and reads: nothing if the executor raised; the full quantity if it booked
      less and the first average among the confirming reads comes before a failed one; else what was booked. */
  ghost function QtyOf(w: LegWorld, qty: int, log: seq<Order>): int {
    if w.symbol == "" || LegRaised(log) then 0
    else if Booked(log) < qty && log != [] && (exists k: nat :: ShownAt(w.confirm, k)) then qty
    else Booked(log)
  }

  lemma ReportMeans(w: LegWorld, side: OrderSide, qty: int, chases: int, useLimit: bool, rep: LegReport)
    requires LegRun(w, side, qty, chases, useLimit, rep)
    ensures rep.fq == QtyOf(w, qty, rep.log)
  {
    hide Run, Booked, LegRaised, Priced;
    if w.symbol != "" {
      var r :| Run(w.broker, side, qty, chases, useLimit, 0.0, rep.log, r) && rep.fq == Reported(r, qty, w.confirm);
      OutcomeMeans(w.broker, side, qty, chases, useLimit, rep.log, r);
      PromotesShown(w.confirm);
    }
  }

  lemma PromotesShown(confirm: seq<StatusRead>)
    ensures Promotes(confirm) <==> exists k: nat :: ShownAt(confirm, k)
  {
    PromotedBy(confirm);
    if Promotes(confirm) {
      var k: nat :| k < |confirm| && confirm[k].Read? && confirm[k].avg > 0.0
                    && forall j :: 0 <= j < k ==> confirm[j].Read?;
      FirstShown(confirm, k);
    }
  }

  lemma {:induction false} FirstShown(confirm: seq<StatusRead>, k: nat)
    requires k < |confirm| && confirm[k].Read? && confirm[k].avg > 0.0 && forall j :: 0 <= j < k ==> confirm[j].Read?
    ensures exists i: nat :: ShownAt(confirm, i)
  {
    if j: nat :| j < k && confirm[j].avg > 0.0 {
      FirstShown(confirm, j);
    } else {
      assert ShownAt(confirm, k);
    }
  }

  /** The price a leg reports, said of its orders and reads. */
  lemma PriceMeans(w: LegWorld, side: OrderSide, qty: int, chases: int, useLimit: bool, rep: LegReport)
    requires LegRun(w, side, qty, chases, useLimit, rep)
    ensures w.symbol == "" || LegRaised(rep.log) ==> rep.px == w.ltp
    ensures w.symbol != "" && !LegRaised(rep.log) && Booked(rep.log) >= qty && Booked(rep.log) > 0
            && Notional(rep.log) / Booked(rep.log) as real >= 0.00000001 ==>
              var paid := Notional(rep.log) / Booked(rep.log) as real;
              paid - 0.000000005 <= rep.px <= paid + 0.000000005
    ensures Booked(rep.log) == 0 && (forall k: nat :: !ShownAt(w.confirm, k)) ==> rep.px == w.ltp
    ensures forall k: nat ::
              w.symbol != "" && !LegRaised(rep.log) && Booked(rep.log) < qty && rep.log != [] && ShownAt(w.confirm, k)
              ==> rep.px == w.confirm[k].avg
  {
    hide Run, Booked, LegRaised, Notional;
    if w.symbol != "" {
      var r :| Run(w.broker, side, qty, chases, useLimit, 0.0, rep.log, r) && rep.fq == Reported(r, qty, w.confirm)
               && Priced(w, qty, r, rep.px);
      OutcomeMeans(w.broker, side, qty, chases, useLimit, rep.log, r);
      PromotesShown(w.confirm);
      if r.Returned? {
        ReturnedMeans(w.broker, side, qty, chases, useLimit, 0.0, rep.log, r.fill);
      }
    }
  }

  /** A leg whose order id is kept had all its orders accepted, and a leg with orders whose id is not kept ended in one
      that could not be placed or told nothing. */
  lemma PlacedMeans(w: LegWorld, side: OrderSide, qty: int, chases: int, useLimit: bool, rep: LegReport)
    requires LegRun(w, side, qty, chases, useLimit, rep)
    ensures Placed(rep) ==> rep.log != [] && forall i :: 0 <= i < |rep.log| ==> rep.log[i].life.accepted
    ensures rep.log != [] && !Placed(rep) ==>
              !rep.log[|rep.log| - 1].life.accepted || rep.log[|rep.log| - 1].life.later.ReadFails?
  {
    hide Run, Priced;
    if w.symbol != "" {
      var r :| Run(w.broker, side, qty, chases, useLimit, 0.0, rep.log, r) && rep.fq == Reported(r, qty, w.confirm);
      OutcomeMeans(w.broker, side, qty, chases, useLimit, rep.log, r);
      if r.Returned? {
        ReturnedMeans(w.broker, side, qty, chases, useLimit, 0.0, rep.log, r.fill);
      }
    }
  }

  /** The guard's condition, said of the legs' orders and reads. */
  ghost predicate OneSided(legs: seq<Leg>, world: Leg -> LegWorld, reports: seq<LegReport>, qty: int)
    requires |reports| == |legs|
  {
    (exists i :: 0 <= i < |legs| && QtyOf(world(legs[i]), qty, reports[i].log) > 0)
    && exists i :: 0 <= i < |legs| && QtyOf(world(legs[i]), qty, reports[i].log) < qty
  }

  lemma GuardMeans(legs: seq<Leg>, world: Leg -> LegWorld, reports: seq<LegReport>, side: OrderSide, qty: int,
                   chases: int, useLimit: bool)
    requires |reports| == |legs|
    requires forall k :: 0 <= k < |legs| ==> LegRun(world(legs[k]), side, qty, chases, useLimit, reports[k])
    ensures Asymmetric(reports, qty) <==> OneSided(legs, world, reports, qty)
  {
    hide LegRun, QtyOf;
    forall k | 0 <= k < |legs|
      ensures reports[k].fq == QtyOf(world(legs[k]), qty, reports[k].log)
    {
      ReportMeans(world(legs[k]), side, qty, chases, useLimit, reports[k]);
    }
  }

  /** Different legs, trading different symbols. */
  predicate Distinct(legs: seq<Leg>, world: Leg -> LegWorld) {
    forall i, j :: 0 <= i < j < |legs| ==>
      legs[i] != legs[j] && (world(legs[i]).symbol != "" ==> world(legs[i]).symbol != world(legs[j]).symbol)
  }

  predicate SymbolsDiffer(reports: seq<LegReport>) {
    forall i, j :: 0 <= i < j < |reports| && reports[i].symbol != "" ==> reports[i].symbol != reports[j].symbol
  }

  /** What the direct flatten order of a leg does to its position. */
  function Flattened(g: GuardWorld, side: OrderSide, rep: LegReport): int {
    if rep.fq <= 0 then 0
    else match g.plain(rep.symbol, Opposite(side), rep.fq)
         case Rejected => 0
         case Trades(qty) => Signed(Opposite(side), qty)
  }

  predicate FlatIn(pos: map<string, int>, legs: seq<Leg>, world: Leg -> LegWorld) {
    forall i :: 0 <= i < |legs| && world(legs[i]).symbol != "" ==> Held(pos, world(legs[i]).symbol) == 0
  }

  predicate FullIn(pos: map<string, int>, legs: seq<Leg>, world: Leg -> LegWorld, qty: int) {
    forall i :: 0 <= i < |legs| ==> world(legs[i]).symbol != "" && Held(pos, world(legs[i]).symbol) == qty
  }

  /** Some leg reports a fill, or the late fills of the legs, which no read shows, happen to be alike. */
  predicate Settled(reports: seq<LegReport>, qty: int) {
    (exists i :: 0 <= i < |reports| && reports[i].fq > 0)
    || (forall i :: 0 <= i < |reports| ==> Traded(reports[i].log) == 0)
    || (forall i :: 0 <= i < |reports| ==> Traded(reports[i].log) == qty)
  }

  /** The guard's condition: something filled, but not every leg in full. */
  predicate Asymmetric(reports: seq<LegReport>, qty: int) {
    (exists i :: 0 <= i < |reports| && reports[i].fq > 0) && exists i :: 0 <= i < |reports| && reports[i].fq < qty
  }

  lemma AsymmetricSettles(reports: seq<LegReport>, qty: int)
    requires Asymmetric(reports, qty)
    ensures Settled(reports, qty)
  {
  }

  ghost predicate LegRun(w: LegWorld, side: OrderSide, qty: int, chases: int, useLimit: bool, rep: LegReport) {
    rep.symbol == w.symbol &&
    if w.symbol == "" then rep.fq == 0 && rep.log == [] && rep.px == w.ltp
    else exists r ::
      Run(w.broker, side, qty, chases, useLimit, 0.0, rep.log, r) && rep.fq == Reported(r, qty, w.confirm)
      && Priced(w, qty, r, rep.px)
  }

  lemma IsLegRun(w: LegWorld, side: OrderSide, qty: int, chases: int, useLimit: bool, rep: LegReport, r: Outcome)
    requires rep.symbol == w.symbol
    requires if w.symbol == "" then rep.fq == 0 && rep.log == [] && rep.px == w.ltp
             else Run(w.broker, side, qty, chases, useLimit, 0.0, rep.log, r) && rep.fq == Reported(r, qty, w.confirm)
                  && Priced(w, qty, r, rep.px)
    ensures LegRun(w, side, qty, chases, useLimit, rep)
  {
  }

  ghost predicate GoodLegs(legs: seq<Leg>, world: Leg -> LegWorld, reports: seq<LegReport>)
    requires |reports| == |legs|
  {
    forall i :: 0 <= i < |legs| ==> GoodLeg(world(legs[i]), reports[i].log)
  }

  ghost predicate GoodLeg(w: LegWorld, log: seq<Order>) {
    Honest(w.broker) && IocTerminal(w.broker) && AllOrNothing(w.broker) && AverageMeansTraded(w.confirm, log)
  }

  /** When the guard lets an entry through, either every leg reports full and is full, or no leg reports anything. */
  lemma Symmetric(legs: seq<Leg>, world: Leg -> LegWorld, reports: seq<LegReport>, qty: int, chases: int,
                  useLimit: bool, side: OrderSide)
    requires qty > 0 && |reports| == |legs| && !Asymmetric(reports, qty)
    requires forall k :: 0 <= k < |legs| ==> LegRun(world(legs[k]), side, qty, chases, useLimit, reports[k])
    ensures GoodLegs(legs, world, reports) ==>
              (forall i :: 0 <= i < |legs| ==> reports[i].fq <= 0)
              || forall i :: 0 <= i < |legs| ==> world(legs[i]).symbol != "" && Traded(reports[i].log) == qty
  {
    if GoodLegs(legs, world, reports) && exists i :: 0 <= i < |reports| && reports[i].fq > 0 {
      forall i | 0 <= i < |legs|
        ensures world(legs[i]).symbol != "" && Traded(reports[i].log) == qty
      {
        var w := world(legs[i]);
        assert reports[i].fq >= qty && LegRun(w, side, qty, chases, useLimit, reports[i]);
        var r :| Run(w.broker, side, qty, chases, useLimit, 0.0, reports[i].log, r)
                 && reports[i].fq == Reported(r, qty, w.confirm);
        assert GoodLeg(w, reports[i].log);
        FullMeansFull(w, side, qty, chases, useLimit, reports[i].log, r);
      }
    }
  }

  /** What the guard lets through is all or nothing exactly if it is settled, and that it is if the reads are sure. */
  lemma LetThrough(before: map<string, int>, pos: map<string, int>, legs: seq<Leg>, world: Leg -> LegWorld,
                   reports: seq<LegReport>, qty: int, chases: int, useLimit: bool)
    requires qty > 0 && |reports| == |legs| && !Asymmetric(reports, qty)
    requires forall k :: 0 <= k < |legs| ==> LegRun(world(legs[k]), SELL, qty, chases, useLimit, reports[k])
    requires FlatIn(before, legs, world) && GoodLegs(legs, world, reports)
    requires forall k :: 0 <= k < |legs| && reports[k].symbol != "" ==>
      Held(pos, reports[k].symbol) == Held(before, reports[k].symbol) + Signed(SELL, Traded(reports[k].log))
    ensures FlatIn(pos, legs, world) || FullIn(pos, legs, world, -qty) <==> Settled(reports, qty)
    ensures Sure(legs, world, reports, qty) ==> Settled(reports, qty)
  {
    hide GoodLegs, Run, Traded, Reported, Asymmetric, Sure;
    forall k | 0 <= k < |legs|
      ensures reports[k].symbol == world(legs[k]).symbol
      ensures reports[k].symbol == "" ==> Traded(reports[k].log) == 0
      ensures reports[k].symbol != "" ==> Held(pos, reports[k].symbol) == -Traded(reports[k].log)
    {
      assert LegRun(world(legs[k]), SELL, qty, chases, useLimit, reports[k]);
      if reports[k].symbol == "" {
        NothingTraded(reports[k].log);
      }
    }
    Symmetric(legs, world, reports, qty, chases, useLimit, SELL);
    if Sure(legs, world, reports, qty) {
      SureSettles(legs, world, reports, qty, chases, useLimit);
    }
  }

  lemma NothingTraded(log: seq<Order>)
    ensures log == [] ==> Traded(log) == 0
  {
  }

  // ---------------------------------------------------------------- what the reads leave open

  /** The broker as before, but for what one order trades in the end. */
  function Recompleted(b: Broker, n: nat, req: OrderRequest, t: int): Broker {
    Broker(b.quote,
           (i: nat, r: OrderRequest) => if i == n && r == req then b.life(i, r).(traded := t) else b.life(i, r))
  }

  /** A leg's orders with the last one trading t in the end: everything the executor and the guard see is the same. */
  function Ended(log: seq<Order>, t: int): (log': seq<Order>)
    ensures |log'| == |log|
  {
    if log == [] then []
    else
      var last := log[|log| - 1];
      log[..|log| - 1] + [last.(life := last.life.(traded := t))]
  }

  function EndedWorld(w: LegWorld, log: seq<Order>, t: int): LegWorld {
    if log == [] then w else w.(broker := Recompleted(w.broker, |log| - 1, log[|log| - 1].req, t))
  }

  /** The last order may still trade t, as far as its reads and the broker's honesty go. */
  ghost predicate MayEnd(w: LegWorld, log: seq<Order>, t: int) { GoodLeg(EndedWorld(w, log, t), Ended(log, t)) }

  lemma EndedBooks(log: seq<Order>, t: int)
    ensures forall n :: 0 <= n <= |log| ==> BookedBy(Ended(log, t), n) == BookedBy(log, n)
    ensures Booked(Ended(log, t)) == Booked(log) && Notional(Ended(log, t)) == Notional(log)
  {
    var log' := Ended(log, t);
    if log != [] {
      EndedParts(log, t);
      hide Value, Booked, Notional, Ended;
      LastSummand(log);
      LastSummand(log');
      SameValue(log'[|log| - 1], log[|log| - 1]);
      assert log'[..|log|] == log' && log[..|log|] == log;
      assert forall n :: 0 <= n < |log| ==> log'[..n] == log[..n];
    }
  }

  lemma EndedParts(log: seq<Order>, t: int)
    requires log != []
    ensures var m, log' := |log| - 1, Ended(log, t);
            |log'| == |log| && log'[m].booked == log[m].booked && log'[m].avg == log[m].avg
            && forall n :: 0 <= n <= m ==> log'[..n] == log[..n]
  {
    var m, log' := |log| - 1, Ended(log, t);
    forall n | 0 <= n <= m
      ensures log'[..n] == log[..n]
    {
      assert forall i :: 0 <= i < n ==> log'[i] == log[i];
    }
  }

  lemma LastSummand(log: seq<Order>)
    requires log != []
    ensures var m := |log| - 1;
            Booked(log) == Booked(log[..m]) + log[m].booked && Notional(log) == Notional(log[..m]) + Value(log[m])
  {
    hide Value;
  }

  lemma SameValue(o: Order, o': Order)
    requires o.booked == o'.booked && o.avg == o'.avg
    ensures Value(o) == Value(o')
  {
  }

  lemma EndedOrder(b: Broker, side: OrderSide, qty: int, chases: int, log: seq<Order>, t: int, n: nat)
    requires n < |log|
    ensures var m := |log| - 1;
            var b', log' := Recompleted(b, m, log[m].req, t), Ended(log, t);
            (Rung(b, side, qty, chases, 0.0, log, n) ==> Rung(b', side, qty, chases, 0.0, log', n))
            && (Mop(b, side, qty, log, n) ==> Mop(b', side, qty, log', n))
  {
    hide LadderPrice;
    EndedBooks(log, t);
  }

  /** The same run, as the executor sees it. */
  lemma EndedRun(b: Broker, side: OrderSide, qty: int, chases: int, useLimit: bool, log: seq<Order>, r: Outcome, t: int)
    requires Run(b, side, qty, chases, useLimit, 0.0, log, r) && log != []
    ensures var m := |log| - 1;
            Run(Recompleted(b, m, log[m].req, t), side, qty, chases, useLimit, 0.0, Ended(log, t), r)
  {
    var m := |log| - 1;
    EndedBooks(log, t);
    SameClimb(b, side, qty, chases, log, t);
    SameLast(b, side, qty, chases, useLimit, log, t);
    SameVerdict(qty, log, Ended(log, t), r);
    hide Climbing, LastOrder, Verdict, Recompleted, Ended;
  }

  lemma SameClimb(b: Broker, side: OrderSide, qty: int, chases: int, log: seq<Order>, t: int)
    requires log != [] && Climbing(b, side, qty, chases, 0.0, log, |log| - 1)
    ensures var m := |log| - 1;
            Climbing(Recompleted(b, m, log[m].req, t), side, qty, chases, 0.0, Ended(log, t), m)
  {
    var m := |log| - 1;
    var b', log' := Recompleted(b, m, log[m].req, t), Ended(log, t);
    EndedBooks(log, t);
    assert log'[..m] == log[..m];
    hide Rung, Recompleted, Ended, BookedBy;
    forall n | 0 <= n < m
      ensures Rung(b', side, qty, chases, 0.0, log', n) && log'[n].life.accepted && BookedBy(log', n + 1) < qty
    {
      assert log'[n] == log'[..m][n] == log[..m][n] == log[n];
      EndedOrder(b, side, qty, chases, log, t, n);
    }
  }

  lemma SameLast(b: Broker, side: OrderSide, qty: int, chases: int, useLimit: bool, log: seq<Order>, t: int)
    requires log != [] && LastOrder(b, side, qty, chases, useLimit, 0.0, log, |log| - 1)
    ensures var m := |log| - 1;
            LastOrder(Recompleted(b, m, log[m].req, t), side, qty, chases, useLimit, 0.0, Ended(log, t), m)
  {
    var m := |log| - 1;
    EndedBooks(log, t);
    assert Ended(log, t)[..m] == log[..m];
    EndedOrder(b, side, qty, chases, log, t, m);
    SameQuotes(b, m, log[m].req, t, side, qty, chases, log[..m]);
    hide Rung, Mop, LadderOver, Recompleted, Ended, BookedBy;
  }

  lemma SameQuotes(b: Broker, n: nat, req: OrderRequest, t: int, side: OrderSide, qty: int, chases: int,
                   log: seq<Order>)
    ensures LadderOver(Recompleted(b, n, req, t), side, qty, chases, 0.0, log)
         == LadderOver(b, side, qty, chases, 0.0, log)
  {
    hide LadderPrice, Booked;
  }

  lemma SameVerdict(qty: int, log: seq<Order>, log': seq<Order>, r: Outcome)
    requires |log'| == |log| > 0 && Booked(log') == Booked(log) && Notional(log') == Notional(log)
    requires var o, o' := log[|log| - 1], log'[|log| - 1];
             o'.req == o.req && o'.life == o.life.(traded := o'.life.traded)
    ensures Verdict(qty, log, r) ==> Verdict(qty, log', r)
  {
    hide Booked, Notional;
  }

  /** Whatever its last order trades in the end, the leg reports what it reported. */
  lemma SameReport(w: LegWorld, side: OrderSide, qty: int, chases: int, useLimit: bool, rep: LegReport, t: int)
    requires LegRun(w, side, qty, chases, useLimit, rep)
    ensures LegRun(EndedWorld(w, rep.log, t), side, qty, chases, useLimit, rep.(log := Ended(rep.log, t)))
  {
    hide Run, Reported;
    if rep.log != [] {
      var r :| Run(w.broker, side, qty, chases, useLimit, 0.0, rep.log, r) && rep.fq == Reported(r, qty, w.confirm)
               && Priced(w, qty, r, rep.px);
      EndedRun(w.broker, side, qty, chases, useLimit, rep.log, r, t);
      IsLegRun(EndedWorld(w, rep.log, t), side, qty, chases, useLimit, rep.(log := Ended(rep.log, t)), r);
    }
  }

  /** What a leg's earlier orders booked. */
  function Earlier(log: seq<Order>): int { if log == [] then 0 else Booked(log[..|log| - 1]) }

  /** A leg that reports nothing: its earlier rungs traded what they booked, its last order asks for the rest and is
      either the market order or one whose placing raised. */
  lemma Unreported(w: LegWorld, side: OrderSide, qty: int, chases: int, useLimit: bool, rep: LegReport, t: int)
    requires qty > 0 && LegRun(w, side, qty, chases, useLimit, rep) && GoodLeg(w, rep.log)
    requires rep.fq <= 0 && rep.log != []
    ensures var last := rep.log[|rep.log| - 1];
            0 <= Earlier(rep.log) < qty && last.req.qty == qty - Earlier(rep.log)
            && (last.req.kind.MARKET? || !last.life.accepted)
            && last.life == w.broker.life(|rep.log| - 1, last.req)
    ensures Traded(Ended(rep.log, t)) == Earlier(rep.log) + t
  {
    hide Run;
    var log, m := rep.log, |rep.log| - 1;
    var r :| Run(w.broker, side, qty, chases, useLimit, 0.0, log, r) && rep.fq == Reported(r, qty, w.confirm);
    RunVerdict(w.broker, side, qty, chases, useLimit, 0.0, log, r);
    NeverOverBooked(w.broker, side, qty, chases, useLimit, 0.0, log, r);
    OrderOf(w.broker, side, qty, chases, useLimit, 0.0, log, r, m);
    OrderKind(w.broker, side, qty, chases, 0.0, log, m);
    EarlierExact(w.broker, side, qty, chases, useLimit, log, r);
    assert Ended(log, t)[..m] == log[..m];
    assert Traded(Ended(log, t)) == Traded(log[..m]) + t;
    hide Booked, Traded;
    assert BookedBy(log, m) == Earlier(log);
  }

  lemma EarlierExact(b: Broker, side: OrderSide, qty: int, chases: int, useLimit: bool, log: seq<Order>, r: Outcome)
    requires qty > 0 && Run(b, side, qty, chases, useLimit, 0.0, log, r) && log != []
    requires Honest(b) && IocTerminal(b)
    ensures 0 <= Booked(log[..|log| - 1]) == Traded(log[..|log| - 1])
  {
    hide Run, Booked;
    var m := |log| - 1;
    forall n | 0 <= n < m
      ensures log[..m][n].booked == log[..m][n].life.traded && log[..m][n].booked >= 0
    {
      OrderOf(b, side, qty, chases, useLimit, 0.0, log, r, n);
      LimitExact(b, side, qty, chases, useLimit, 0.0, log, r, n);
    }
    Sums(log[..m]);
  }

  /** Some read of the last order shows that at least q of it traded. */
  predicate Shows(w: LegWorld, log: seq<Order>, q: int)
    requires log != []
  {
    var life := log[|log| - 1].life;
    (life.later.Read? && life.later.qty >= q)
    || (exists k :: 0 <= k < |life.polls| && life.polls[k].Read? && life.polls[k].qty >= q)
    || (q <= 1 && exists k :: 0 <= k < |w.confirm| && w.confirm[k].Read? && w.confirm[k].avg > 0.0)
  }

  /** What a leg that reports nothing may come to: anything between what its reads show and what its last order asks
      for, all or nothing for a market order. */
  lemma MayEndIff(w: LegWorld, side: OrderSide, qty: int, chases: int, useLimit: bool, rep: LegReport, t: int)
    requires qty > 0 && LegRun(w, side, qty, chases, useLimit, rep) && GoodLeg(w, rep.log)
    requires rep.fq <= 0 && rep.log != []
    ensures var req := rep.log[|rep.log| - 1].req;
            MayEnd(w, rep.log, t) <==>
            0 <= t <= req.qty && (req.kind.MARKET? ==> t == 0 || t == req.qty) && !Shows(w, rep.log, t + 1)
  {
    Unreported(w, side, qty, chases, useLimit, rep, t);
    hide LegRun, Earlier;
    EndsIff(w, rep.log, t);
  }

  lemma EndsIff(w: LegWorld, log: seq<Order>, t: int)
    requires log != [] && GoodLeg(w, log)
    requires var last := log[|log| - 1];
             last.req.qty >= 0 && (last.req.kind.MARKET? || !last.life.accepted)
             && last.life == w.broker.life(|log| - 1, last.req)
    ensures var req := log[|log| - 1].req;
            MayEnd(w, log, t) <==>
            0 <= t <= req.qty && (req.kind.MARKET? ==> t == 0 || t == req.qty) && !Shows(w, log, t + 1)
  {
    var m, last := |log| - 1, log[|log| - 1];
    var b, b' := w.broker, Recompleted(w.broker, m, last.req, t);
    assert b'.life(m, last.req) == last.life.(traded := t);
    if 0 <= t <= last.req.qty && (last.req.kind.MARKET? ==> t == 0 || t == last.req.qty) && !Shows(w, log, t + 1) {
      forall n: nat, req: OrderRequest
        ensures req.qty >= 0 ==> HonestLife(req, b'.life(n, req))
        ensures req.kind.LIMIT? && b'.life(n, req).accepted ==> IocSettled(b'.life(n, req))
        ensures req.kind.MARKET? ==> b'.life(n, req).traded in {0, req.qty}
      {
        if n != m || req != last.req {
          assert b'.life(n, req) == b.life(n, req);
        }
      }
    }
    if MayEnd(w, log, t) {
      assert HonestLife(last.req, b'.life(m, last.req));
      assert last.req.kind.MARKET? ==> b'.life(m, last.req).traded in {0, last.req.qty};
    }
  }

  /** The reads of a leg that reports nothing leave only one end: it is filled in full. */
  predicate SureFull(w: LegWorld, log: seq<Order>, qty: int) {
    log != [] && Shows(w, log, if log[|log| - 1].req.kind.MARKET? then 1 else qty - Earlier(log))
  }

  /** The reads of the legs leave no uneven end open: some leg reports a fill; or no leg placed an order; or every
      leg's reads show it filled; or there is one leg only, and it can only be full or empty. */
  predicate Sure(legs: seq<Leg>, world: Leg -> LegWorld, reports: seq<LegReport>, qty: int)
    requires |reports| == |legs|
  {
    (exists i :: 0 <= i < |legs| && reports[i].fq > 0)
    || (forall i :: 0 <= i < |legs| ==> reports[i].log == [])
    || (forall i :: 0 <= i < |legs| ==> SureFull(world(legs[i]), reports[i].log, qty))
    || (|legs| == 1 && Earlier(reports[0].log) == 0
        && reports[0].log != [] && (reports[0].log[|reports[0].log| - 1].req.kind.MARKET? || qty == 1))
  }

  ghost predicate MayAllEnd(legs: seq<Leg>, world: Leg -> LegWorld, reports: seq<LegReport>, ends: seq<int>)
    requires |reports| == |legs| == |ends|
  {
    forall i :: 0 <= i < |legs| ==> MayEnd(world(legs[i]), reports[i].log, ends[i])
  }

  /** With these ends every leg is full, or every leg is empty. */
  predicate Even(reports: seq<LegReport>, ends: seq<int>, qty: int)
    requires |reports| == |ends|
  {
    (forall i :: 0 <= i < |reports| ==> Traded(Ended(reports[i].log, ends[i])) == 0)
    || (forall i :: 0 <= i < |reports| ==> Traded(Ended(reports[i].log, ends[i])) == qty)
  }

  ghost predicate AlwaysEven(legs: seq<Leg>, world: Leg -> LegWorld, reports: seq<LegReport>, qty: int)
    requires |reports| == |legs|
  {
    forall ends: seq<int> :: |ends| == |legs| && MayAllEnd(legs, world, reports, ends) ==> Even(reports, ends, qty)
  }

  /** What the last order really trades is one of the ends its reads leave open. */
  lemma ActualEnd(w: LegWorld, side: OrderSide, qty: int, chases: int, useLimit: bool, rep: LegReport)
    requires qty > 0 && LegRun(w, side, qty, chases, useLimit, rep) && GoodLeg(w, rep.log)
    requires rep.fq <= 0 && rep.log != []
    ensures var t := rep.log[|rep.log| - 1].life.traded;
            MayEnd(w, rep.log, t) && Ended(rep.log, t) == rep.log
  {
    var m, last := |rep.log| - 1, rep.log[|rep.log| - 1];
    MayEndIff(w, side, qty, chases, useLimit, rep, last.life.traded);
    Unreported(w, side, qty, chases, useLimit, rep, last.life.traded);
    ActualShown(w, rep.log);
    EndedSame(rep.log);
    hide *;
  }

  lemma EndedSame(log: seq<Order>)
    requires log != []
    ensures Ended(log, log[|log| - 1].life.traded) == log
  {
    assert log == log[..|log| - 1] + [log[|log| - 1]];
  }

  /** No read shows more than really trades. */
  lemma ActualShown(w: LegWorld, log: seq<Order>)
    requires log != [] && GoodLeg(w, log)
    requires var last := log[|log| - 1]; last.req.qty >= 0 && last.life == w.broker.life(|log| - 1, last.req)
    ensures var last := log[|log| - 1];
            0 <= last.life.traded <= last.req.qty && !Shows(w, log, last.life.traded + 1)
            && (last.req.kind.MARKET? ==> last.life.traded == 0 || last.life.traded == last.req.qty)
  {
    var m, last := |log| - 1, log[|log| - 1];
    assert HonestLife(last.req, w.broker.life(m, last.req));
    assert last.req.kind.MARKET? ==> w.broker.life(m, last.req).traded in {0, last.req.qty};
  }

  /** A leg whose reads make sure of it ends in full. */
  lemma SureFullEnds(w: LegWorld, side: OrderSide, qty: int, chases: int, useLimit: bool, rep: LegReport, t: int)
    requires qty > 0 && LegRun(w, side, qty, chases, useLimit, rep) && GoodLeg(w, rep.log)
    requires rep.fq <= 0 && SureFull(w, rep.log, qty) && MayEnd(w, rep.log, t)
    ensures Traded(Ended(rep.log, t)) == qty
  {
    MayEndIff(w, side, qty, chases, useLimit, rep, t);
    Unreported(w, side, qty, chases, useLimit, rep, t);
    hide LegRun, MayEnd, GoodLeg, Traded, Earlier;
    ShowsLess(w, rep.log, t + 1);
  }

  lemma ShowsLess(w: LegWorld, log: seq<Order>, q: int)
    requires log != []
    ensures forall p :: p >= q && Shows(w, log, p) ==> Shows(w, log, q)
  {
  }

  /** A leg that reports full ends in full. */
  lemma ReportedFullEnds(w: LegWorld, side: OrderSide, qty: int, chases: int, useLimit: bool, rep: LegReport, t: int)
    requires qty > 0 && LegRun(w, side, qty, chases, useLimit, rep) && rep.fq >= qty && MayEnd(w, rep.log, t)
    ensures Traded(Ended(rep.log, t)) == qty
  {
    SameReport(w, side, qty, chases, useLimit, rep, t);
    hide Run, Reported, Traded, Ended;
    var w', log' := EndedWorld(w, rep.log, t), Ended(rep.log, t);
    var r :| Run(w'.broker, side, qty, chases, useLimit, 0.0, log', r) && rep.fq == Reported(r, qty, w'.confirm);
    FullMeansFull(w', side, qty, chases, useLimit, log', r);
  }

  /** A leg whose reads do not make sure of it can end in full and can end with less; with something, if its earlier
      rungs traded or if a limit order for more than one unit is what is open. */
  lemma OpenEnds(w: LegWorld, side: OrderSide, qty: int, chases: int, useLimit: bool, rep: LegReport)
    returns (low: int, full: int)
    requires qty > 0 && LegRun(w, side, qty, chases, useLimit, rep) && GoodLeg(w, rep.log)
    requires rep.fq <= 0 && rep.log != [] && !SureFull(w, rep.log, qty)
    ensures MayEnd(w, rep.log, low) && MayEnd(w, rep.log, full)
    ensures Traded(Ended(rep.log, full)) == qty && 0 <= Traded(Ended(rep.log, low)) < qty
    ensures !(Earlier(rep.log) == 0 && (rep.log[|rep.log| - 1].req.kind.MARKET? || qty == 1)) ==>
              Traded(Ended(rep.log, low)) > 0
  {
    var log, m, last := rep.log, |rep.log| - 1, rep.log[|rep.log| - 1];
    full := last.req.qty;
    low := if last.req.kind.MARKET? then 0 else full - 1;
    MayEndIff(w, side, qty, chases, useLimit, rep, low);
    MayEndIff(w, side, qty, chases, useLimit, rep, full);
    Unreported(w, side, qty, chases, useLimit, rep, low);
    Unreported(w, side, qty, chases, useLimit, rep, full);
    hide LegRun, MayEnd, Traded, Ended, Earlier;
    assert HonestLife(last.req, w.broker.life(m, last.req));
  }

  /** The ends the legs really come to. */
  function ActualEnds(reports: seq<LegReport>): (ends: seq<int>)
    ensures |ends| == |reports|
  {
    seq(|reports|, i requires 0 <= i < |reports| =>
      if reports[i].log == [] then 0 else reports[i].log[|reports[i].log| - 1].life.traded)
  }

  lemma ActualMayEnd(legs: seq<Leg>, world: Leg -> LegWorld, reports: seq<LegReport>, qty: int, chases: int,
                     useLimit: bool)
    requires qty > 0 && |reports| == |legs| && GoodLegs(legs, world, reports)
    requires forall k :: 0 <= k < |legs| ==> LegRun(world(legs[k]), SELL, qty, chases, useLimit, reports[k])
    requires forall k :: 0 <= k < |legs| ==> reports[k].fq <= 0
    ensures MayAllEnd(legs, world, reports, ActualEnds(reports))
    ensures forall k :: 0 <= k < |legs| ==> Ended(reports[k].log, ActualEnds(reports)[k]) == reports[k].log
  {
    hide LegRun, MayEnd, Ended;
    forall k | 0 <= k < |legs|
      ensures MayEnd(world(legs[k]), reports[k].log, ActualEnds(reports)[k])
      ensures Ended(reports[k].log, ActualEnds(reports)[k]) == reports[k].log
    {
      if reports[k].log == [] {
        NoOrderEnds(world(legs[k]), reports[k].log, ActualEnds(reports)[k]);
      } else {
        ActualEnd(world(legs[k]), SELL, qty, chases, useLimit, reports[k]);
      }
    }
  }

  lemma NoOrderEnds(w: LegWorld, log: seq<Order>, t: int)
    requires log == []
    ensures Ended(log, t) == [] && Traded(Ended(log, t)) == 0
    ensures GoodLeg(w, log) ==> MayEnd(w, log, t)
  {
  }

  /** Where the reads are not sure, the legs can end unevenly. */
  lemma UnevenEnds(legs: seq<Leg>, world: Leg -> LegWorld, reports: seq<LegReport>, qty: int, chases: int,
                   useLimit: bool)
    returns (ends: seq<int>)
    requires qty > 0 && |reports| == |legs| && GoodLegs(legs, world, reports) && !Sure(legs, world, reports, qty)
    requires forall k :: 0 <= k < |legs| ==> LegRun(world(legs[k]), SELL, qty, chases, useLimit, reports[k])
    ensures |ends| == |legs| && MayAllEnd(legs, world, reports, ends) && !Even(reports, ends, qty)
  {
    hide LegRun, MayEnd, Traded, Ended, SureFull, Earlier, GoodLeg;
    ActualMayEnd(legs, world, reports, qty, chases, useLimit);
    ends := ActualEnds(reports);
    hide ActualEnds;
    if i :| 0 <= i < |legs| && reports[i].log != [] && !SureFull(world(legs[i]), reports[i].log, qty) {
      assert GoodLeg(world(legs[i]), reports[i].log);
      var low, full := OpenEnds(world(legs[i]), SELL, qty, chases, useLimit, reports[i]);
      if |legs| == 1 {
        ends := [low];
      } else {
        var j := if i == 0 then 1 else 0;
        var other := Traded(Ended(reports[j].log, ends[j]));
        ends := ends[i := if other == qty then low else full];
        assert Traded(Ended(reports[j].log, ends[j])) == other;
      }
    } else {
      var a :| 0 <= a < |legs| && !SureFull(world(legs[a]), reports[a].log, qty);
      var b :| 0 <= b < |legs| && reports[b].log != [];
      NoOrderEnds(world(legs[a]), reports[a].log, ends[a]);
      assert GoodLeg(world(legs[b]), reports[b].log) && MayEnd(world(legs[b]), reports[b].log, ends[b]);
      SureFullEnds(world(legs[b]), SELL, qty, chases, useLimit, reports[b], ends[b]);
    }
  }

  /** Exactly when an entry that the guard lets through is all or nothing whatever its last orders trade after their
      last reads: when those reads are sure. */
  lemma WholeIff(legs: seq<Leg>, world: Leg -> LegWorld, reports: seq<LegReport>, qty: int, chases: int,
                 useLimit: bool)
    requires qty > 0 && |reports| == |legs| && GoodLegs(legs, world, reports) && !Asymmetric(reports, qty)
    requires forall k :: 0 <= k < |legs| ==> LegRun(world(legs[k]), SELL, qty, chases, useLimit, reports[k])
    ensures AlwaysEven(legs, world, reports, qty) <==> Sure(legs, world, reports, qty)
  {
    hide LegRun, Sure, Even, MayAllEnd;
    if Sure(legs, world, reports, qty) {
      forall ends: seq<int> | |ends| == |legs| && MayAllEnd(legs, world, reports, ends)
        ensures Even(reports, ends, qty)
      {
        SureEven(legs, world, reports, qty, chases, useLimit, ends);
      }
    } else {
      var ends := UnevenEnds(legs, world, reports, qty, chases, useLimit);
    }
  }

  lemma SureEven(legs: seq<Leg>, world: Leg -> LegWorld, reports: seq<LegReport>, qty: int, chases: int,
                 useLimit: bool, ends: seq<int>)
    requires qty > 0 && |reports| == |legs| == |ends| && GoodLegs(legs, world, reports) && !Asymmetric(reports, qty)
    requires forall k :: 0 <= k < |legs| ==> LegRun(world(legs[k]), SELL, qty, chases, useLimit, reports[k])
    requires Sure(legs, world, reports, qty) && MayAllEnd(legs, world, reports, ends)
    ensures Even(reports, ends, qty)
  {
    hide LegRun, MayEnd, Traded, Ended, SureFull, Earlier, GoodLeg;
    forall k | 0 <= k < |legs|
      ensures reports[k].fq >= qty ==> Traded(Ended(reports[k].log, ends[k])) == qty
      ensures reports[k].fq <= 0 && SureFull(world(legs[k]), reports[k].log, qty) ==>
                Traded(Ended(reports[k].log, ends[k])) == qty
      ensures reports[k].log == [] ==> Traded(Ended(reports[k].log, ends[k])) == 0
    {
      LegEnds(world(legs[k]), qty, chases, useLimit, reports[k], ends[k]);
    }
    if |legs| == 1 && reports[0].fq <= 0 && reports[0].log != [] && Earlier(reports[0].log) == 0 {
      LoneEnds(world(legs[0]), qty, chases, useLimit, reports[0], ends[0]);
    }
  }

  lemma LegEnds(w: LegWorld, qty: int, chases: int, useLimit: bool, rep: LegReport, t: int)
    requires qty > 0 && LegRun(w, SELL, qty, chases, useLimit, rep) && GoodLeg(w, rep.log) && MayEnd(w, rep.log, t)
    ensures rep.fq >= qty || (rep.fq <= 0 && SureFull(w, rep.log, qty)) ==> Traded(Ended(rep.log, t)) == qty
    ensures rep.log == [] ==> Traded(Ended(rep.log, t)) == 0
  {
    hide LegRun, MayEnd, Traded, Ended, SureFull, GoodLeg;
    if rep.fq >= qty {
      ReportedFullEnds(w, SELL, qty, chases, useLimit, rep, t);
    } else if rep.fq <= 0 && SureFull(w, rep.log, qty) {
      SureFullEnds(w, SELL, qty, chases, useLimit, rep, t);
    }
    if rep.log == [] {
      NoOrderEnds(w, rep.log, t);
    }
  }

  /** One market order, or one unit, for the whole leg: full or empty. */
  lemma LoneEnds(w: LegWorld, qty: int, chases: int, useLimit: bool, rep: LegReport, t: int)
    requires qty > 0 && LegRun(w, SELL, qty, chases, useLimit, rep) && GoodLeg(w, rep.log) && MayEnd(w, rep.log, t)
    requires rep.fq <= 0 && rep.log != [] && Earlier(rep.log) == 0
    ensures rep.log[|rep.log| - 1].req.kind.MARKET? || qty == 1 ==> Traded(Ended(rep.log, t)) in {0, qty}
  {
    MayEndIff(w, SELL, qty, chases, useLimit, rep, t);
    Unreported(w, SELL, qty, chases, useLimit, rep, t);
    hide LegRun, MayEnd, Traded, Ended, Earlier, GoodLeg;
  }

  /** What the legs really come to is one of the ends left open. */
  lemma SureSettles(legs: seq<Leg>, world: Leg -> LegWorld, reports: seq<LegReport>, qty: int, chases: int,
                    useLimit: bool)
    requires qty > 0 && |reports| == |legs| && GoodLegs(legs, world, reports) && !Asymmetric(reports, qty)
    requires forall k :: 0 <= k < |legs| ==> LegRun(world(legs[k]), SELL, qty, chases, useLimit, reports[k])
    requires Sure(legs, world, reports, qty)
    ensures Settled(reports, qty)
  {
    hide LegRun, GoodLegs, Sure, MayAllEnd, Ended, ActualEnds, Traded;
    if forall k :: 0 <= k < |legs| ==> reports[k].fq <= 0 {
      ActualMayEnd(legs, world, reports, qty, chases, useLimit);
      SureEven(legs, world, reports, qty, chases, useLimit, ActualEnds(reports));
    }
  }

  /** A leg whose later order raises reports nothing, although an earlier one filled: here one unit. */
  lemma RaiseForgets(qty: int) returns (w: LegWorld, log: seq<Order>)
    requires qty > 1
    ensures GoodLeg(w, log) && Run(w.broker, SELL, qty, 1, true, 0.0, log, Raised)
    ensures Reported(Raised, qty, w.confirm) == 0 && Traded(log) == 1
  {
    hide LadderPrice;
    w := LegWorld("CE", 0.0, OnceBroker(), []);
    var b := w.broker;
    var p0, p1 := LadderPrice(SELL, 1.0, 1.0, 0, 1, 0.0), LadderPrice(SELL, 1.0, 1.0, 1, 1, 0.0);
    assert p0 > 0.0 && p1 > 0.0 by {
      LadderWithin(SELL, 1.0, 1.0, 0, 1, 0.0);
      LadderWithin(SELL, 1.0, 1.0, 1, 1, 0.0);
    }
    var req0, req1 := OrderRequest(SELL, qty, LIMIT, p0), OrderRequest(SELL, qty - 1, LIMIT, p1);
    var first := [Order(req0, b.life(0, req0), 1, 1.0)];
    log := first + [Order(req1, b.life(1, req1), 0, 0.0)];
    assert first[..0] == [] && first[..1] == first && log[..0] == [] && log[..1] == first && log[..2] == log;
    assert Booked(first) == Booked([]) + 1 && Traded(first) == Traded([]) + 1;
    assert Booked(log) == Booked(first) + 0 && Traded(log) == Traded(first) + 0;
    assert Rung(b, SELL, qty, 1, 0.0, log, 0) && Rung(b, SELL, qty, 1, 0.0, log, 1);
    hide Rung;
    assert Climbing(b, SELL, qty, 1, 0.0, log, 1);
    LadderEnds(b, SELL, qty, 1, 0.0, log);
  }

  /** The first order trades one unit and says so; placing a second one raises. */
  function OnceBroker(): Broker {
    Broker((n: nat) => Quote(1.0, 1.0),
           (n: nat, req: OrderRequest) =>
             if n == 0 && req.kind.LIMIT? && req.qty >= 1 then OrderLife(true, [], Read(1, 1.0, CANCELLED), 1)
             else if n == 0 then OrderLife(true, [], Read(0, 0.0, CANCELLED), 0)
             else OrderLife(false, [], ReadFails, 0))
  }

  // ---------------------------------------------------------------- a late fill

  /** The guard has no eyes for an order that fills after its last read: whatever such a leg's run, it reports
      nothing and holds the full quantity in the end. */
  lemma LateFillUnseen(w: LegWorld, qty: int, rep: LegReport)
    requires qty > 0 && w.broker == LateBroker() && w.confirm == [Read(0, 0.0, OPEN)] && w.symbol != ""
    requires LegRun(w, SELL, qty, 0, false, rep)
    ensures GoodLeg(w, rep.log)
    ensures rep.symbol == w.symbol && rep.fq == 0 && Traded(rep.log) == qty
  {
    var r :| Run(w.broker, SELL, qty, 0, false, 0.0, rep.log, r) && rep.fq == Reported(r, qty, w.confirm);
    SingleMarket(w.broker, qty, rep.log, r);
    PromotedBy(w.confirm);
  }

  /** The same for an order that never trades. */
  lemma NothingFills(w: LegWorld, qty: int, rep: LegReport)
    requires qty > 0 && w.broker == IdleBroker() && w.confirm == [Read(0, 0.0, OPEN)] && w.symbol != ""
    requires LegRun(w, SELL, qty, 0, false, rep)
    ensures GoodLeg(w, rep.log)
    ensures rep.symbol == w.symbol && rep.fq == 0 && Traded(rep.log) == 0
  {
    var r :| Run(w.broker, SELL, qty, 0, false, 0.0, rep.log, r) && rep.fq == Reported(r, qty, w.confirm);
    SingleMarket(w.broker, qty, rep.log, r);
    PromotedBy(w.confirm);
  }

  /** Without limit orders a run is one market order for everything. */
  lemma SingleMarket(b: Broker, qty: int, log: seq<Order>, r: Outcome)
    requires qty > 0 && Run(b, SELL, qty, 0, false, 0.0, log, r)
    ensures |log| == 1 && Mop(b, SELL, qty, log, 0) && log[0].req == OrderRequest(SELL, qty, MARKET, 0.0)
    ensures log[0].life == b.life(0, log[0].req)
    ensures Traded(log) == log[0].life.traded && Booked(log) == log[0].booked && Verdict(qty, log, r)
  {
    assert log[..0] == [];
    assert Traded(log) == Traded([]) + log[0].life.traded;
    assert Booked(log) == Booked([]) + log[0].booked;
  }

  /** A naked leg: from a flat account, with honest all-or-nothing brokers and a working reconciliation, the call is
      filled late, the put never, and the guard publishes the entry as a fill. */
  method LateFillNaked(bridge: Bridge, acct: Account, g: GuardWorld, qty: int)
    returns (published: Published, world: Leg -> LegWorld, reports: seq<LegReport>)
    requires qty > 0 && acct.pos == map[]
    modifies bridge, acct
    ensures world(CE).symbol == "CE" && world(PE).symbol == "PE" && |reports| == 2
    ensures GoodLegs([CE, PE], world, reports) && !Asymmetric(reports, qty)
    ensures LegRun(world(CE), SELL, qty, 0, false, reports[0]) && LegRun(world(PE), SELL, qty, 0, false, reports[1])
    ensures published.Fill? && Held(acct.pos, "CE") == -qty && Held(acct.pos, "PE") == 0
  {
    hide LegRun, Traded, LateBroker, IdleBroker;
    var unread := [Read(0, 0.0, OPEN)];
    world := (leg: Leg) => if leg.CE? then LegWorld("CE", 0.0, LateBroker(), unread)
                               else LegWorld("PE", 0.0, IdleBroker(), unread);
    published, reports := bridge.LiveFill(acct, ENTRY, false, [CE, PE], world, g, qty, 0, false);
    LateFillUnseen(world(CE), qty, reports[0]);
    NothingFills(world(PE), qty, reports[1]);
  }

  /** Market orders stay open while anybody looks, and fill afterwards. */
  function LateBroker(): Broker {
    Broker((n: nat) => QuoteFails,
           (n: nat, req: OrderRequest) =>
             OrderLife(true, [], Read(0, 0.0, OPEN), if req.kind.MARKET? && req.qty >= 0 then req.qty else 0))
  }

  /** Orders stay open for good. */
  function IdleBroker(): Broker {
    Broker((n: nat) => QuoteFails, (n: nat, req: OrderRequest) => OrderLife(true, [], Read(0, 0.0, OPEN), 0))
  }

  /** What the direct flatten order of a sold leg does: it buys back what the leg reports, as far as it trades. */
  lemma FlattenedMeans(g: GuardWorld, rep: LegReport)
    ensures rep.fq <= 0 ==> Flattened(g, SELL, rep) == 0
    ensures rep.fq > 0 && g.plain(rep.symbol, BUY, rep.fq).Rejected? ==> Flattened(g, SELL, rep) == 0
    ensures rep.fq > 0 && g.plain(rep.symbol, BUY, rep.fq).Trades? ==>
              Flattened(g, SELL, rep) == g.plain(rep.symbol, BUY, rep.fq).qty
  {
  }
}
