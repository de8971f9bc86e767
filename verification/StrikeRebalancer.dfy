/**
 * The strikes kept subscribed around the money, and the clean-up after positions close. Each handler is one atomic
 * step on the state of one underlying.
 */
module StrikeRebalancer {
  import opened Rounding
  import opened Wrappers

  datatype UState = UState(openAtm: Option<real>, currentAtm: Option<real>, active: set<real>, pinned: set<real>,
                           rebalances: nat, eod: bool, chain: bool)

  const FRESH := UState(None, None, {}, {}, 0, false, false)

  const MARKET_OPEN := 9 * 3600 + 15 * 60
  const NSE_CLOSE := 15 * 3600 + 30 * 60
  const NSE_INDICES := {"NIFTY", "BANKNIFTY", "FINNIFTY", "MIDCPNIFTY", "SENSEX"}
  const REBALANCE_THRESHOLD := 3.0
  const PAISA := 0.01

  /** n strike steps. */
  function Steps(n: int, step: real): real { n as real * step }

  function RoundToStrike(price: real, step: real): real
    requires step > 0.0
  {
    RoundTo(Steps(RoundHalfEven(price / step), step), PAISA)
  }

  function Window(atm: real, step: real, depth: int): set<real> {
    set i | -depth <= i <= depth :: atm + Steps(i, step)
  }

  function Drift(atm: real, from: real, step: real): real
    requires step > 0.0
  {
    (if atm >= from then atm - from else from - atm) / step
  }

  // ---------------------------------------------------------------- the specification of the steps

  datatype Tick = Tick(secondOfDay: int, ltp: real)

  function Pin(s: UState, strike: real): UState { s.(pinned := s.pinned + {strike}, active := s.active + {strike}) }

  function Unpin(s: UState, strike: real): UState { s.(pinned := s.pinned - {strike}) }

  /** The first tick after the open anchors; later ones rebalance when the money moved three strikes or more. Either
      way what is active then is the window, if any, and the pins. */
  function OnTick(s: UState, nse: bool, step: real, depth: int, t: Tick): UState
    requires step > 0.0
  {
    var s := if nse && t.secondOfDay >= NSE_CLOSE then s.(eod := true) else s;
    var atm := RoundToStrike(t.ltp, step);
    if s.openAtm.None? && t.secondOfDay >= MARKET_OPEN then
      if s.eod then s
      else s.(openAtm := Some(atm), currentAtm := Some(atm),
              active := (if s.chain then Window(atm, step, depth) else {}) + s.pinned)
    else if s.currentAtm.None? || Drift(atm, s.currentAtm.value, step) < REBALANCE_THRESHOLD then s
    else s.(currentAtm := Some(atm), active := Window(atm, step, depth) + s.pinned, rebalances := s.rebalances + 1)
  }

  function ReAnchor(s: UState): UState { s.(openAtm := None, currentAtm := None) }

  /** Clean-up drops a strike from both sets unless a position is open on it, or it is active and not pinned. */
  function CleanUp(s: UState, open: nat, strike: real): UState {
    if open > 0 || (strike in s.active && strike !in s.pinned) then s
    else s.(pinned := s.pinned - {strike}, active := s.active - {strike})
  }

  // ---------------------------------------------------------------- the handlers

  class Rebalancer {
    const steps: map<string, real>
    const depth: int
    var state: map<string, UState>

    constructor (monitored: set<string>, steps: map<string, real>, depth: int)
      requires forall u :: u in steps ==> steps[u] > 0.0
      ensures Valid() && this.steps == steps && this.depth == depth
      ensures state.Keys == monitored && forall u :: u in monitored ==> state[u] == FRESH
    {
      this.steps, this.depth, state := steps, depth, map u | u in monitored :: FRESH;
    }

    ghost predicate Valid()
      reads this
    {
      (forall u :: u in steps ==> steps[u] > 0.0)
      && forall u :: u in state ==> state[u].pinned <= state[u].active
    }

    function StepOf(u: string): (step: real)
      ensures step == 50.0 || (u in steps && step == steps[u])
      ensures u in steps ==> step == steps[u]
    {
      if u in steps then steps[u] else 50.0
    }

    method EnableChain(u: string)
      requires Valid()
      modifies this
      ensures Valid() && state == if u in old(state) then old(state)[u := old(state[u]).(chain := true)] else old(state)
    {
      if u in state {
        state := state[u := state[u].(chain := true)];
      }
    }

    method PinStrike(u: string, strike: real)
      requires Valid()
      modifies this
      ensures Valid() && state == if u in old(state) then old(state)[u := Pin(old(state[u]), strike)] else old(state)
    {
      if u in state {
        var st := state[u];
        st := st.(pinned := st.pinned + {strike});
        st := st.(active := st.active + {strike});
        state := state[u := st];
      }
    }

    method UnpinStrike(u: string, strike: real)
      requires Valid()
      modifies this
      ensures Valid() && state == if u in old(state) then old(state)[u := Unpin(old(state[u]), strike)] else old(state)
    {
      if u in state {
        state := state[u := state[u].(pinned := state[u].pinned - {strike})];
      }
    }

    /** A live feed took over: forget every anchor. */
    method ResetAnchors()
      requires Valid()
      modifies this
      ensures Valid() && state == map u | u in old(state) :: ReAnchor(old(state)[u])
    {
      state := map u | u in state :: state[u].(openAtm := None, currentAtm := None);
    }

    method HandleTick(u: string, t: Tick)
      requires Valid()
      modifies this
      ensures Valid()
      ensures state == if u in old(state)
                       then old(state)[u := OnTick(old(state[u]), u in NSE_INDICES, StepOf(u), depth, t)]
                       else old(state)
    {
      hide RoundToStrike, Window, Drift;
      if u !in state {
        return;
      }
      var st := state[u];
      if u in NSE_INDICES && t.secondOfDay >= NSE_CLOSE {
        st := st.(eod := true);
      }
      var unsubscribed := false;
      if u in NSE_INDICES && !st.eod && t.secondOfDay >= NSE_CLOSE {
        var toUnsub := st.active - st.pinned;
        st := st.(active := st.active - toUnsub, eod := true);
        unsubscribed := true;
      }
      // the block above is never entered: the flag it waits for has just been set
      assert !unsubscribed;
      state := state[u := st];
      if unsubscribed {
        return;
      }
      var step := StepOf(u);
      var atm := RoundToStrike(t.ltp, step);
      if st.openAtm.None? && t.secondOfDay >= MARKET_OPEN {
        if st.eod {
          return;
        }
        st := InitialSubscribe(st.(openAtm := Some(atm), currentAtm := Some(atm)), atm, step);
      } else if st.currentAtm.None? {
        return;
      } else if Drift(atm, st.currentAtm.value, step) >= REBALANCE_THRESHOLD {
        st := Rebalance(st, atm, step);
      }
      state := state[u := st];
    }

    method InitialSubscribe(st: UState, atm: real, step: real) returns (st': UState)
      ensures st' == st.(active := (if st.chain then Window(atm, step, depth) else {}) + st.pinned)
    {
      var window := if st.chain then Window(atm, step, depth) else {};
      st' := st.(active := window + st.pinned);
    }

    /** Two set differences; because pins are always active the outcome is exactly the new window and the pins. */
    method Rebalance(st: UState, atm: real, step: real) returns (st': UState)
      requires st.pinned <= st.active
      ensures st' == st.(currentAtm := Some(atm), active := Window(atm, step, depth) + st.pinned,
                         rebalances := st.rebalances + 1)
    {
      var window := Window(atm, step, depth);
      var toUnsub := st.active - window - st.pinned;
      var toSub := window - st.active;
      st' := st.(active := (st.active - toUnsub) + toSub, currentAtm := Some(atm), rebalances := st.rebalances + 1);
      hide Window;
      assert st'.active == window + st.pinned;
    }
  }

  class StrikeCleanup {
    const rebalancer: Rebalancer
    var openCounts: map<(string, real), nat>

    constructor (r: Rebalancer)
      ensures rebalancer == r && openCounts == map[]
    {
      rebalancer, openCounts := r, map[];
    }

    function Open(u: string, strike: real): nat
      reads this
    {
      if (u, strike) in openCounts then openCounts[(u, strike)] else 0
    }

    method Opened(u: string, strike: real)
      modifies this
      ensures var was := if (u, strike) in old(openCounts) then old(openCounts)[(u, strike)] else 0;
              openCounts == old(openCounts)[(u, strike) := was + 1]
    {
      openCounts := openCounts[(u, strike) := Open(u, strike) + 1];
    }

    /** A closing fill, or an explicit close: count down, then clean up. */
    method Closed(u: string, strike: real)
      requires rebalancer.Valid()
      modifies this, rebalancer
      ensures rebalancer.Valid()
      ensures var was := if (u, strike) in old(openCounts) then old(openCounts)[(u, strike)] else 0;
              openCounts == old(openCounts)[(u, strike) := if was > 0 then was - 1 else 0]
      ensures rebalancer.state == if u in old(rebalancer.state)
              then old(rebalancer.state)[u := CleanUp(old(rebalancer.state[u]), Open(u, strike), strike)]
              else old(rebalancer.state)
    {
      openCounts := openCounts[(u, strike) := if Open(u, strike) > 0 then Open(u, strike) - 1 else 0];
      if Open(u, strike) > 0 {
        return;
      }
      var active := if u in rebalancer.state then rebalancer.state[u].active else {};
      var pinned := if u in rebalancer.state then rebalancer.state[u].pinned else {};
      if strike in active && strike !in pinned {
        return;
      }
      rebalancer.UnpinStrike(u, strike);
      if u in rebalancer.state {
        var st := rebalancer.state[u];
        rebalancer.state := rebalancer.state[u := st.(active := st.active - {strike})];
      }
    }
  }

  // ---------------------------------------------------------------- runs over one underlying

  datatype Event = Enable | PinEvent(strike: real) | UnpinEvent(strike: real) | TickEvent(tick: Tick) | ReAnchorEvent
                 | OpenedEvent(strike: real) | ClosedEvent(strike: real)

  datatype World = World(s: UState, open: map<real, nat>)

  function Count(open: map<real, nat>, strike: real): nat { if strike in open then open[strike] else 0 }

  function Step(w: World, nse: bool, step: real, depth: int, e: Event): World
    requires step > 0.0
  {
    match e
    case Enable => w.(s := w.s.(chain := true))
    case PinEvent(k) => w.(s := Pin(w.s, k))
    case UnpinEvent(k) => w.(s := Unpin(w.s, k))
    case TickEvent(t) => w.(s := OnTick(w.s, nse, step, depth, t))
    case ReAnchorEvent => w.(s := ReAnchor(w.s))
    case OpenedEvent(k) => w.(open := w.open[k := Count(w.open, k) + 1])
    case ClosedEvent(k) =>
      var left := if Count(w.open, k) > 0 then Count(w.open, k) - 1 else 0;
      World(CleanUp(w.s, left, k), w.open[k := left])
  }

  function Run(w: World, nse: bool, step: real, depth: int, es: seq<Event>): World
    requires step > 0.0
  {
    if es == [] then w else Step(Run(w, nse, step, depth, es[..|es| - 1]), nse, step, depth, es[|es| - 1])
  }

  /** Whatever happens, a pinned strike is an active one. */
  lemma {:induction false} PinnedStaysActive(w: World, nse: bool, step: real, depth: int, es: seq<Event>)
    requires step > 0.0 && w.s.pinned <= w.s.active
    ensures var s := Run(w, nse, step, depth, es).s; s.pinned <= s.active
  {
    hide Step;
    if es != [] {
      var front := es[..|es| - 1];
      PinnedStaysActive(w, nse, step, depth, front);
      StepKeepsPins(Run(w, nse, step, depth, front), nse, step, depth, es[|es| - 1]);
    }
  }

  lemma StepKeepsPins(w: World, nse: bool, step: real, depth: int, e: Event)
    requires step > 0.0 && w.s.pinned <= w.s.active
    ensures var s := Step(w, nse, step, depth, e).s; s.pinned <= s.active
  {
    hide RoundToStrike, Window, Drift;
  }

  /** What it comes to that `HandleTick` never enters the end-of-day unsubscription: after the close a tick anchors
      nothing, and all strikes, pinned or not, stay active unless the money has moved far enough for an ordinary
      rebalance. */
  lemma CloseDropsNothing(s: UState, step: real, depth: int, t: Tick)
    requires step > 0.0 && t.secondOfDay >= NSE_CLOSE
    ensures var s' := OnTick(s, true, step, depth, t);
            var moved := s.openAtm.Some? && s.currentAtm.Some?
                         && Drift(RoundToStrike(t.ltp, step), s.currentAtm.value, step) >= REBALANCE_THRESHOLD;
            s'.eod && s'.openAtm == s.openAtm && s'.pinned == s.pinned
            && s'.active == if moved then Window(RoundToStrike(t.ltp, step), step, depth) + s.pinned else s.active
  {
    hide RoundToStrike, Window, Drift;
  }

  // ---------------------------------------------------------------- strikes and their grid

  function Paise(n: int): real { n as real * PAISA }

  ghost predicate WholePaise(step: real) { exists paise: int :: step == Paise(paise) }

  ghost predicate OnGrid(x: real, step: real) { exists n: int :: x == Steps(n, step) }

  ghost predicate AllOnGrid(step: real)
    requires step > 0.0
  {
    forall price: real :: OnGrid(RoundToStrike(price, step), step)
  }

  /** Rounded strikes are all whole multiples of the step if and only if the step is a whole number of paise, or a
      paisa is a whole number of steps. */
  lemma OnGridIff(step: real)
    requires step > 0.0
    ensures AllOnGrid(step) <==> WholePaise(step) || OnGrid(PAISA, step)
  {
    if WholePaise(step) || OnGrid(PAISA, step) {
      forall price: real
        ensures OnGrid(RoundToStrike(price, step), step)
      {
        StrikeOnGrid(price, step);
      }
    } else if step > PAISA / 2.0 {
      var r := OneStepMoves(step);
      NotTwoSteps(r, step);
    } else {
      var n := (PAISA / step).Floor;
      OnePaisa(n, step);
      StrikeAt(n, step);
      assert RoundToStrike(Steps(n, step), step) == PAISA;
    }
  }

  lemma StrikeOnGrid(price: real, step: real)
    requires step > 0.0 && (WholePaise(step) || OnGrid(PAISA, step))
    ensures OnGrid(RoundToStrike(price, step), step)
  {
    var n := RoundHalfEven(price / step);
    if WholePaise(step) {
      WholeStrike(n, step);
    } else {
      var k: int :| PAISA == Steps(k, step);
      var m := RoundToMultiple(Steps(n, step), PAISA);
      Compose(m, k, step);
    }
  }

  /** On a step of whole paise the rounding to paise does nothing. */
  lemma WholeStrike(n: int, step: real)
    requires step > 0.0 && WholePaise(step)
    ensures RoundTo(Steps(n, step), PAISA) == Steps(n, step)
  {
    var paise: int :| step == Paise(paise);
    Compose(n, paise, PAISA);
    RoundToExact(Steps(n, step), PAISA, n * paise);
  }

  lemma Compose(m: int, k: int, unit: real)
    ensures m as real * Steps(k, unit) == Steps(m * k, unit)
  {
    assert (m * k) as real == m as real * k as real;
  }

  /** The strike of a price that is n whole steps. */
  lemma StrikeAt(n: int, step: real)
    requires step > 0.0
    ensures RoundToStrike(Steps(n, step), step) == RoundTo(Steps(n, step), PAISA)
  {
    assert Steps(n, step) / step == n as real;
    assert RoundHalfEven(n as real) == n;
  }

  /** A step above half a paisa that is not a whole number of paise rounds to something else, less than two steps. */
  lemma OneStepMoves(step: real) returns (r: real)
    requires step > PAISA / 2.0 && !WholePaise(step)
    ensures r == RoundToStrike(Steps(1, step), step) && 0.0 < r < 2.0 * step && r != step
  {
    StrikeAt(1, step);
    assert Steps(1, step) == step;
    r := RoundTo(step, PAISA);
    var n := RoundToMultiple(step, PAISA);
    assert r == Paise(n);
    assert n <= 0 ==> Paise(n) <= 0.0;
  }

  lemma NotTwoSteps(r: real, step: real)
    requires step > 0.0 && 0.0 < r < 2.0 * step && r != step
    ensures !OnGrid(r, step)
  {
    forall n: int
      ensures r != Steps(n, step)
    {
      StepsOrder(n, 0, step);
      StepsOrder(n, 2, step);
      assert Steps(1, step) == step;
    }
  }

  lemma NotThreeSteps(r: real, step: real)
    requires step > 0.0 && 2.0 * step < r < 3.0 * step
    ensures !OnGrid(r, step)
  {
    forall n: int
      ensures r != Steps(n, step)
    {
      StepsOrder(n, 2, step);
      StepsOrder(n, 3, step);
    }
  }

  lemma StepsOrder(n: int, a: int, step: real)
    requires step > 0.0
    ensures n <= a ==> Steps(n, step) <= a as real * step
    ensures n >= a ==> Steps(n, step) >= a as real * step
  {
    if n <= a {
      ScaleOrder(n as real, a as real, step);
    } else {
      ScaleOrder(a as real, n as real, step);
    }
  }

  /** The largest number of fine steps in a paisa is still rounded up to it. */
  lemma OnePaisa(n: int, step: real)
    requires 0.0 < step <= PAISA / 2.0 && n == (PAISA / step).Floor
    ensures RoundTo(Steps(n, step), PAISA) == PAISA
  {
    var q := PAISA / step;
    assert q * step == PAISA;
    ScaleOrder(n as real, q, step);
    assert (n as real + 1.0 - q) * step > 0.0;
    assert Steps(n, step) > PAISA / 2.0 && Steps(n, step) <= PAISA;
    RoundToOne(Steps(n, step), PAISA);
  }

  // ---------------------------------------------------------------- the money stays active

  /** The window around the anchor is active, and the anchor is a strike. */
  ghost predicate Covered(s: UState, step: real, depth: int)
    requires step > 0.0
  {
    s.chain && (s.openAtm.Some? <==> s.currentAtm.Some?)
    && (s.currentAtm.Some? ==>
          IsStrike(s.currentAtm.value, step) && Window(s.currentAtm.value, step, depth) <= s.active)
  }

  ghost predicate IsStrike(x: real, step: real)
    requires step > 0.0
  {
    exists price: real :: x == RoundToStrike(price, step)
  }

  /** A step and a depth with which a strike fewer than three steps from another is in the other's window. */
  ghost predicate Fits(step: real, depth: int) {
    (depth >= 2 && (WholePaise(step) || step == PAISA / 2.0)) || (depth >= 0 && 3.0 * step <= PAISA)
  }

  lemma StepsBetween(m: int, n: int, step: real)
    requires step > 0.0
    ensures Steps(m, step) == Steps(n, step) + Steps(m - n, step)
    ensures (Steps(m, step) - Steps(n, step)) / step == (m - n) as real
    ensures Steps(m, step) >= Steps(n, step) <==> m >= n
  {
    var k := (m - n) as real;
    assert Steps(m, step) - Steps(n, step) == k * step;
    assert k * step / step == k;
    assert m >= n ==> k * step >= 0.0;
    assert m < n ==> -k * step > 0.0;
  }

  lemma NearOnGrid(atm: real, from: real, step: real, depth: int)
    requires step > 0.0 && depth >= 2 && OnGrid(atm, step) && OnGrid(from, step)
    requires Drift(atm, from, step) < REBALANCE_THRESHOLD
    ensures atm in Window(from, step, depth)
  {
    var m: int :| atm == Steps(m, step);
    var n: int :| from == Steps(n, step);
    StepsBetween(m, n, step);
    StepsBetween(n, m, step);
    hide Steps;
    assert -depth <= m - n <= depth;
    assert atm == from + Steps(m - n, step);
  }

  lemma DriftWithin(atm: real, from: real, step: real)
    requires step > 0.0
    ensures Drift(atm, from, step) < REBALANCE_THRESHOLD <==> -3.0 * step < atm - from < 3.0 * step
  {
    var d := if atm >= from then atm - from else from - atm;
    var q := d / step;
    assert q * step == d;
    assert (3.0 - q) * step == 3.0 * step - d;
    assert q < 3.0 ==> (3.0 - q) * step > 0.0;
    assert q >= 3.0 ==> (q - 3.0) * step >= 0.0;
  }

  lemma InPaise(strike: real, step: real) returns (n: int)
    requires step > 0.0 && IsStrike(strike, step)
    ensures strike == Paise(n)
  {
    var price: real :| strike == RoundToStrike(price, step);
    n := RoundToMultiple(Steps(RoundHalfEven(price / step), step), PAISA);
  }

  lemma StrikesApart(atm: real, from: real, step: real)
    requires step > 0.0 && IsStrike(atm, step) && IsStrike(from, step)
    ensures atm == from || atm - from >= PAISA || from - atm >= PAISA
  {
    var m := InPaise(atm, step);
    var n := InPaise(from, step);
    hide *;
    PaiseApart(m, n);
    PaiseApart(n, m);
  }

  lemma PaiseApart(m: int, n: int)
    ensures m > n ==> Paise(m) - Paise(n) >= PAISA
  {
    if m > n {
      assert m as real >= n as real + 1.0;
    }
  }

  lemma NearEnough(atm: real, from: real, step: real, depth: int)
    requires step > 0.0 && Fits(step, depth) && IsStrike(atm, step) && IsStrike(from, step)
    requires Drift(atm, from, step) < REBALANCE_THRESHOLD
    ensures atm in Window(from, step, depth)
  {
    if 3.0 * step <= PAISA {
      DriftWithin(atm, from, step);
      StrikesApart(atm, from, step);
      SelfInWindow(atm, step, depth);
    } else {
      assert step == PAISA / 2.0 ==> PAISA == Steps(2, step);
      var p: real :| atm == RoundToStrike(p, step);
      var q: real :| from == RoundToStrike(q, step);
      StrikeOnGrid(p, step);
      StrikeOnGrid(q, step);
      NearOnGrid(atm, from, step, depth);
    }
  }

  lemma SelfInWindow(atm: real, step: real, depth: int)
    requires depth >= 0
    ensures atm in Window(atm, step, depth)
  {
    assert Steps(0, step) == 0.0;
    assert atm == atm + Steps(0, step);
    assert -depth <= 0 <= depth;
  }

  lemma TickCovers(s: UState, nse: bool, step: real, depth: int, t: Tick)
    requires step > 0.0 && Fits(step, depth) && Covered(s, step, depth)
    ensures var s' := OnTick(s, nse, step, depth, t);
            Covered(s', step, depth) && (s'.currentAtm.Some? ==> RoundToStrike(t.ltp, step) in s'.active)
  {
    var atm := RoundToStrike(t.ltp, step);
    assert IsStrike(atm, step);
    SelfInWindow(atm, step, depth);
    if s.currentAtm.Some? && Drift(atm, s.currentAtm.value, step) < REBALANCE_THRESHOLD {
      NearEnough(atm, s.currentAtm.value, step, depth);
    }
    hide RoundToStrike, Window, Drift, IsStrike, Fits;
  }

  /** With the chain enabled before the first anchor, no clean-up, and a step and depth that fit: after every tick,
      while anchored, the strike at the money is active. */
  lemma {:induction false} MoneyStaysActive(w: World, nse: bool, step: real, depth: int, es: seq<Event>)
    requires step > 0.0 && Fits(step, depth) && Covered(w.s, step, depth)
    requires forall i :: 0 <= i < |es| ==> !es[i].ClosedEvent?
    ensures var s := Run(w, nse, step, depth, es).s;
            Covered(s, step, depth)
            && (es != [] && es[|es| - 1].TickEvent? && s.currentAtm.Some? ==>
                  RoundToStrike(es[|es| - 1].tick.ltp, step) in s.active)
  {
    if es != [] {
      var front, e := es[..|es| - 1], es[|es| - 1];
      MoneyStaysActive(w, nse, step, depth, front);
      if e.TickEvent? {
        TickCovers(Run(w, nse, step, depth, front).s, nse, step, depth, e.tick);
      }
      hide RoundToStrike, Window, Drift, IsStrike, OnTick, Fits;
    }
  }

  /** A fresh underlying whose chain is enabled. */
  const START := World(FRESH.(chain := true), map[])

  /** Over every run without clean-up, after each tick while anchored the strike at the money is active. */
  ghost predicate MoneyKept(nse: bool, step: real, depth: int)
    requires step > 0.0
  {
    forall es: seq<Event> ::
      es != [] && es[|es| - 1].TickEvent? && (forall i :: 0 <= i < |es| ==> !es[i].ClosedEvent?) ==>
      var s := Run(START, nse, step, depth, es).s;
      s.currentAtm.Some? ==> RoundToStrike(es[|es| - 1].tick.ltp, step) in s.active
  }

  /** Exactly when that holds: two strikes either way on a step of whole paise or half a paisa, or a step so fine that
      any move of the strike rebalances. */
  lemma MoneyKeptIff(nse: bool, step: real, depth: int)
    requires step > 0.0
    ensures MoneyKept(nse, step, depth) <==> Fits(step, depth)
  {
    hide RoundToStrike, Window, Drift, Run, Fits;
    if Fits(step, depth) {
      forall es: seq<Event> | es != [] && es[|es| - 1].TickEvent? && forall i :: 0 <= i < |es| ==> !es[i].ClosedEvent?
        ensures Run(START, nse, step, depth, es).s.currentAtm.Some? ==>
                  RoundToStrike(es[|es| - 1].tick.ltp, step) in Run(START, nse, step, depth, es).s.active
      {
        MoneyStaysActive(START, nse, step, depth, es);
      }
    } else {
      var es := MoneyLost(nse, step, depth);
    }
  }

  /** Without a fit one or two ticks lose the money: anchored at zero, the next strike is less than three steps off
      but not in the window. */
  lemma MoneyLost(nse: bool, step: real, depth: int) returns (es: seq<Event>)
    requires step > 0.0 && !Fits(step, depth)
    ensures es != [] && es[|es| - 1].TickEvent? && forall i :: 0 <= i < |es| ==> !es[i].ClosedEvent?
    ensures var s := Run(START, nse, step, depth, es).s;
            s.currentAtm.Some? && RoundToStrike(es[|es| - 1].tick.ltp, step) !in s.active
  {
    var open := Tick(MARKET_OPEN, 0.0);
    ZeroStrike(step);
    Anchors(nse, step, depth, open);
    if depth < 0 {
      es := [TickEvent(open)];
    } else {
      var n := StrikeOutside(step, depth);
      es := [TickEvent(open), TickEvent(Tick(MARKET_OPEN, Steps(n, step)))];
      var atm := RoundToStrike(Steps(n, step), step);
      DriftWithin(atm, 0.0, step);
      hide RoundToStrike, Window, Drift, Fits;
      assert es[..1] == [TickEvent(open)];
    }
  }

  lemma ZeroStrike(step: real)
    requires step > 0.0
    ensures RoundToStrike(0.0, step) == 0.0
  {
    StrikeAt(0, step);
    assert Steps(0, step) == 0.0;
    RoundToExact(0.0, PAISA, 0);
  }

  lemma Anchors(nse: bool, step: real, depth: int, open: Tick)
    requires step > 0.0 && open == Tick(MARKET_OPEN, 0.0) && RoundToStrike(0.0, step) == 0.0
    ensures var s := Run(START, nse, step, depth, [TickEvent(open)]).s;
            s.openAtm == Some(0.0) && s.currentAtm == Some(0.0) && s.active == Window(0.0, step, depth) && !s.eod
            && s.chain
    ensures depth < 0 ==> Window(0.0, step, depth) == {}
  {
    hide RoundToStrike;
    assert [TickEvent(open)][..0] == [];
    assert Run(START, nse, step, depth, []) == START;
  }

  /** Where a step does not fit, the strike of one or of two steps is missing from the window around zero. */
  lemma StrikeOutside(step: real, depth: int) returns (n: int)
    requires step > 0.0 && !Fits(step, depth) && depth >= 0
    ensures var r := RoundToStrike(Steps(n, step), step);
            0.0 < r < 3.0 * step && r !in Window(0.0, step, depth)
  {
    if WholePaise(step) || step == PAISA / 2.0 {
      n := 2;
      StrikeAt(2, step);
      if WholePaise(step) {
        WholeStrike(2, step);
      } else {
        RoundToExact(PAISA, PAISA, 1);
      }
      assert Steps(2, step) == 2.0 * step;
      BeyondWindow(step, depth);
    } else if step > PAISA / 2.0 {
      n := 1;
      var r := OneStepMoves(step);
      NotTwoSteps(r, step);
      OffGridOutside(r, step, depth);
    } else {
      n := 2;
      StrikeAt(2, step);
      assert Steps(2, step) == 2.0 * step;
      RoundToOne(2.0 * step, PAISA);
      NotThreeSteps(PAISA, step);
      OffGridOutside(PAISA, step, depth);
    }
  }

  lemma OffGridOutside(r: real, step: real, depth: int)
    requires !OnGrid(r, step)
    ensures r !in Window(0.0, step, depth)
  {
    forall i: int
      ensures r != 0.0 + Steps(i, step)
    {
      assert r != Steps(i, step);
    }
  }

  lemma BeyondWindow(step: real, depth: int)
    requires step > 0.0 && depth < 2
    ensures Steps(2, step) !in Window(0.0, step, depth)
  {
    forall i | -depth <= i <= depth
      ensures Steps(2, step) != 0.0 + Steps(i, step)
    {
      StepsBetween(2, i, step);
      StepsBetween(i, 2, step);
    }
  }

  // ---------------------------------------------------------------- runs with clean-ups

  /** A tick that subscribes a window anew: it anchors, or it finds the money moved far enough. */
  predicate Resubscribes(s: UState, nse: bool, step: real, t: Tick)
    requires step > 0.0
  {
    if s.openAtm.None? && t.secondOfDay >= MARKET_OPEN then !s.eod && !(nse && t.secondOfDay >= NSE_CLOSE)
    else s.currentAtm.Some? && Drift(RoundToStrike(t.ltp, step), s.currentAtm.value, step) >= REBALANCE_THRESHOLD
  }

  /** The last position on a pinned strike closes. */
  predicate Drops(w: World, e: Event, strike: real) {
    e == ClosedEvent(strike) && Count(w.open, strike) <= 1 && strike in w.s.pinned
  }

  predicate Restores(w: World, nse: bool, step: real, e: Event, strike: real)
    requires step > 0.0
  {
    e == PinEvent(strike) || (e.TickEvent? && Resubscribes(w.s, nse, step, e.tick))
  }

  /** A clean-up dropped the strike, and since then it was neither pinned nor subscribed anew. */
  ghost predicate DroppedSince(nse: bool, step: real, depth: int, es: seq<Event>, strike: real)
    requires step > 0.0
  {
    exists i :: 0 <= i < |es| && DropStands(nse, step, depth, es, strike, i)
  }

  ghost predicate DropStands(nse: bool, step: real, depth: int, es: seq<Event>, strike: real, i: nat)
    requires step > 0.0 && i < |es|
  {
    Drops(Run(START, nse, step, depth, es[..i]), es[i], strike)
    && forall j :: i < j < |es| ==> !Restores(Run(START, nse, step, depth, es[..j]), nse, step, es[j], strike)
  }

  lemma DroppedStep(nse: bool, step: real, depth: int, es: seq<Event>, strike: real)
    requires step > 0.0 && es != []
    ensures var front, e := es[..|es| - 1], es[|es| - 1];
            var w := Run(START, nse, step, depth, front);
            DroppedSince(nse, step, depth, es, strike) <==>
            Drops(w, e, strike)
            || (DroppedSince(nse, step, depth, front, strike) && !Restores(w, nse, step, e, strike))
  {
    hide Drops, Restores, Run;
    var m := |es| - 1;
    var front := es[..m];
    assert forall j :: 0 <= j <= m ==> front[..j] == es[..j];
    if i :| 0 <= i < |es| && DropStands(nse, step, depth, es, strike, i) {
      if i < m {
        assert DropStands(nse, step, depth, front, strike, i);
      }
    }
    if i :| 0 <= i < |front| && DropStands(nse, step, depth, front, strike, i) {
      if !Restores(Run(START, nse, step, depth, front), nse, step, es[m], strike) {
        assert DropStands(nse, step, depth, es, strike, i);
      }
    }
    if Drops(Run(START, nse, step, depth, front), es[m], strike) {
      assert DropStands(nse, step, depth, es, strike, m);
    }
  }

  /** What holds of an underlying with its chain enabled, whatever is pinned, closed or cleaned up. */
  ghost predicate Tracked(s: UState, step: real)
    requires step > 0.0
  {
    s.chain && s.pinned <= s.active && (s.openAtm.Some? <==> s.currentAtm.Some?)
    && (s.currentAtm.Some? ==> IsStrike(s.currentAtm.value, step))
  }

  /** A strike of the window around the anchor is missing. */
  predicate Missing(s: UState, step: real, depth: int, strike: real) {
    s.currentAtm.Some? && strike in Window(s.currentAtm.value, step, depth) && strike !in s.active
  }

  lemma MissingStep(w: World, nse: bool, step: real, depth: int, e: Event, strike: real)
    requires step > 0.0 && Tracked(w.s, step)
    ensures var s, s' := w.s, Step(w, nse, step, depth, e).s;
            Tracked(s', step)
            && (s'.currentAtm.Some? && strike in Window(s'.currentAtm.value, step, depth) ==>
                  (strike !in s'.active <==>
                   Drops(w, e, strike) || (!Restores(w, nse, step, e, strike) && Missing(s, step, depth, strike))))
            && (s'.currentAtm.Some? && !(e.TickEvent? && Resubscribes(w.s, nse, step, e.tick)) ==>
                  s.currentAtm == s'.currentAtm)
  {
    hide RoundToStrike, Window, Drift, IsStrike;
    if e.TickEvent? {
      assert IsStrike(RoundToStrike(e.tick.ltp, step), step) by { AnyStrike(e.tick.ltp, step); }
    }
  }

  lemma AnyStrike(price: real, step: real)
    requires step > 0.0
    ensures IsStrike(RoundToStrike(price, step), step)
  {
  }

  /** Over every run, clean-ups and all: a strike of the current window is missing if and only if a clean-up dropped
      it, pinned as it was, and nothing has pinned it or subscribed the window anew since. */
  lemma {:induction false} MissingIff(nse: bool, step: real, depth: int, es: seq<Event>, strike: real)
    requires step > 0.0
    ensures var s := Run(START, nse, step, depth, es).s;
            Tracked(s, step)
            && (s.currentAtm.Some? && strike in Window(s.currentAtm.value, step, depth) ==>
                  (strike !in s.active <==> DroppedSince(nse, step, depth, es, strike)))
  {
    hide Window, IsStrike, Step, Drops, Restores, Resubscribes;
    if es != [] {
      var front, e := es[..|es| - 1], es[|es| - 1];
      MissingIff(nse, step, depth, front, strike);
      DroppedStep(nse, step, depth, es, strike);
      MissingStep(Run(START, nse, step, depth, front), nse, step, depth, e, strike);
      if e.TickEvent? && Resubscribes(Run(START, nse, step, depth, front).s, nse, step, e.tick) {
        RestoresWindow(Run(START, nse, step, depth, front), nse, step, e, strike);
      }
      hide DroppedSince;
    }
  }

  lemma RestoresWindow(w: World, nse: bool, step: real, e: Event, strike: real)
    requires step > 0.0 && e.TickEvent? && Resubscribes(w.s, nse, step, e.tick)
    ensures Restores(w, nse, step, e, strike) && !Drops(w, e, strike)
  {
  }

  /** With a step and depth that fit, that is exactly when a tick finds the strike at the money missing. */
  lemma MoneyMissingIff(nse: bool, step: real, depth: int, es: seq<Event>)
    requires step > 0.0 && Fits(step, depth) && es != [] && es[|es| - 1].TickEvent?
    ensures var s, atm := Run(START, nse, step, depth, es).s, RoundToStrike(es[|es| - 1].tick.ltp, step);
            s.currentAtm.Some? ==> (atm !in s.active <==> DroppedSince(nse, step, depth, es, atm))
  {
    var front, t := es[..|es| - 1], es[|es| - 1].tick;
    var atm := RoundToStrike(t.ltp, step);
    MissingIff(nse, step, depth, es, atm);
    MissingIff(nse, step, depth, front, atm);
    AnyStrike(t.ltp, step);
    NearAnchor(Run(START, nse, step, depth, front).s, nse, step, depth, t);
    hide DroppedSince, Window, IsStrike, Fits, OnTick;
  }

  /** After a tick the money is in the window around the anchor. */
  lemma NearAnchor(s: UState, nse: bool, step: real, depth: int, t: Tick)
    requires step > 0.0 && Fits(step, depth) && Tracked(s, step)
    ensures var s' := OnTick(s, nse, step, depth, t);
            s'.currentAtm.Some? ==> RoundToStrike(t.ltp, step) in Window(s'.currentAtm.value, step, depth)
  {
    var atm := RoundToStrike(t.ltp, step);
    AnyStrike(t.ltp, step);
    SelfInWindow(atm, step, depth);
    if s.currentAtm.Some? && Drift(atm, s.currentAtm.value, step) < REBALANCE_THRESHOLD {
      NearEnough(atm, s.currentAtm.value, step, depth);
    }
    hide RoundToStrike, Window, Drift, IsStrike, Fits;
  }

  /** The clean-up's own promise, that a strike inside the window stays subscribed, does not hold for a pinned one:
      an active strike survives exactly when a position is still open on it or nobody pinned it. */
  lemma CleanUpKeeps(s: UState, open: nat, strike: real)
    requires strike in s.active
    ensures strike in CleanUp(s, open, strike).active <==> open > 0 || strike !in s.pinned
  {
  }

  /** From any state without a position on a strike, opening one, having its fill pin the strike and closing it again
      drops the strike, even when it is the money's own and inside the window. */
  lemma RoundTripDrops(w: World, nse: bool, step: real, depth: int, strike: real)
    requires step > 0.0 && Count(w.open, strike) == 0
    ensures var w' := Run(w, nse, step, depth, [OpenedEvent(strike), PinEvent(strike), ClosedEvent(strike)]);
            w'.s == w.s.(active := w.s.active - {strike}, pinned := w.s.pinned - {strike})
            && Count(w'.open, strike) == 0
  {
    var e1, e2, e3 := OpenedEvent(strike), PinEvent(strike), ClosedEvent(strike);
    assert [e1, e2, e3][..2] == [e1, e2] && [e1, e2][..1] == [e1] && [e1][..0] == [];
    var w1 := Step(w, nse, step, depth, e1);
    var w2 := Step(w1, nse, step, depth, e2);
    assert Run(w, nse, step, depth, [e1]) == w1;
    assert Run(w, nse, step, depth, [e1, e2]) == w2;
    assert w2.s.pinned - {strike} == w.s.pinned - {strike} && w2.s.active - {strike} == w.s.active - {strike};
  }

  /** The positions open on a strike: openings less closings, never below zero. */
  function Balance(es: seq<Event>, strike: real): nat {
    if es == [] then 0
    else
      var before := Balance(es[..|es| - 1], strike);
      match es[|es| - 1]
      case OpenedEvent(k) => if k == strike then before + 1 else before
      case ClosedEvent(k) => if k == strike && before > 0 then before - 1 else before
      case _ => before
  }

  lemma {:induction false} CountIsBalance(nse: bool, step: real, depth: int, es: seq<Event>, strike: real)
    requires step > 0.0
    ensures Count(Run(START, nse, step, depth, es).open, strike) == Balance(es, strike)
  {
    hide OnTick, CleanUp;
    if es != [] {
      CountIsBalance(nse, step, depth, es[..|es| - 1], strike);
    }
  }

  // ---------------------------------------------------------------- strikes, windows and ticks in plain numbers

  /** The window: every strike up to `depth` steps either way, and nothing else. */
  lemma WindowMeans(atm: real, step: real, depth: int, i: int)
    requires step > 0.0
    ensures atm + i as real * step in Window(atm, step, depth) <==> -depth <= i <= depth
  {
    var x := atm + i as real * step;
    assert x == atm + Steps(i, step);
    if x in Window(atm, step, depth) {
      var k :| -depth <= k <= depth && x == atm + Steps(k, step);
      StepsBetween(i, k, step);
      StepsBetween(k, i, step);
    }
  }

  lemma OnlySteps(atm: real, step: real, depth: int, x: real) returns (i: int)
    requires x in Window(atm, step, depth)
    ensures -depth <= i <= depth && x == atm + i as real * step
  {
    i :| -depth <= i <= depth && x == atm + Steps(i, step);
  }

  /** The strike of a price: the multiple of the step nearest to it, rounded to paise. */
  lemma NearestStrike(price: real, step: real) returns (n: int)
    requires step > 0.0
    ensures price - step / 2.0 <= n as real * step <= price + step / 2.0
    ensures n as real * step - 0.005 <= RoundToStrike(price, step) <= n as real * step + 0.005
    ensures WholePaise(step) ==> RoundToStrike(price, step) == n as real * step
  {
    n := RoundHalfEven(price / step);
    HalfUnit(price, step, n as real);
    if WholePaise(step) {
      WholeStrike(n, step);
    }
    hide RoundTo, RoundHalfEven, WholePaise;
  }

  /** What a tick does, in plain numbers: from 9:15 an unanchored underlying is anchored, unless an NSE index has closed
      (15:30); an anchored one moves its anchor when the strike at the money is three steps off or more. */
  lemma TickMeans(s: UState, nse: bool, step: real, depth: int, t: Tick)
    requires step > 0.0
    ensures var s', atm := OnTick(s, nse, step, depth, t), RoundToStrike(t.ltp, step);
            var anchors := s.openAtm.None? && t.secondOfDay >= 33300 && !s.eod && !(nse && t.secondOfDay >= 55800);
            var free := s.openAtm.Some? || t.secondOfDay < 33300;
            var moves := free && s.currentAtm.Some?
                         && (atm - s.currentAtm.value >= 3.0 * step || s.currentAtm.value - atm >= 3.0 * step);
            s'.openAtm == (if anchors then Some(atm) else s.openAtm)
            && s'.currentAtm == (if anchors || moves then Some(atm) else s.currentAtm)
            && s'.rebalances == s.rebalances + (if moves then 1 else 0)
            && s'.active == (if moves || (anchors && s.chain) then Window(atm, step, depth) + s.pinned
                             else if anchors then s.pinned else s.active)
            && s'.pinned == s.pinned && s'.chain == s.chain && s'.eod == (s.eod || (nse && t.secondOfDay >= 55800))
  {
    if s.currentAtm.Some? {
      DriftWithin(RoundToStrike(t.ltp, step), s.currentAtm.value, step);
    }
    hide RoundToStrike, Window, Drift;
  }
}
