/**
 * The bar-by-bar trade simulator: stop, half exit at T1, and a trailing stop ratcheted by one small state
 * machine per trap. The trap scanner is an arbitrary function of the bars it is shown.
 *
 * Times are seconds on one axis; the time of day is the time modulo a day.
 */
module TradeSimulator {
  import opened Wrappers

  datatype Bar = Bar(ts: int, high: real, low: real, close: real)

  datatype TrapReport = TrapReport(trapped: bool, ts: Option<int>, trigger: real, high: real)

  type Scanner = seq<Bar> -> seq<TrapReport>

  datatype Phase = WATCHING | SQUEEZED | PULLED_BACK | CONFIRMED

  datatype Trap = Trap(phase: Phase, trigger: real, high: real)

  datatype LtfEntry = LtfEntry(time: int, price: real, zoneLow: real)

  datatype Reason = SL | TRAIL_SL | EOD | OPEN

  datatype TradeResult = TradeResult(entry: real, exit: Option<real>, exitTime: Option<int>, reason: Reason,
                                     pnl: real, t1Done: bool)

  const QTY := 200
  const DAY := 86400

  function StopPrice(e: LtfEntry): (sl: real)
    ensures sl >= 0.98 * e.price && (e.zoneLow > 0.0 ==> sl >= e.zoneLow)
    ensures sl == 0.98 * e.price || (e.zoneLow > 0.0 && sl == e.zoneLow)
  {
    var buf := e.price * (1.0 - 2.0 / 100.0);
    if e.zoneLow > 0.0 && e.zoneLow > buf then e.zoneLow else buf
  }

  /** 23:25 or later. */
  predicate AtEod(ts: int) {
    var minutes := ts % DAY / 60;
    minutes / 60 > 23 || (minutes / 60 == 23 && minutes % 60 >= 25)
  }

  function After(day: seq<Bar>, t: int): seq<Bar> {
    if day == [] then []
    else if day[0].ts > t then [day[0]] + After(day[1..], t) else After(day[1..], t)
  }

  function UpTo(day: seq<Bar>, t: int): seq<Bar> {
    if day == [] then []
    else if day[0].ts <= t then [day[0]] + UpTo(day[1..], t) else UpTo(day[1..], t)
  }

  /** 23:25:00 is second 84300 of the day. */
  lemma EodIs(ts: int)
    ensures AtEod(ts) <==> ts % 86400 >= 84300
  {
  }

  /** Bars picked from a day at rising places. */
  predicate Picked(day: seq<Bar>, picked: seq<Bar>, at: seq<nat>) {
    |at| == |picked| && (forall i :: 0 <= i < |at| ==> at[i] < |day| && picked[i] == day[at[i]])
    && forall i, j :: 0 <= i < j < |at| ==> at[i] < at[j]
  }

  /** The bars after t are all the day's bars later than t, in the day's own order. */
  lemma {:induction false} AfterPlaces(day: seq<Bar>, t: int) returns (at: seq<nat>)
    ensures Picked(day, After(day, t), at)
    ensures forall k :: 0 <= k < |day| ==> (k in at <==> day[k].ts > t)
  {
    AfterHead(day, t);
    at := [];
    hide After, Picked;
    if day != [] {
      var rest := AfterPlaces(day[1..], t);
      at := PickMore(day, day[0].ts > t, After(day[1..], t), rest);
      assert forall k :: 0 < k < |day| ==> day[k] == day[1..][k - 1];
    } else {
      NoneToPick(day, After(day, t));
    }
  }

  lemma AfterHead(day: seq<Bar>, t: int)
    ensures day == [] ==> After(day, t) == []
    ensures day != [] ==> After(day, t) == (if day[0].ts > t then [day[0]] else []) + After(day[1..], t)
  {
  }

  /** The bars up to t are all the others, in the day's own order. */
  lemma {:induction false} UpToPlaces(day: seq<Bar>, t: int) returns (at: seq<nat>)
    ensures Picked(day, UpTo(day, t), at)
    ensures forall k :: 0 <= k < |day| ==> (k in at <==> day[k].ts <= t)
  {
    UpToHead(day, t);
    at := [];
    hide UpTo, Picked;
    if day != [] {
      var rest := UpToPlaces(day[1..], t);
      at := PickMore(day, day[0].ts <= t, UpTo(day[1..], t), rest);
      assert forall k :: 0 < k < |day| ==> day[k] == day[1..][k - 1];
    } else {
      NoneToPick(day, UpTo(day, t));
    }
  }

  lemma UpToHead(day: seq<Bar>, t: int)
    ensures day == [] ==> UpTo(day, t) == []
    ensures day != [] ==> UpTo(day, t) == (if day[0].ts <= t then [day[0]] else []) + UpTo(day[1..], t)
  {
  }

  lemma NoneToPick(day: seq<Bar>, picked: seq<Bar>)
    ensures picked == [] ==> Picked(day, picked, [])
  {
  }

  lemma PickMore(day: seq<Bar>, first: bool, rest: seq<Bar>, restAt: seq<nat>) returns (at: seq<nat>)
    requires day != [] && Picked(day[1..], rest, restAt)
    ensures Picked(day, (if first then [day[0]] else []) + rest, at)
    ensures forall k :: 0 <= k < |day| ==> (k in at <==> if k == 0 then first else k - 1 in restAt)
  {
    var moved := Moved(restAt);
    PickMoved(day, rest, restAt, moved);
    hide Picked;
    if first {
      at := [0] + moved;
      PickFirst(day, rest, moved);
    } else {
      at := moved;
      assert [] + rest == rest;
    }
  }

  /** Places one further to the right. */
  lemma Moved(at: seq<nat>) returns (moved: seq<nat>)
    ensures |moved| == |at| && forall i :: 0 <= i < |at| ==> moved[i] == at[i] + 1
    ensures forall k: nat :: k in moved <==> k > 0 && k - 1 in at
  {
    moved := seq(|at|, i requires 0 <= i < |at| => at[i] + 1);
    forall k: nat | k > 0 && k - 1 in at
      ensures k in moved
    {
      var i :| 0 <= i < |at| && at[i] == k - 1;
      assert moved[i] == k;
    }
  }

  lemma PickMoved(day: seq<Bar>, rest: seq<Bar>, restAt: seq<nat>, moved: seq<nat>)
    requires day != [] && Picked(day[1..], rest, restAt)
    requires |moved| == |restAt| && forall i :: 0 <= i < |restAt| ==> moved[i] == restAt[i] + 1
    ensures Picked(day, rest, moved) && (forall i :: 0 <= i < |moved| ==> moved[i] > 0)
  {
  }

  lemma PickFirst(day: seq<Bar>, rest: seq<Bar>, moved: seq<nat>)
    requires day != [] && Picked(day, rest, moved) && forall i :: 0 <= i < |moved| ==> moved[i] > 0
    ensures Picked(day, [day[0]] + rest, [0] + moved)
  {
  }

  // ---------------------------------------------------------------- the specification of the ratchet

  /** All that the ratchet depends on after T1: the bars, the bar that reached T1, the entry, what is scanned when. */
  datatype Ratchet = Ratchet(bars: seq<Bar>, t1: nat, entry: real, offers: seq<seq<TrapReport>>)

  ghost predicate Shaped(c: Ratchet) { c.t1 < |c.bars| == |c.offers| }

  /** What the scanner reports at a bar: nothing until three bars of the day are there. */
  function Offered(day: seq<Bar>, scan: Scanner, ts: int): seq<TrapReport> {
    var sofar := UpTo(day, ts);
    if |sofar| >= 3 then scan(sofar) else []
  }

  /** The scanner is shown the day's bars up to this one, in the day's order, once there are three. */
  lemma ScannerSees(day: seq<Bar>, scan: Scanner, ts: int) returns (shown: seq<Bar>, at: seq<nat>)
    ensures Picked(day, shown, at) && forall k :: 0 <= k < |day| ==> (k in at <==> day[k].ts <= ts)
    ensures Offered(day, scan, ts) == if |shown| >= 3 then scan(shown) else []
  {
    shown := UpTo(day, ts);
    at := UpToPlaces(day, ts);
  }

  /** A report that may be registered: a trap sprung after T1 whose trigger lies above the entry. */
  predicate Eligible(rep: TrapReport, t1Time: int, entry: real) {
    rep.trapped && rep.ts.Some? && rep.ts.value > t1Time && rep.trigger > entry
  }

  ghost predicate Offer(c: Ratchet, r: nat, n: nat, key: int)
    requires Shaped(c)
  {
    c.t1 <= r < |c.bars| && n < |c.offers[r]|
    && Eligible(c.offers[r][n], c.bars[c.t1].ts, c.entry) && c.offers[r][n].ts == Some(key)
  }

  /** The n-th report at bar r is the first eligible one with this timestamp: it is the one that counts. */
  ghost predicate Registered(c: Ratchet, r: nat, n: nat, key: int)
    requires Shaped(c)
  {
    Offer(c, r, n, key)
    && forall r': nat, n': nat :: (r' < r || (r' == r && n' < n)) ==> !Offer(c, r', n', key)
  }

  predicate Squeezed(bars: seq<Bar>, r: nat, k: int, high: real) {
    exists i :: r <= i <= k && i < |bars| && bars[i].high >= high
  }

  predicate PulledBack(bars: seq<Bar>, r: nat, k: int, high: real, trigger: real) {
    exists j :: r < j <= k && j < |bars| && bars[j].low <= trigger && Squeezed(bars, r, j - 1, high)
  }

  /** Bars i < j < k since registration with high, low and high again where they should be. */
  predicate Confirmed(bars: seq<Bar>, r: nat, k: int, high: real, trigger: real) {
    exists l :: r < l <= k && l < |bars| && bars[l].high >= high && PulledBack(bars, r, l - 1, high, trigger)
  }

  /** Spelled out: a squeeze, a later pull-back, a still later second touch of the high. */
  lemma {:induction false} ConfirmedMeans(bars: seq<Bar>, r: nat, k: int, high: real, trigger: real)
    ensures Confirmed(bars, r, k, high, trigger) <==>
            exists i, j, l :: r <= i < j < l <= k && l < |bars|
                              && bars[i].high >= high && bars[j].low <= trigger && bars[l].high >= high
  {
    if Confirmed(bars, r, k, high, trigger) {
      var l :| r < l <= k && l < |bars| && bars[l].high >= high && PulledBack(bars, r, l - 1, high, trigger);
      var j :| r < j <= l - 1 && j < |bars| && bars[j].low <= trigger && Squeezed(bars, r, j - 1, high);
      var i :| r <= i <= j - 1 && i < |bars| && bars[i].high >= high;
    } else if i, j, l :| r <= i < j < l <= k && l < |bars|
                         && bars[i].high >= high && bars[j].low <= trigger && bars[l].high >= high {
      assert Squeezed(bars, r, j - 1, high);
      assert PulledBack(bars, r, l - 1, high, trigger);
    }
  }

  ghost predicate Supports(c: Ratchet, k: nat, v: real, r: nat, n: nat, key: int)
    requires Shaped(c)
  {
    Registered(c, r, n, key) && r <= k
    && Confirmed(c.bars, r, k, c.offers[r][n].high, c.offers[r][n].trigger)
    && c.offers[r][n].trigger == v
  }

  /** v is the maximum of the entry price and the triggers of the registered traps confirmed by bar k. */
  ghost predicate IsLevel(c: Ratchet, k: nat, v: real)
    requires Shaped(c)
  {
    v >= c.entry
    && (v == c.entry || exists r: nat, n: nat, key :: Supports(c, k, v, r, n, key))
    && forall w, r: nat, n: nat, key :: Supports(c, k, w, r, n, key) ==> w <= v
  }

  /** An eligible report of the same timestamp, at an earlier bar or earlier at the same bar. */
  ghost predicate Precedes(c: Ratchet, r': nat, n': nat, r: nat, n: nat)
    requires Shaped(c) && r < |c.bars| && n < |c.offers[r]|
  {
    c.t1 <= r' <= r && n' < |c.offers[r']| && (r' < r || n' < n)
    && var other := c.offers[r'][n'];
       other.trapped && other.ts == c.offers[r][n].ts && other.trigger > c.entry
  }

  /** The report that counts, spelled out: sprung after T1, its trigger above the entry, and nothing precedes it. */
  ghost predicate Counts(c: Ratchet, r: nat, n: nat)
    requires Shaped(c)
  {
    c.t1 <= r < |c.bars| && n < |c.offers[r]|
    && var rep := c.offers[r][n];
       rep.trapped && rep.ts.Some? && rep.ts.value > c.bars[c.t1].ts && rep.trigger > c.entry
       && forall r': nat, n': nat :: !Precedes(c, r', n', r, n)
  }

  /** High, low and high again at bars i < j < l, from the report's bar on. */
  ghost predicate HighLowHigh(c: Ratchet, k: nat, r: nat, n: nat, i: nat, j: nat, l: nat)
    requires Shaped(c) && r < |c.bars| && n < |c.offers[r]|
  {
    var rep := c.offers[r][n];
    r <= i < j < l <= k && l < |c.bars|
    && c.bars[i].high >= rep.high && c.bars[j].low <= rep.trigger && c.bars[l].high >= rep.high
  }

  /** What supports the stop, spelled out: a report that counts, with high, low and high again since. */
  lemma SupportsMeans(c: Ratchet, k: nat, v: real, r: nat, n: nat)
    requires Shaped(c)
    ensures (exists key :: Supports(c, k, v, r, n, key)) <==>
            Counts(c, r, n) && c.offers[r][n].trigger == v
            && exists i: nat, j: nat, l: nat :: HighLowHigh(c, k, r, n, i, j, l)
  {
    if c.t1 <= r < |c.bars| && n < |c.offers[r]| {
      var rep := c.offers[r][n];
      ConfirmedMeans(c.bars, r, k, rep.high, rep.trigger);
      Triples(c, k, r, n);
      forall key
        ensures Registered(c, r, n, key) <==> Counts(c, r, n) && rep.ts == Some(key)
      {
        FirstOffer(c, r, n, key);
      }
      hide Confirmed, Registered, Counts, HighLowHigh;
      TimeGiven(c, r, n);
      assert Supports(c, k, v, r, n, if rep.ts.Some? then rep.ts.value else 0) || !Counts(c, r, n) || rep.trigger != v
             || !Confirmed(c.bars, r, k, rep.high, rep.trigger);
    }
  }

  lemma TimeGiven(c: Ratchet, r: nat, n: nat)
    requires Shaped(c) && r < |c.bars| && n < |c.offers[r]|
    ensures Counts(c, r, n) ==> c.offers[r][n].ts.Some?
  {
  }

  lemma Triples(c: Ratchet, k: nat, r: nat, n: nat)
    requires Shaped(c) && r < |c.bars| && n < |c.offers[r]|
    ensures var rep := c.offers[r][n];
            (exists i, j, l :: r <= i < j < l <= k && l < |c.bars| && c.bars[i].high >= rep.high
                               && c.bars[j].low <= rep.trigger && c.bars[l].high >= rep.high) <==>
            exists i: nat, j: nat, l: nat :: HighLowHigh(c, k, r, n, i, j, l)
  {
    var rep := c.offers[r][n];
    if i, j, l :| r <= i < j < l <= k && l < |c.bars| && c.bars[i].high >= rep.high
                  && c.bars[j].low <= rep.trigger && c.bars[l].high >= rep.high {
      assert HighLowHigh(c, k, r, n, i, j, l);
    }
  }

  lemma FirstOffer(c: Ratchet, r: nat, n: nat, key: int)
    requires Shaped(c) && c.t1 <= r < |c.bars| && n < |c.offers[r]|
    ensures Registered(c, r, n, key) <==> Counts(c, r, n) && c.offers[r][n].ts == Some(key)
  {
    if Counts(c, r, n) && c.offers[r][n].ts == Some(key) {
      forall r': nat, n': nat | r' < r || (r' == r && n' < n)
        ensures !Offer(c, r', n', key)
      {
        assert !Precedes(c, r', n', r, n);
      }
    }
    if Registered(c, r, n, key) {
      forall r': nat, n': nat
        ensures !Precedes(c, r', n', r, n)
      {
        assert r' < r || (r' == r && n' < n) ==> !Offer(c, r', n', key);
      }
    }
  }

  lemma LevelUnique(c: Ratchet, k: nat, v: real, w: real)
    requires Shaped(c) && IsLevel(c, k, v) && IsLevel(c, k, w)
    ensures v == w
  {
  }

  /** The stop only ever moves up. */
  lemma LevelRises(c: Ratchet, k: nat, k': nat, v: real, v': real)
    requires Shaped(c) && k <= k' && IsLevel(c, k, v) && IsLevel(c, k', v')
    ensures c.entry <= v <= v'
  {
    if v != c.entry {
      var r: nat, n: nat, key :| Supports(c, k, v, r, n, key);
      var o := c.offers[r][n];
      var l :| r < l <= k && l < |c.bars| && c.bars[l].high >= o.high
        && PulledBack(c.bars, r, l - 1, o.high, o.trigger);
      assert Confirmed(c.bars, r, k', o.high, o.trigger);
      assert Supports(c, k', v, r, n, key);
    }
  }

  // ---------------------------------------------------------------- the machines refine it

  function PhaseBy(bars: seq<Bar>, r: nat, k: int, high: real, trigger: real): Phase {
    if Confirmed(bars, r, k, high, trigger) then CONFIRMED
    else if PulledBack(bars, r, k, high, trigger) then PULLED_BACK
    else if Squeezed(bars, r, k, high) then SQUEEZED
    else WATCHING
  }

  function StepTrap(t: Trap, bar: Bar): Trap {
    match t.phase
    case CONFIRMED => t
    case WATCHING => if bar.high >= t.high then t.(phase := SQUEEZED) else t
    case SQUEEZED => if bar.low <= t.trigger then t.(phase := PULLED_BACK) else t
    case PULLED_BACK => if bar.high >= t.high then t.(phase := CONFIRMED) else t
  }

  lemma PhaseSteps(bars: seq<Bar>, r: nat, k: nat, t: Trap)
    requires r <= k < |bars|
    requires t.phase == PhaseBy(bars, r, k - 1, t.high, t.trigger)
    ensures StepTrap(t, bars[k]).phase == PhaseBy(bars, r, k, t.high, t.trigger)
    ensures PhaseBy(bars, r, r - 1, t.high, t.trigger) == WATCHING
  {
    Grows(bars, r, k, t.high, t.trigger);
  }

  lemma Grows(bars: seq<Bar>, r: nat, k: nat, high: real, trigger: real)
    requires r <= k < |bars|
    ensures Squeezed(bars, r, k, high) <==> Squeezed(bars, r, k - 1, high) || bars[k].high >= high
    ensures PulledBack(bars, r, k, high, trigger) <==>
              PulledBack(bars, r, k - 1, high, trigger) || (bars[k].low <= trigger && Squeezed(bars, r, k - 1, high))
    ensures Confirmed(bars, r, k, high, trigger) <==>
              Confirmed(bars, r, k - 1, high, trigger)
              || (bars[k].high >= high && PulledBack(bars, r, k - 1, high, trigger))
    ensures PulledBack(bars, r, k, high, trigger) ==> Squeezed(bars, r, k, high)
    ensures Confirmed(bars, r, k, high, trigger) ==> PulledBack(bars, r, k, high, trigger)
  {
    SqueezedGrows(bars, r, k, high);
    PulledBackGrows(bars, r, k, high, trigger);
    ConfirmedGrows(bars, r, k, high, trigger);
  }

  lemma SqueezedGrows(bars: seq<Bar>, r: nat, k: nat, high: real)
    requires r <= k < |bars|
    ensures Squeezed(bars, r, k, high) <==> Squeezed(bars, r, k - 1, high) || bars[k].high >= high
  {
  }

  lemma PulledBackGrows(bars: seq<Bar>, r: nat, k: nat, high: real, trigger: real)
    requires r <= k < |bars|
    ensures PulledBack(bars, r, k, high, trigger) <==>
              PulledBack(bars, r, k - 1, high, trigger) || (bars[k].low <= trigger && Squeezed(bars, r, k - 1, high))
    ensures PulledBack(bars, r, k, high, trigger) ==> Squeezed(bars, r, k, high)
  {
    if PulledBack(bars, r, k, high, trigger) {
      var j :| r < j <= k && j < |bars| && bars[j].low <= trigger && Squeezed(bars, r, j - 1, high);
      var i :| r <= i <= j - 1 && i < |bars| && bars[i].high >= high;
    }
  }

  lemma ConfirmedGrows(bars: seq<Bar>, r: nat, k: nat, high: real, trigger: real)
    requires r <= k < |bars|
    ensures Confirmed(bars, r, k, high, trigger) <==>
              Confirmed(bars, r, k - 1, high, trigger)
              || (bars[k].high >= high && PulledBack(bars, r, k - 1, high, trigger))
    ensures Confirmed(bars, r, k, high, trigger) ==> PulledBack(bars, r, k, high, trigger)
  {
    hide Squeezed;
    if Confirmed(bars, r, k, high, trigger) {
      var l :| r < l <= k && l < |bars| && bars[l].high >= high && PulledBack(bars, r, l - 1, high, trigger);
      var j :| r < j <= l - 1 && j < |bars| && bars[j].low <= trigger && Squeezed(bars, r, j - 1, high);
    }
  }

  /** The dictionary of machines after the bars before k (registration bar k included or not, by `upto`). */
  ghost predicate Tracks(c: Ratchet, traps: map<int, Trap>, reg: map<int, (nat, nat)>, k: int, upto: nat, within: nat)
    requires Shaped(c)
  {
    traps.Keys == reg.Keys
    && (forall key :: key in traps ==>
          Registered(c, reg[key].0, reg[key].1, key)
          && (reg[key].0 < upto || (reg[key].0 == upto && reg[key].1 < within))
          && traps[key].high == c.offers[reg[key].0][reg[key].1].high
          && traps[key].trigger == c.offers[reg[key].0][reg[key].1].trigger
          && traps[key].phase == PhaseBy(c.bars, reg[key].0, k, traps[key].high, traps[key].trigger))
    && forall r: nat, n: nat, key :: Offer(c, r, n, key) && (r < upto || (r == upto && n < within)) ==> key in traps
  }

  /** The dictionary's keys in insertion order. */
  ghost predicate Lists(keys: seq<int>, traps: map<int, Trap>) {
    (forall i :: 0 <= i < |keys| ==> keys[i] in traps)
    && (forall key :: key in traps ==> key in keys)
    && forall i, j :: 0 <= i < j < |keys| ==> keys[i] != keys[j]
  }

  /** The registration loop of one bar: the first report of a timestamp wins, later ones are ignored. */
  method Register(offers: seq<TrapReport>, t1Time: int, entry: real, keys: seq<int>, traps: map<int, Trap>,
                  ghost c: Ratchet, ghost k: nat, ghost reg: map<int, (nat, nat)>)
    returns (keys': seq<int>, traps': map<int, Trap>, ghost reg': map<int, (nat, nat)>)
    requires Shaped(c) && c.t1 <= k < |c.bars| && offers == c.offers[k] && t1Time == c.bars[c.t1].ts && entry == c.entry
    requires Tracks(c, traps, reg, k - 1, k, 0) && Lists(keys, traps)
    ensures Tracks(c, traps', reg', k - 1, k + 1, 0) && Lists(keys', traps')
  {
    hide Tracks, Lists;
    keys', traps', reg' := keys, traps, reg;
    var i := 0;
    while i < |offers|
      invariant 0 <= i <= |offers|
      invariant Tracks(c, traps', reg', k - 1, k, i) && Lists(keys', traps')
    {
      var rep := offers[i];
      if rep.trapped && rep.ts.Some? && rep.ts.value > t1Time && rep.trigger > entry && rep.ts.value !in traps' {
        FirstReport(c, k, traps', reg', i, rep.ts.value);
        ListsGrow(keys', traps', rep.ts.value, Trap(WATCHING, rep.trigger, rep.high));
        keys' := keys' + [rep.ts.value];
        traps' := traps'[rep.ts.value := Trap(WATCHING, rep.trigger, rep.high)];
        reg' := reg'[rep.ts.value := (k, i)];
      } else {
        PassedOver(c, k, traps', reg', i);
      }
      i := i + 1;
    }
    BarHeard(c, k, traps', reg');
  }

  lemma FirstReport(c: Ratchet, k: nat, traps: map<int, Trap>, reg: map<int, (nat, nat)>, i: nat, key: int)
    requires Shaped(c) && Tracks(c, traps, reg, k - 1, k, i) && Offer(c, k, i, key) && key !in traps
    ensures var rep := c.offers[k][i];
            Tracks(c, traps[key := Trap(WATCHING, rep.trigger, rep.high)], reg[key := (k, i)], k - 1, k, i + 1)
  {
    var rep := c.offers[k][i];
    assert PhaseBy(c.bars, k, k - 1, rep.high, rep.trigger) == WATCHING;
    assert Registered(c, k, i, key);
    hide PhaseBy, Registered;
    assert forall n: nat, other :: Offer(c, k, n, other) && n == i ==> other == key;
  }

  lemma PassedOver(c: Ratchet, k: nat, traps: map<int, Trap>, reg: map<int, (nat, nat)>, i: nat)
    requires Shaped(c) && Tracks(c, traps, reg, k - 1, k, i)
    requires forall key :: Offer(c, k, i, key) ==> key in traps
    ensures Tracks(c, traps, reg, k - 1, k, i + 1)
  {
    hide PhaseBy, Registered, Offer;
  }

  lemma BarHeard(c: Ratchet, k: nat, traps: map<int, Trap>, reg: map<int, (nat, nat)>)
    requires Shaped(c) && k < |c.bars| && Tracks(c, traps, reg, k - 1, k, |c.offers[k]|)
    ensures Tracks(c, traps, reg, k - 1, k + 1, 0)
  {
    hide PhaseBy, Registered;
  }

  lemma ListsGrow(keys: seq<int>, traps: map<int, Trap>, key: int, t: Trap)
    requires Lists(keys, traps) && key !in traps
    ensures Lists(keys + [key], traps[key := t])
  {
  }

  /** One bar through every machine; a machine that reaches CONFIRMED may lift the stop. */
  method Advance(keys: seq<int>, traps: map<int, Trap>, bar: Bar, trail: real)
    returns (traps': map<int, Trap>, trail': real)
    requires Lists(keys, traps)
    ensures traps'.Keys == traps.Keys && forall key :: key in traps ==> traps'[key] == StepTrap(traps[key], bar)
    ensures trail' >= trail
    ensures forall key :: key in traps && traps[key].phase != CONFIRMED && traps'[key].phase == CONFIRMED ==>
        traps[key].trigger <= trail'
    ensures trail' == trail
            || exists key :: key in traps && traps'[key].phase == CONFIRMED && traps[key].trigger == trail'
  {
    traps', trail' := traps, trail;
    var i := 0;
    while i < |keys|
      invariant 0 <= i <= |keys| && traps.Keys == traps'.Keys
      invariant forall j :: 0 <= j < |keys| ==>
          traps'[keys[j]] == if j < i then StepTrap(traps[keys[j]], bar) else traps[keys[j]]
      invariant trail' >= trail
      invariant forall j :: 0 <= j < i && traps[keys[j]].phase != CONFIRMED && traps'[keys[j]].phase == CONFIRMED ==>
          traps[keys[j]].trigger <= trail'
      invariant trail' == trail
                || exists j :: 0 <= j < i && keys[j] in traps && traps'[keys[j]].phase == CONFIRMED
                               && traps[keys[j]].trigger == trail'
    {
      var key := keys[i];
      var t := traps'[key];
      match t.phase {
      case CONFIRMED =>
      case WATCHING =>
        if bar.high >= t.high {
          traps' := traps'[key := t.(phase := SQUEEZED)];
        }
      case SQUEEZED =>
        if bar.low <= t.trigger {
          traps' := traps'[key := t.(phase := PULLED_BACK)];
        }
      case PULLED_BACK =>
        if bar.high >= t.high {
          traps' := traps'[key := t.(phase := CONFIRMED)];
          if t.trigger > trail' {
            trail' := t.trigger;
          }
        }
      }
      i := i + 1;
    }
    assert forall key :: key in traps ==> exists j :: 0 <= j < |keys| && keys[j] == key;
  }

  ghost predicate Stepped(c: Ratchet, k: nat, traps: map<int, Trap>, traps': map<int, Trap>)
    requires k < |c.bars|
  {
    traps'.Keys == traps.Keys && forall key :: key in traps ==> traps'[key] == StepTrap(traps[key], c.bars[k])
  }

  /** Stepping every machine keeps the dictionary what it should be; a machine is CONFIRMED just when its trap
      supports the stop. */
  lemma MachinesStep(c: Ratchet, k: nat, traps: map<int, Trap>, traps': map<int, Trap>, reg: map<int, (nat, nat)>)
    requires Shaped(c) && c.t1 <= k < |c.bars|
    requires Tracks(c, traps, reg, k - 1, k + 1, 0) && Stepped(c, k, traps, traps')
    ensures Tracks(c, traps', reg, k, k + 1, 0)
    ensures forall key :: key in traps ==> Supporting(c, k, traps, traps', reg, key)
  {
    hide Registered, Offer, Supporting, PhaseBy;
    forall key | key in traps
      ensures traps'[key].phase == PhaseBy(c.bars, reg[key].0, k, traps[key].high, traps[key].trigger)
      ensures Supporting(c, k, traps, traps', reg, key)
    {
      MachineStep(c, k, traps, traps', reg, key);
    }
  }

  lemma MachineStep(c: Ratchet, k: nat, traps: map<int, Trap>, traps': map<int, Trap>, reg: map<int, (nat, nat)>,
                    key: int)
    requires Shaped(c) && c.t1 <= k < |c.bars| && key in traps
    requires Tracks(c, traps, reg, k - 1, k + 1, 0) && Stepped(c, k, traps, traps')
    ensures traps'[key].phase == PhaseBy(c.bars, reg[key].0, k, traps[key].high, traps[key].trigger)
    ensures Supporting(c, k, traps, traps', reg, key)
  {
    hide Registered, Offer;
    PhaseSteps(c.bars, reg[key].0, k, traps[key]);
  }

  ghost predicate Supporting(c: Ratchet, k: nat, traps: map<int, Trap>, traps': map<int, Trap>,
                             reg: map<int, (nat, nat)>, key: int)
    requires Shaped(c) && key in traps && key in traps' && key in reg
  {
    var (r, n) := reg[key];
    Registered(c, r, n, key) && c.offers[r][n].trigger == traps[key].trigger
    && (traps[key].phase == CONFIRMED ==>
          traps'[key].phase == CONFIRMED && r < k && Supports(c, k - 1, traps[key].trigger, r, n, key))
    && (traps'[key].phase == CONFIRMED <==> Supports(c, k, traps[key].trigger, r, n, key))
  }

  /** One bar's worth of ratcheting takes the level at the previous bar to the level at this one. */
  lemma LevelSteps(c: Ratchet, k: nat, traps: map<int, Trap>, traps': map<int, Trap>,
                   reg: map<int, (nat, nat)>, v: real, v': real)
    requires Shaped(c) && c.t1 <= k < |c.bars|
    requires Tracks(c, traps, reg, k - 1, k + 1, 0) && Stepped(c, k, traps, traps')
    requires if k == c.t1 then v == c.entry else IsLevel(c, k - 1, v)
    requires v' >= v
    requires forall key :: key in traps && traps[key].phase != CONFIRMED && traps'[key].phase == CONFIRMED ==>
        traps[key].trigger <= v'
    requires v' == v || exists key :: key in traps && traps'[key].phase == CONFIRMED && traps[key].trigger == v'
    ensures Tracks(c, traps', reg, k, k + 1, 0)
    ensures IsLevel(c, k, v')
  {
    hide Confirmed;
    MachinesStep(c, k, traps, traps', reg);
    forall w, r: nat, n: nat, key | Supports(c, k, w, r, n, key)
      ensures w <= v'
    {
      Heard(c, traps, reg, k, r, n, key);
      assert Supporting(c, k, traps, traps', reg, key);
    }
    if v' != v {
      var key :| key in traps && traps'[key].phase == CONFIRMED && traps[key].trigger == v';
      assert Supporting(c, k, traps, traps', reg, key);
    } else if v != c.entry {
      var r: nat, n: nat, key :| Supports(c, k - 1, v, r, n, key);
      Grows(c.bars, r, k, c.offers[r][n].high, c.offers[r][n].trigger);
      assert Supports(c, k, v, r, n, key);
    }
  }

  lemma Heard(c: Ratchet, traps: map<int, Trap>, reg: map<int, (nat, nat)>, k: nat, r: nat, n: nat, key: int)
    requires Shaped(c) && Tracks(c, traps, reg, k - 1, k + 1, 0) && Registered(c, r, n, key) && r <= k
    ensures key in traps && reg[key] == (r, n)
  {
    assert Offer(c, r, n, key);
    OneRegistration(c, r, n, reg[key].0, reg[key].1, key);
  }

  lemma OneRegistration(c: Ratchet, r: nat, n: nat, r': nat, n': nat, key: int)
    requires Shaped(c) && Registered(c, r, n, key) && Registered(c, r', n', key)
    ensures r == r' && n == n'
  {
  }

  // ---------------------------------------------------------------- the trade

  /** The first bar that reaches a positive T1, or the number of bars. */
  ghost predicate IsT1(bars: seq<Bar>, target: real, t1: nat) {
    t1 <= |bars|
    && (forall k :: 0 <= k < t1 ==> !(target > 0.0 && bars[k].high >= target))
    && (t1 < |bars| ==> target > 0.0 && bars[t1].high >= target)
  }

  ghost function OffersOf(day: seq<Bar>, scan: Scanner, bars: seq<Bar>): seq<seq<TrapReport>> {
    seq(|bars|, i requires 0 <= i < |bars| => Offered(day, scan, bars[i].ts))
  }

  /** The stop in force at bar k: the initial stop before T1, the ratchet level from T1 on. */
  ghost predicate StopAt(e: LtfEntry, day: seq<Bar>, scan: Scanner, bars: seq<Bar>, t1: nat, k: nat, stop: real)
    requires k < |bars|
  {
    if k < t1 then stop == StopPrice(e)
    else IsLevel(Ratchet(bars, t1, e.price, OffersOf(day, scan, bars)), k, stop)
  }

  /** The bars a run goes through: at each the stop is what the specification says, and every bar but the last one
      reached keeps above it and falls before the end of the day. */
  ghost predicate Followed(e: LtfEntry, day: seq<Bar>, scan: Scanner, bars: seq<Bar>, t1: nat, stops: seq<real>) {
    |stops| <= |bars|
    && (forall k :: 0 <= k < |stops| ==> StopAt(e, day, scan, bars, t1, k, stops[k]))
    && forall k :: 0 <= k < |stops| - 1 ==> Alive(bars[k], stops[k])
  }

  predicate Alive(bar: Bar, stop: real) { bar.low > stop && !AtEod(bar.ts) }

  /** How the run ends at the last bar it reached: the stop before the end of the day, and OPEN if neither came. */
  ghost predicate Ended(bars: seq<Bar>, t1: nat, stops: seq<real>, res: TradeResult)
    requires |stops| <= |bars|
  {
    var last := |stops| - 1;
    (res.t1Done <==> t1 <= last)
    && if stops == [] || Alive(bars[last], stops[last]) then
         |stops| == |bars| && res.reason == OPEN && res.exit == None && res.exitTime == None
       else
         res.exitTime == Some(bars[last].ts)
         && if bars[last].low <= stops[last]
            then res.exit == Some(stops[last]) && res.reason == if res.t1Done then TRAIL_SL else SL
            else res.exit == Some(bars[last].close) && res.reason == EOD
  }

  function Gain(entry: real, exit: real, qty: int): real { (exit - entry) * qty as real }

  /** Half the quantity at T1 if it was reached; all the rest at the exit, if there was one. */
  predicate Accounted(entry: real, target: real, res: TradeResult) {
    var atT1 := if res.t1Done then QTY / 2 else 0;
    var atExit := if res.reason == OPEN then 0 else QTY - atT1;
    (res.exit.Some? <==> res.reason != OPEN)
    && res.pnl == (if res.t1Done then Gain(entry, target, atT1) else 0.0)
      + if res.exit.Some? then Gain(entry, res.exit.value, atExit) else 0.0
  }

  ghost predicate TradeRun(e: LtfEntry, target: real, day: seq<Bar>, scan: Scanner, res: TradeResult, t1: nat,
                           stops: seq<real>) {
    var bars := After(day, e.time);
    IsT1(bars, target, t1) && Followed(e, day, scan, bars, t1, stops) && Ended(bars, t1, stops, res)
    && res.entry == e.price && Accounted(e.price, target, res)
  }

  method SimulateTrade(e: LtfEntry, target: real, day: seq<Bar>, scan: Scanner)
    returns (res: TradeResult)
    ensures exists t1: nat, stops: seq<real> :: TradeRun(e, target, day, scan, res, t1, stops)
  {
    hide IsLevel, Tracks, AtEod, Gain, After, UpTo, Followed;
    var slPrice := StopPrice(e);
    var qtyRemaining, qtyT1 := QTY, QTY / 2;
    var t1Done, t1Time := false, 0;
    var trail, pnl := slPrice, 0.0;
    var bars := After(day, e.time);
    var keys: seq<int>, traps: map<int, Trap> := [], map[];
    ghost var reg: map<int, (nat, nat)> := map[];
    ghost var offers := OffersOf(day, scan, bars);
    ghost var t1, stops: seq<real> := FindT1(bars, target), [];
    ghost var c := Ratchet(bars, t1, e.price, offers);
    assert Followed(e, day, scan, bars, t1, stops) by { Unstarted(e, day, scan, bars, t1); }
    var k := 0;
    while k < |bars|
      invariant 0 <= k <= |bars| && |stops| == k
      invariant t1Done <==> t1 < k
      invariant qtyRemaining == if t1Done then QTY - QTY / 2 else QTY
      invariant pnl == if t1Done then Gain(e.price, target, QTY / 2) else 0.0
      invariant t1Done ==> t1Time == bars[t1].ts && Tracks(c, traps, reg, k - 1, k, 0) && IsLevel(c, k - 1, trail)
      invariant Lists(keys, traps) && (!t1Done ==> traps == map[] && reg == map[])
      invariant Followed(e, day, scan, bars, t1, stops) && (stops != [] ==> Alive(bars[k - 1], stops[k - 1]))
    {
      var bar := bars[k];
      if !t1Done && target > 0.0 && bar.high >= target {
        pnl := pnl + Gain(e.price, target, qtyT1);
        qtyRemaining := qtyRemaining - qtyT1;
        t1Done, t1Time := true, bar.ts;
        trail := e.price;
      }
      if t1Done {
        if k == t1 {
          Untracked(c, k);
        }
        keys, traps, trail, reg :=
          Trail(Offered(day, scan, bar.ts), t1Time, e.price, bar, keys, traps, trail, c, k, reg);
      }
      var active := if t1Done then trail else slPrice;
      Reaches(e, day, scan, bars, t1, stops, active);
      stops := stops + [active];
      if bar.low <= active {
        pnl := pnl + Gain(e.price, active, qtyRemaining);
        res := TradeResult(e.price, Some(active), Some(bar.ts), if t1Done then TRAIL_SL else SL, pnl, t1Done);
        assert TradeRun(e, target, day, scan, res, t1, stops);
        return;
      }
      if AtEod(bar.ts) {
        pnl := pnl + Gain(e.price, bar.close, qtyRemaining);
        res := TradeResult(e.price, Some(bar.close), Some(bar.ts), EOD, pnl, t1Done);
        assert TradeRun(e, target, day, scan, res, t1, stops);
        return;
      }
      k := k + 1;
    }
    res := TradeResult(e.price, None, None, OPEN, pnl, t1Done);
    assert TradeRun(e, target, day, scan, res, t1, stops);
  }

  /** The post-T1 part of one bar. */
  method Trail(offers: seq<TrapReport>, t1Time: int, entry: real, bar: Bar, keys: seq<int>, traps: map<int, Trap>,
               trail: real, ghost c: Ratchet, ghost k: nat, ghost reg: map<int, (nat, nat)>)
    returns (keys': seq<int>, traps': map<int, Trap>, trail': real, ghost reg': map<int, (nat, nat)>)
    requires Shaped(c) && c.t1 <= k < |c.bars| && offers == c.offers[k] && bar == c.bars[k]
    requires t1Time == c.bars[c.t1].ts && entry == c.entry
    requires Lists(keys, traps) && Tracks(c, traps, reg, k - 1, k, 0)
    requires if k == c.t1 then trail == c.entry else IsLevel(c, k - 1, trail)
    ensures Lists(keys', traps') && Tracks(c, traps', reg', k, k + 1, 0) && IsLevel(c, k, trail')
  {
    hide IsLevel, Tracks;
    ghost var before := trail;
    keys', traps', reg' := Register(offers, t1Time, entry, keys, traps, c, k, reg);
    ghost var registered := traps';
    traps', trail' := Advance(keys', traps', bar, trail);
    LevelSteps(c, k, registered, traps', reg', before, trail');
  }

  lemma Unstarted(e: LtfEntry, day: seq<Bar>, scan: Scanner, bars: seq<Bar>, t1: nat)
    ensures Followed(e, day, scan, bars, t1, [])
  {
  }

  lemma Reaches(e: LtfEntry, day: seq<Bar>, scan: Scanner, bars: seq<Bar>, t1: nat, stops: seq<real>, stop: real)
    requires |stops| < |bars| && Followed(e, day, scan, bars, t1, stops)
    requires stops != [] ==> Alive(bars[|stops| - 1], stops[|stops| - 1])
    requires StopAt(e, day, scan, bars, t1, |stops|, stop)
    ensures Followed(e, day, scan, bars, t1, stops + [stop])
  {
    hide StopAt;
  }

  lemma Untracked(c: Ratchet, k: nat)
    requires Shaped(c) && k == c.t1
    ensures Tracks(c, map[], map[], k - 1, k, 0)
  {
  }

  ghost function FindT1(bars: seq<Bar>, target: real): (t1: nat)
    ensures IsT1(bars, target, t1)
  {
    if bars == [] || (target > 0.0 && bars[0].high >= target) then 0
    else
      var rest := FindT1(bars[1..], target);
      assert forall k :: 0 <= k < rest ==> bars[1..][k] == bars[k + 1];
      rest + 1
  }

  // ---------------------------------------------------------------- what every closed trade guarantees

  lemma {:induction false} AfterIn(day: seq<Bar>, t: int)
    ensures forall b :: b in After(day, t) <==> b in day && b.ts > t
    ensures |After(day, t)| <= |day|
  {
    if day != [] {
      AfterIn(day[1..], t);
      assert day == [day[0]] + day[1..];
    }
  }

  /** Whatever ends a trade, it does not end below the stop in force, nor that stop below its floor. */
  lemma ExitFloor(e: LtfEntry, target: real, day: seq<Bar>, scan: Scanner, res: TradeResult, t1: nat, stops: seq<real>)
    requires TradeRun(e, target, day, scan, res, t1, stops) && res.reason != OPEN
    requires forall b :: b in day ==> b.low <= b.close
    ensures res.exit.Some? && res.exit.value >= if res.t1Done then e.price else 0.98 * e.price
  {
    hide AtEod, After, IsT1, Accounted;
    var bars := After(day, e.time);
    var last := |stops| - 1;
    AfterIn(day, e.time);
    assert bars[last] in bars;
    assert StopAt(e, day, scan, bars, t1, last, stops[last]);
    hide Followed;
    assert res.exit.value >= stops[last];
    assert stops[last] >= if res.t1Done then e.price else 0.98 * e.price;
  }

  /** A closed trade loses at most 2% of the entry on the whole quantity before T1, and once T1 is reached it
      keeps at least the half booked there. */
  lemma LossFloor(e: LtfEntry, target: real, day: seq<Bar>, scan: Scanner, res: TradeResult, t1: nat, stops: seq<real>)
    requires TradeRun(e, target, day, scan, res, t1, stops) && res.reason != OPEN
    requires e.price >= 0.0 && forall b :: b in day ==> b.low <= b.close
    ensures !res.t1Done ==> res.pnl >= -0.02 * e.price * QTY as real
    ensures res.t1Done ==> res.pnl >= (target - e.price) * (QTY / 2) as real
  {
    hide TradeRun, Accounted;
    ExitFloor(e, target, day, scan, res, t1, stops);
    RunAccounted(e, target, day, scan, res, t1, stops);
    PnlFloor(e.price, target, res);
  }

  lemma RunAccounted(e: LtfEntry, target: real, day: seq<Bar>, scan: Scanner, res: TradeResult, t1: nat,
                     stops: seq<real>)
    requires TradeRun(e, target, day, scan, res, t1, stops)
    ensures Accounted(e.price, target, res)
  {
    hide IsT1, Followed, Ended, After, Accounted;
  }

  lemma PnlFloor(entry: real, target: real, res: TradeResult)
    requires Accounted(entry, target, res) && res.reason != OPEN && entry >= 0.0
    requires res.exit.value >= if res.t1Done then entry else 0.98 * entry
    ensures !res.t1Done ==> res.pnl >= -0.02 * entry * QTY as real
    ensures res.t1Done ==> res.pnl >= (target - entry) * (QTY / 2) as real
  {
    if res.t1Done {
      AtLeast(entry, entry, res.exit.value, QTY - QTY / 2);
    } else {
      AtLeast(entry, 0.98 * entry, res.exit.value, QTY);
    }
  }

  lemma AtLeast(entry: real, floor: real, exit: real, qty: nat)
    requires floor <= exit
    ensures Gain(entry, exit, qty) >= Gain(entry, floor, qty)
  {
    assert (exit - floor) * qty as real >= 0.0;
  }

  /** The trade closes strictly after it was entered, at the time of one of the day's bars. */
  lemma ExitAfterEntry(e: LtfEntry, target: real, day: seq<Bar>, scan: Scanner, res: TradeResult, t1: nat,
                       stops: seq<real>)
    requires TradeRun(e, target, day, scan, res, t1, stops)
    ensures res.exitTime.Some? <==> res.reason != OPEN
    ensures res.exitTime.Some? ==> res.exitTime.value > e.time && exists b :: b in day && b.ts == res.exitTime.value
  {
    hide AtEod, After, Accounted;
    var bars := After(day, e.time);
    AfterIn(day, e.time);
    if res.exitTime.Some? {
      assert bars[|stops| - 1] in bars;
    }
  }

  /** The profit, unit by unit: half the quantity from the entry to T1 if that was reached, the rest to the exit. */
  lemma PnlExact(e: LtfEntry, target: real, day: seq<Bar>, scan: Scanner, res: TradeResult, t1: nat, stops: seq<real>)
    requires TradeRun(e, target, day, scan, res, t1, stops)
    ensures res.exit.Some? <==> res.reason != OPEN
    ensures res.reason == OPEN && !res.t1Done ==> res.pnl == 0.0
    ensures res.reason == OPEN && res.t1Done ==> res.pnl == (target - e.price) * 100.0
    ensures res.reason != OPEN && !res.t1Done ==> res.pnl == (res.exit.value - e.price) * 200.0
    ensures res.reason != OPEN && res.t1Done ==>
              res.pnl == (target - e.price) * 100.0 + (res.exit.value - e.price) * 100.0
  {
    RunAccounted(e, target, day, scan, res, t1, stops);
    GainExact(e.price, target);
    if res.exit.Some? {
      GainExact(e.price, res.exit.value);
    }
    hide TradeRun, Gain;
  }

  lemma GainExact(entry: real, exit: real)
    ensures Gain(entry, exit, QTY) == (exit - entry) * 200.0 && Gain(entry, exit, 0) == 0.0
    ensures Gain(entry, exit, QTY / 2) == Gain(entry, exit, QTY - QTY / 2) == (exit - entry) * 100.0
  {
  }

  /** T1 has been reached by the k-th bar of the day, at a bar after the entry. */
  predicate Reached(e: LtfEntry, target: real, day: seq<Bar>, k: nat)
    requires k < |day|
  {
    target > 0.0 && exists i :: 0 <= i <= k && day[i].ts > e.time && day[i].high >= target
  }

  /** Said of the day itself, in time order: the trade goes through its bars after the entry one by one. Before T1
      every bar passed keeps above the initial stop, from T1 on above the entry, and none is at 23:25 or later; the
      bar that closes the trade does so by its low or by its time. */
  lemma FirstExit(e: LtfEntry, target: real, day: seq<Bar>, scan: Scanner, res: TradeResult, t1: nat, stops: seq<real>)
    returns (x: nat)
    requires TradeRun(e, target, day, scan, res, t1, stops)
    ensures x <= |day| && (x == |day| <==> res.reason == OPEN)
    ensures forall k :: 0 <= k < x && day[k].ts > e.time ==>
              day[k].ts % 86400 < 84300
              && (!Reached(e, target, day, k) ==>
                    day[k].low > 0.98 * e.price && (e.zoneLow > 0.0 ==> day[k].low > e.zoneLow))
              && (Reached(e, target, day, k) ==> day[k].low > e.price)
    ensures x < |day| ==>
              day[x].ts > e.time && res.exitTime == Some(day[x].ts) && (res.t1Done <==> Reached(e, target, day, x))
              && (res.reason == EOD ==> res.exit == Some(day[x].close) && day[x].ts % 86400 >= 84300)
              && (res.reason != EOD ==> res.exit.Some? && day[x].low <= res.exit.value)
              && (res.reason == SL <==> !res.t1Done && res.reason != EOD)
              && (res.reason == SL ==> res.exit == Some(StopPrice(e)))
              && (res.reason == EOD ==> day[x].low > if res.t1Done then e.price else StopPrice(e))
    ensures res.reason == OPEN && day != [] ==> (res.t1Done <==> Reached(e, target, day, |day| - 1))
  {
    hide TradeRun, After, StopPrice, AtEod, Reached;
    var at := AfterPlaces(day, e.time);
    RunLength(e, target, day, scan, res, t1, stops);
    x := if res.reason == OPEN then |day| else at[|stops| - 1];
    forall k | 0 <= k < x && day[k].ts > e.time
      ensures day[k].ts % 86400 < 84300
      ensures !Reached(e, target, day, k) ==>
                day[k].low > 0.98 * e.price && (e.zoneLow > 0.0 ==> day[k].low > e.zoneLow)
      ensures Reached(e, target, day, k) ==> day[k].low > e.price
    {
      var m :| 0 <= m < |at| && at[m] == k;
      assert m < |stops|;
      assert res.reason != OPEN ==> m < |stops| - 1 && at[|stops| - 1] == x;
      PassedBar(e, target, day, scan, res, t1, stops, at, m);
    }
    if x < |day| {
      PassedBar(e, target, day, scan, res, t1, stops, at, |stops| - 1);
    } else if day != [] {
      OpenAtEnd(e, target, day, scan, res, t1, stops, at);
    }
  }

  lemma RunLength(e: LtfEntry, target: real, day: seq<Bar>, scan: Scanner, res: TradeResult, t1: nat,
                  stops: seq<real>)
    requires TradeRun(e, target, day, scan, res, t1, stops)
    ensures |stops| <= |After(day, e.time)|
    ensures if res.reason == OPEN then |stops| == |After(day, e.time)| else stops != []
  {
    hide IsT1, StopAt, Accounted, After;
  }

  /** One bar that a run reaches: what kept the trade alive there, or closed it. */
  lemma PassedBar(e: LtfEntry, target: real, day: seq<Bar>, scan: Scanner, res: TradeResult, t1: nat,
                  stops: seq<real>, at: seq<nat>, m: nat)
    requires TradeRun(e, target, day, scan, res, t1, stops) && m < |stops|
    requires Picked(day, After(day, e.time), at) && m < |at|
    requires forall k :: 0 <= k < |day| ==> (k in at <==> day[k].ts > e.time)
    ensures var k := at[m];
            var reached := Reached(e, target, day, k);
            var floor := if reached then e.price else StopPrice(e);
            var closing := m == |stops| - 1 && res.reason != OPEN;
            day[k].ts > e.time
            && (!closing ==> day[k].ts % 86400 < 84300 && day[k].low > floor)
            && (closing ==>
                  res.exitTime == Some(day[k].ts) && (res.t1Done <==> reached)
                  && (res.reason == SL <==> !res.t1Done && res.reason != EOD)
                  && (res.reason == EOD ==>
                        res.exit == Some(day[k].close) && day[k].ts % 86400 >= 84300 && day[k].low > floor)
                  && (res.reason != EOD ==> res.exit.Some? && day[k].low <= res.exit.value)
                  && (res.reason == SL ==> res.exit == Some(StopPrice(e))))
  {
    hide TradeRun, After, StopPrice, AtEod, Reached;
    var bars := After(day, e.time);
    assert at[m] in at && bars[m] == day[at[m]];
    EodIs(bars[m].ts);
    T1OfRun(e, target, day, scan, res, t1, stops);
    T1ByPlace(e, target, day, bars, t1, at, m);
    StopFloor(e, target, day, scan, res, t1, stops, m);
    if m == |stops| - 1 && res.reason != OPEN {
      ClosedAt(e, target, day, scan, res, t1, stops);
    } else {
      AliveAt(e, target, day, scan, res, t1, stops, m);
    }
    hide Picked;
  }

  lemma T1OfRun(e: LtfEntry, target: real, day: seq<Bar>, scan: Scanner, res: TradeResult, t1: nat, stops: seq<real>)
    requires TradeRun(e, target, day, scan, res, t1, stops)
    ensures IsT1(After(day, e.time), target, t1)
  {
    hide After, IsT1, Followed, Ended, Accounted;
  }

  lemma StopFloor(e: LtfEntry, target: real, day: seq<Bar>, scan: Scanner, res: TradeResult, t1: nat,
                  stops: seq<real>, m: nat)
    requires TradeRun(e, target, day, scan, res, t1, stops) && m < |stops|
    ensures if t1 <= m then stops[m] >= e.price else stops[m] == StopPrice(e)
  {
    hide After, IsT1, Ended, Accounted, StopPrice, IsLevel;
    var bars := After(day, e.time);
    assert StopAt(e, day, scan, bars, t1, m, stops[m]);
    if t1 <= m {
      LevelAbove(Ratchet(bars, t1, e.price, OffersOf(day, scan, bars)), m, stops[m]);
    }
  }

  lemma AliveAt(e: LtfEntry, target: real, day: seq<Bar>, scan: Scanner, res: TradeResult, t1: nat,
                stops: seq<real>, m: nat)
    requires TradeRun(e, target, day, scan, res, t1, stops) && m < |stops|
    requires m < |stops| - 1 || res.reason == OPEN
    ensures m < |After(day, e.time)|
    ensures var bar := After(day, e.time)[m]; bar.low > stops[m] && !AtEod(bar.ts)
  {
    hide After, IsT1, StopAt, Accounted, AtEod;
  }

  lemma ClosedAt(e: LtfEntry, target: real, day: seq<Bar>, scan: Scanner, res: TradeResult, t1: nat, stops: seq<real>)
    requires TradeRun(e, target, day, scan, res, t1, stops) && res.reason != OPEN
    ensures 0 < |stops| <= |After(day, e.time)|
    ensures var bar, stop := After(day, e.time)[|stops| - 1], stops[|stops| - 1];
            res.exitTime == Some(bar.ts) && (res.t1Done <==> t1 <= |stops| - 1)
            && if bar.low <= stop then res.exit == Some(stop) && res.reason == (if res.t1Done then TRAIL_SL else SL)
               else res.exit == Some(bar.close) && res.reason == EOD && AtEod(bar.ts)
  {
    hide After, IsT1, StopAt, Accounted, AtEod;
  }

  lemma LevelAbove(c: Ratchet, k: nat, v: real)
    requires Shaped(c) && IsLevel(c, k, v)
    ensures v >= c.entry
  {
  }

  /** T1 reached among the bars is T1 reached on the day. */
  lemma T1ByPlace(e: LtfEntry, target: real, day: seq<Bar>, bars: seq<Bar>, t1: nat, at: seq<nat>, m: nat)
    requires IsT1(bars, target, t1) && Picked(day, bars, at) && m < |at|
    requires forall k :: 0 <= k < |day| ==> (k in at <==> day[k].ts > e.time)
    ensures Reached(e, target, day, at[m]) <==> t1 <= m
  {
    if t1 <= m {
      assert at[t1] in at && day[at[t1]].high >= target;
    }
    if Reached(e, target, day, at[m]) {
      var k :| 0 <= k <= at[m] && day[k].ts > e.time && day[k].high >= target;
      var i :| 0 <= i < |at| && at[i] == k;
      assert i <= m;
    }
  }

  lemma OpenAtEnd(e: LtfEntry, target: real, day: seq<Bar>, scan: Scanner, res: TradeResult, t1: nat,
                  stops: seq<real>, at: seq<nat>)
    requires TradeRun(e, target, day, scan, res, t1, stops) && res.reason == OPEN && day != []
    requires Picked(day, After(day, e.time), at)
    requires forall k :: 0 <= k < |day| ==> (k in at <==> day[k].ts > e.time)
    ensures res.t1Done <==> Reached(e, target, day, |day| - 1)
  {
    hide After, Accounted, StopPrice, AtEod, StopAt, Reached;
    RunLength(e, target, day, scan, res, t1, stops);
    if at != [] {
      T1ByPlace(e, target, day, After(day, e.time), t1, at, |at| - 1);
    }
    LastReached(e, target, day, After(day, e.time), at);
  }

  lemma LastReached(e: LtfEntry, target: real, day: seq<Bar>, bars: seq<Bar>, at: seq<nat>)
    requires day != [] && Picked(day, bars, at)
    requires forall k :: 0 <= k < |day| ==> (k in at <==> day[k].ts > e.time)
    ensures Reached(e, target, day, |day| - 1) <==> at != [] && Reached(e, target, day, at[|at| - 1])
  {
    if Reached(e, target, day, |day| - 1) {
      var k :| 0 <= k < |day| && day[k].ts > e.time && day[k].high >= target;
      var i :| 0 <= i < |at| && at[i] == k;
      assert k <= at[|at| - 1];
    }
  }
}
