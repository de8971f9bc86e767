/**
 * One side of one trading day: which of the confirmed entries are taken.
 * Times are seconds from the midnight that starts the day.
 */
module SessionLoop {
  import opened Rounding
  import opened TradeSimulator
  import opened Wrappers

  datatype Entry = Entry(ltf: LtfEntry, zoneHigh: real)

  datatype Trade = Trade(index: nat, res: TradeResult)

  const MAX_SL_BEFORE_T1 := 2
  const WINDOW_START := 14 * 3600 + 30 * 60
  const CUTOFF := 22 * 3600 + 45 * 60

  function ZoneKey(e: Entry): real { RoundTo(e.zoneHigh, 0.1) }

  predicate InWindow(t: int) { WINDOW_START <= t % DAY < CUTOFF }

  /** A stop-out before T1. */
  predicate Failed(t: Trade) { t.res.reason == SL && !t.res.t1Done }

  function Failures(trades: seq<Trade>): nat {
    if trades == [] then 0
    else Failures(trades[..|trades| - 1]) + if Failed(trades[|trades| - 1]) then 1 else 0
  }

  /** The exit as it is written and read back: hours and minutes on this day. */
  function ExitMinute(t: Trade): (m: int)
    requires t.res.exitTime.Some?
  {
    t.res.exitTime.value % DAY / 60 * 60
  }

  // ---------------------------------------------------------------- the specification

  /** An entry is passed over exactly when the day is stopped, it is outside the window, its zone stopped out
      before, or a closed trade's exit does not lie before it. Trades left open do not matter. */
  predicate Blocked(entries: seq<Entry>, earlier: seq<Trade>, e: Entry)
    requires forall i :: 0 <= i < |earlier| ==> earlier[i].index < |entries|
  {
    Failures(earlier) >= MAX_SL_BEFORE_T1
    || !InWindow(e.ltf.time)
    || (exists i :: 0 <= i < |earlier| && Failed(earlier[i]) && ZoneKey(entries[earlier[i].index]) == ZoneKey(e))
    || (exists i :: 0 <= i < |earlier| && earlier[i].res.exitTime.Some? && e.ltf.time <= ExitMinute(earlier[i]))
  }

  predicate Ordered(trades: seq<Trade>, bound: nat) {
    (forall i :: 0 <= i < |trades| ==> trades[i].index < bound)
    && forall i, j :: 0 <= i < j < |trades| ==> trades[i].index < trades[j].index
  }

  /** The trades on entries before the n-th. */
  function Before(trades: seq<Trade>, n: nat): (r: seq<Trade>)
    ensures |r| <= |trades| && r == trades[..|r|]
    ensures |r| > 0 ==> r[|r| - 1].index < n
    ensures |r| < |trades| ==> trades[|r|].index >= n
  {
    if trades == [] || trades[|trades| - 1].index < n then trades else Before(trades[..|trades| - 1], n)
  }

  predicate Took(trades: seq<Trade>, n: nat) { exists i :: 0 <= i < |trades| && trades[i].index == n }

  /** What a side of a day comes to: each entry taken if and only if nothing that happened before blocks it,
      and each trade taken is a run of the simulator. */
  ghost predicate DayRun(entries: seq<Entry>, day: seq<Bar>, scan: Scanner, trades: seq<Trade>, upto: nat)
    requires upto <= |entries|
  {
    Ordered(trades, upto)
    && (forall n :: 0 <= n < upto ==> Decided(entries, trades, n))
    && forall i :: 0 <= i < |trades| ==> Simulated(entries[trades[i].index], day, scan, trades[i].res)
  }

  predicate Decided(entries: seq<Entry>, trades: seq<Trade>, n: nat)
    requires n < |entries| && forall i :: 0 <= i < |trades| ==> trades[i].index < |entries|
  {
    Took(trades, n) <==> !Blocked(entries, Before(trades, n), entries[n])
  }

  ghost predicate Simulated(e: Entry, day: seq<Bar>, scan: Scanner, res: TradeResult) {
    exists t1, stops :: TradeRun(e.ltf, e.zoneHigh, day, scan, res, t1, stops)
  }

  /** The bars are this day's, and start on the minute. */
  predicate OfTheDay(day: seq<Bar>) { forall b :: b in day ==> 0 <= b.ts < DAY && b.ts % 60 == 0 }

  // ---------------------------------------------------------------- the loop

  method RunSide(entries: seq<Entry>, day: seq<Bar>, scan: Scanner) returns (trades: seq<Trade>)
    requires OfTheDay(day)
    ensures DayRun(entries, day, scan, trades, |entries|)
  {
    hide DayRun, Blocked, InWindow, Failures, Blacklists, ClosedBy, ZoneKey, TradeRun, StopPrice, AtEod;
    Opening(entries, day, scan);
    trades := [];
    var openUntil: Option<int> := None;
    var blacklisted: seq<real> := [];
    var slBeforeT1, dayStopped := 0, false;
    var n := 0;
    while n < |entries|
      invariant 0 <= n <= |entries| && DayRun(entries, day, scan, trades, n)
      invariant slBeforeT1 == Failures(trades) && (dayStopped <==> slBeforeT1 >= MAX_SL_BEFORE_T1)
      invariant Blacklists(entries, trades, blacklisted)
      invariant ClosedBy(trades, openUntil)
    {
      var e := entries[n];
      BlockedAt(entries, day, scan, trades, n, blacklisted, openUntil);
      n := n + 1;
      if dayStopped || !(WINDOW_START <= e.ltf.time % DAY <= CUTOFF) || e.ltf.time % DAY >= CUTOFF
         || ZoneKey(e) in blacklisted || (openUntil.Some? && e.ltf.time <= openUntil.value)
      {
        Skipped(entries, day, scan, trades, n - 1);
        continue;
      }
      var res := SimulateTrade(e.ltf, e.zoneHigh, day, scan);
      assert Simulated(e, day, scan, res);
      ghost var t1, stops :| TradeRun(e.ltf, e.zoneHigh, day, scan, res, t1, stops);
      ExitAfterEntry(e.ltf, e.zoneHigh, day, scan, res, t1, stops);
      Taken(entries, day, scan, trades, n - 1, res);
      Closing(trades, Trade(n - 1, res), day, openUntil);
      Listing(entries, trades, Trade(n - 1, res), blacklisted);
      trades := trades + [Trade(n - 1, res)];
      if res.reason == SL && !res.t1Done {
        slBeforeT1 := slBeforeT1 + 1;
        blacklisted := blacklisted + [ZoneKey(e)];
        if slBeforeT1 >= MAX_SL_BEFORE_T1 {
          dayStopped := true;
        }
      }
      if res.exitTime.Some? {
        openUntil := Some(res.exitTime.value % DAY / 60 * 60);
      }
    }
  }

  lemma Opening(entries: seq<Entry>, day: seq<Bar>, scan: Scanner)
    ensures DayRun(entries, day, scan, [], 0) && Failures([]) == 0 && Blacklists(entries, [], []) && ClosedBy([], None)
  {
  }

  /** The blacklist holds exactly the zone keys that stopped out. */
  predicate Blacklists(entries: seq<Entry>, trades: seq<Trade>, blacklisted: seq<real>) {
    (forall i :: 0 <= i < |trades| ==> trades[i].index < |entries|)
    && (forall i :: 0 <= i < |trades| && Failed(trades[i]) ==> ZoneKey(entries[trades[i].index]) in blacklisted)
    && forall k :: 0 <= k < |blacklisted| ==>
         exists i :: 0 <= i < |trades| && Failed(trades[i]) && ZoneKey(entries[trades[i].index]) == blacklisted[k]
  }

  /** `openUntil` is the latest exit of the closed trades. */
  predicate ClosedBy(trades: seq<Trade>, openUntil: Option<int>) {
    (forall i :: 0 <= i < |trades| && trades[i].res.exitTime.Some? ==>
      openUntil.Some? && ExitMinute(trades[i]) <= openUntil.value)
    && (openUntil.Some? ==>
          exists i :: 0 <= i < |trades| && trades[i].res.exitTime.Some? && ExitMinute(trades[i]) == openUntil.value)
  }

  /** The loop's guards, read off its variables, are the specification's. */
  lemma BlockedAt(entries: seq<Entry>, day: seq<Bar>, scan: Scanner, trades: seq<Trade>, n: nat,
                  blacklisted: seq<real>, openUntil: Option<int>)
    requires n < |entries| && DayRun(entries, day, scan, trades, n)
    requires Blacklists(entries, trades, blacklisted) && ClosedBy(trades, openUntil)
    ensures forall i :: 0 <= i < |trades| ==> trades[i].index < |entries|
    ensures var e := entries[n]; Blocked(entries, trades, e) <==>
              Failures(trades) >= MAX_SL_BEFORE_T1
              || !(WINDOW_START <= e.ltf.time % DAY <= CUTOFF) || e.ltf.time % DAY >= CUTOFF
              || ZoneKey(e) in blacklisted || (openUntil.Some? && e.ltf.time <= openUntil.value)
  {
    hide Simulated, Decided, Failures, ZoneKey, Failed, ExitMinute;
    var e := entries[n];
    if ZoneKey(e) in blacklisted {
      var k :| 0 <= k < |blacklisted| && blacklisted[k] == ZoneKey(e);
    }
  }

  lemma BeforeStable(trades: seq<Trade>, t: Trade, n: nat)
    requires Ordered(trades, t.index)
    ensures n <= t.index ==> Before(trades + [t], n) == Before(trades, n)
    ensures n >= t.index ==> Before(trades, n) == trades
  {
    assert (trades + [t])[..|trades|] == trades;
  }

  lemma Skipped(entries: seq<Entry>, day: seq<Bar>, scan: Scanner, trades: seq<Trade>, n: nat)
    requires n < |entries| && DayRun(entries, day, scan, trades, n) && Blocked(entries, trades, entries[n])
    ensures DayRun(entries, day, scan, trades, n + 1)
  {
    hide Blocked, Simulated;
    assert Before(trades, n) == trades;
    assert Decided(entries, trades, n);
  }

  lemma Taken(entries: seq<Entry>, day: seq<Bar>, scan: Scanner, trades: seq<Trade>, n: nat, res: TradeResult)
    requires n < |entries| && DayRun(entries, day, scan, trades, n) && !Blocked(entries, trades, entries[n])
    requires Simulated(entries[n], day, scan, res)
    ensures DayRun(entries, day, scan, trades + [Trade(n, res)], n + 1)
    ensures Failures(trades + [Trade(n, res)]) == Failures(trades) + if Failed(Trade(n, res)) then 1 else 0
  {
    hide Blocked, Simulated, Failed;
    var t := Trade(n, res);
    var trades' := trades + [t];
    assert trades'[..|trades|] == trades;
    forall m | 0 <= m < n + 1
      ensures Decided(entries, trades', m)
    {
      BeforeStable(trades, t, m);
      if m < n {
        assert Decided(entries, trades, m);
        assert Took(trades, m) <==> Took(trades', m) by {
          if Took(trades, m) {
            var i :| 0 <= i < |trades| && trades[i].index == m;
            assert trades'[i].index == m;
          }
        }
      } else {
        assert trades'[|trades|].index == n;
      }
    }
  }

  lemma Closing(trades: seq<Trade>, t: Trade, day: seq<Bar>, openUntil: Option<int>)
    requires OfTheDay(day) && ClosedBy(trades, openUntil)
    requires t.res.exitTime.Some? ==>
      (openUntil.Some? ==> t.res.exitTime.value > openUntil.value)
      && exists b :: b in day && b.ts == t.res.exitTime.value
    ensures ClosedBy(trades + [t], if t.res.exitTime.Some? then Some(ExitMinute(t)) else openUntil)
  {
    var trades' := trades + [t];
    assert trades'[|trades|] == t;
    if t.res.exitTime.Some? {
      MinuteExact(t, day);
    } else if openUntil.Some? {
      var i :| 0 <= i < |trades| && trades[i].res.exitTime.Some? && ExitMinute(trades[i]) == openUntil.value;
      assert trades'[i] == trades[i];
    }
  }

  lemma MinuteExact(t: Trade, day: seq<Bar>)
    requires OfTheDay(day) && t.res.exitTime.Some? && exists b :: b in day && b.ts == t.res.exitTime.value
    ensures ExitMinute(t) == t.res.exitTime.value
  {
  }

  lemma Listing(entries: seq<Entry>, trades: seq<Trade>, t: Trade, blacklisted: seq<real>)
    requires t.index < |entries| && Blacklists(entries, trades, blacklisted)
    ensures Blacklists(entries, trades + [t],
                       if Failed(t) then blacklisted + [ZoneKey(entries[t.index])] else blacklisted)
  {
    hide ZoneKey, Failed;
    var trades' := trades + [t];
    assert trades'[|trades|] == t;
    var blacklisted' := if Failed(t) then blacklisted + [ZoneKey(entries[t.index])] else blacklisted;
    forall k | 0 <= k < |blacklisted'|
      ensures exists i ::
                0 <= i < |trades'| && Failed(trades'[i]) && ZoneKey(entries[trades'[i].index]) == blacklisted'[k]
    {
      if k < |blacklisted| {
        var i :| 0 <= i < |trades| && Failed(trades[i]) && ZoneKey(entries[trades[i].index]) == blacklisted[k];
        assert trades'[i] == trades[i];
      }
    }
  }

  lemma {:induction false} BeforeIndex(trades: seq<Trade>, bound: nat, j: nat)
    requires Ordered(trades, bound) && j < |trades|
    ensures Before(trades, trades[j].index) == trades[..j]
  {
    var front := trades[..|trades| - 1];
    if j < |trades| - 1 {
      BeforeIndex(front, bound, j);
      assert front[j] == trades[j] && front[..j] == trades[..j];
    } else {
      assert front != [] ==> front[|front| - 1].index < trades[j].index;
    }
  }

  // ---------------------------------------------------------------- what every day guarantees

  /** Every trade of a day is a run of the simulator that nothing before it blocked. */
  lemma TakenUnblocked(entries: seq<Entry>, day: seq<Bar>, scan: Scanner, trades: seq<Trade>, j: nat)
    requires DayRun(entries, day, scan, trades, |entries|) && j < |trades|
    ensures forall k :: 0 <= k < |trades| ==> trades[k].index < |entries|
    ensures !Blocked(entries, trades[..j], entries[trades[j].index])
    ensures Simulated(entries[trades[j].index], day, scan, trades[j].res)
  {
    hide Simulated, Blocked;
    var n := trades[j].index;
    assert Took(trades, n) && Decided(entries, trades, n);
    BeforeIndex(trades, |entries|, j);
  }

  /** The three rules of a day: at most two stop-outs before T1, no zone entered again after it stopped out, and no
      trade before every earlier closed one is strictly over. */
  lemma DayRules(entries: seq<Entry>, day: seq<Bar>, scan: Scanner, trades: seq<Trade>, i: nat, j: nat)
    requires OfTheDay(day) && DayRun(entries, day, scan, trades, |entries|)
    requires i < j < |trades|
    ensures trades[i].index < |entries| && trades[j].index < |entries|
    ensures Failures(trades) <= MAX_SL_BEFORE_T1
    ensures Failed(trades[i]) ==> ZoneKey(entries[trades[i].index]) != ZoneKey(entries[trades[j].index])
    ensures trades[i].res.exitTime.Some? ==> trades[i].res.exitTime.value < entries[trades[j].index].ltf.time
    ensures InWindow(entries[trades[j].index].ltf.time)
  {
    StopOuts(entries, day, scan, trades);
    TakenUnblocked(entries, day, scan, trades, i);
    TakenUnblocked(entries, day, scan, trades, j);
    hide Simulated, ZoneKey, DayRun, InWindow, Failures, Failed;
    assert trades[..j][i] == trades[i];
    if trades[i].res.exitTime.Some? {
      OnTheMinute(entries[trades[i].index], day, scan, trades[i].res);
    }
  }

  lemma OnTheMinute(e: Entry, day: seq<Bar>, scan: Scanner, res: TradeResult)
    requires OfTheDay(day) && Simulated(e, day, scan, res) && res.exitTime.Some?
    ensures ExitMinute(Trade(0, res)) == res.exitTime.value > e.ltf.time
  {
    hide TradeRun;
    var t1, stops :| TradeRun(e.ltf, e.zoneHigh, day, scan, res, t1, stops);
    ExitAfterEntry(e.ltf, e.zoneHigh, day, scan, res, t1, stops);
  }

  lemma StopOuts(entries: seq<Entry>, day: seq<Bar>, scan: Scanner, trades: seq<Trade>)
    requires DayRun(entries, day, scan, trades, |entries|)
    ensures Failures(trades) <= MAX_SL_BEFORE_T1
  {
    if trades != [] {
      TakenUnblocked(entries, day, scan, trades, |trades| - 1);
      hide DayRun, Simulated, InWindow, ZoneKey;
      assert trades[..|trades|] == trades;
    }
  }

  // ---------------------------------------------------------------- which entries are taken, spelled out

  /** A zone's key is its high to one decimal: the nearest tenth, the even one when it lies halfway. */
  lemma ZoneKeyMeans(e: Entry) returns (tenths: int)
    ensures ZoneKey(e) == tenths as real * 0.1
    ensures e.zoneHigh - 0.05 <= ZoneKey(e) <= e.zoneHigh + 0.05
    ensures ZoneKey(e) == e.zoneHigh - 0.05 || ZoneKey(e) == e.zoneHigh + 0.05 ==> tenths % 2 == 0
  {
    tenths := RoundToMultiple(e.zoneHigh, 0.1);
  }

  /** A stop-out before T1, spelled out. */
  function StoppedOut(trades: seq<Trade>): set<int> {
    set i | 0 <= i < |trades| && trades[i].res.reason == SL && !trades[i].res.t1Done
  }

  lemma {:induction false} FailuresCount(trades: seq<Trade>)
    ensures Failures(trades) == |StoppedOut(trades)|
  {
    if trades != [] {
      var m := |trades| - 1;
      FailuresCount(trades[..m]);
      if Failed(trades[m]) {
        assert StoppedOut(trades) == StoppedOut(trades[..m]) + {m};
      } else {
        assert StoppedOut(trades) == StoppedOut(trades[..m]);
      }
    }
  }

  /** What speaks against the n-th entry: two stop-outs before T1 so far, a time outside 14:30 to 22:45, a stop-out of
      its own zone before, or an earlier trade closed no earlier than it. */
  predicate Against(entries: seq<Entry>, trades: seq<Trade>, n: nat, so: nat)
    requires n < |entries| && so <= |trades| && forall i :: 0 <= i < so ==> trades[i].index < |entries|
  {
    var e := entries[n];
    |StoppedOut(trades[..so])| >= 2
    || e.ltf.time % 86400 < 52200 || e.ltf.time % 86400 >= 81900
    || (exists i :: 0 <= i < so && trades[i].res.reason == SL && !trades[i].res.t1Done
                    && ZoneKey(entries[trades[i].index]) == ZoneKey(e))
    || (exists i :: 0 <= i < so && trades[i].res.exitTime.Some? && trades[i].res.exitTime.value >= e.ltf.time)
  }

  /** On every day an entry is taken if and only if nothing speaks against it, given the trades on earlier entries. */
  lemma TakenIff(entries: seq<Entry>, day: seq<Bar>, scan: Scanner, trades: seq<Trade>, n: nat) returns (so: nat)
    requires OfTheDay(day) && DayRun(entries, day, scan, trades, |entries|) && n < |entries|
    ensures so <= |trades| && forall i :: 0 <= i < |trades| ==> trades[i].index < |entries|
    ensures forall i :: 0 <= i < |trades| ==> (i < so <==> trades[i].index < n)
    ensures (exists i :: 0 <= i < |trades| && trades[i].index == n) <==> !Against(entries, trades, n, so)
  {
    hide Simulated, ZoneKey;
    so := |Before(trades, n)|;
    assert Decided(entries, trades, n);
    FailuresCount(trades[..so]);
    forall i | 0 <= i < so && trades[i].res.exitTime.Some?
      ensures ExitMinute(trades[i]) == trades[i].res.exitTime.value
    {
      TakenUnblocked(entries, day, scan, trades, i);
      OnTheMinute(entries[trades[i].index], day, scan, trades[i].res);
    }
    BlockedMeans(entries, trades, n, so);
  }

  lemma BlockedMeans(entries: seq<Entry>, trades: seq<Trade>, n: nat, so: nat)
    requires n < |entries| && so <= |trades| && forall i :: 0 <= i < |trades| ==> trades[i].index < |entries|
    requires Failures(trades[..so]) == |StoppedOut(trades[..so])|
    requires forall i :: 0 <= i < so && trades[i].res.exitTime.Some? ==>
      ExitMinute(trades[i]) == trades[i].res.exitTime.value
    ensures Blocked(entries, trades[..so], entries[n]) <==> Against(entries, trades, n, so)
  {
    hide Failures, StoppedOut, ZoneKey, ExitMinute;
    assert forall i :: 0 <= i < so ==> trades[..so][i] == trades[i];
  }
}
