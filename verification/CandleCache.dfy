/**
 * Online OHLCV aggregation of one symbol's ticks into one timeframe, against batch grouping by floored time.
 * Timestamps are microseconds on a local axis whose days start at multiples of DAY.
 */
module CandleCache {
  import opened Wrappers

  const MINUTE := 60_000_000
  const DAY := 1440 * MINUTE
  const MAX_CANDLES := 600

  datatype Tick = Tick(ts: int, open: real, high: real, low: real, ltp: real, volume: int)

  datatype Candle = Candle(ts: int, open: real, high: real, low: real, close: real, volume: int)

  // ---------------------------------------------------------------- flooring

  /** The floor is the latest instant, not after t, that is a whole number of timeframes after midnight. */
  lemma FloorIsFloor(t: int, minutes: int) returns (n: int)
    requires minutes > 0
    ensures FloorTs(t, minutes) == t / DAY * DAY + n * (minutes * 60_000_000) && n >= 0
    ensures FloorTs(t, minutes) <= t < FloorTs(t, minutes) + minutes * 60_000_000
  {
    var m := t % DAY / MINUTE;
    n := m / minutes;
    var f := FloorTs(t, minutes);
    assert f == t - t % DAY + n * minutes * MINUTE;
    assert n * (minutes * MINUTE) == n * minutes * MINUTE;
    assert m < (n + 1) * minutes;
    hide FloorTs;
    WithinFrame(t % DAY, m, n, minutes);
  }

  lemma WithinFrame(rest: int, m: int, n: int, minutes: int)
    requires 0 <= rest && m == rest / MINUTE && n * minutes <= m < (n + 1) * minutes
    ensures n * minutes * MINUTE <= rest < n * minutes * MINUTE + minutes * MINUTE
  {
    assert m * MINUTE <= rest < (m + 1) * MINUTE;
    assert (n + 1) * minutes == n * minutes + minutes;
  }

  /** Down to a multiple of `minutes` since midnight; seconds and microseconds dropped. */
  function FloorTs(ts: int, minutes: int): (f: int)
    requires minutes > 0
  {
    var totalMin := ts % DAY / MINUTE;
    ts - ts % DAY + totalMin / minutes * minutes * MINUTE
  }

  lemma MulLess(a: int, b: int, d: int)
    requires d > 0
    ensures a < b ==> (a + 1) * d <= b * d
  {
    if a < b {
      assert (b - a - 1) * d >= 0;
    }
  }

  lemma DivUnique(x: int, d: int, q: int)
    requires d > 0 && q * d <= x < q * d + d
    ensures x / d == q
  {
    MulLess(x / d, q, d);
    MulLess(q, x / d, d);
  }

  lemma DivMonotone(x: int, y: int, d: int)
    requires d > 0 && x <= y
    ensures x / d <= y / d && x / d * d <= y / d * d
  {
    MulLess(y / d, x / d, d);
    MulLess(x / d, y / d, d);
  }

  /** Rounding down to a multiple of `a` first does not change the multiple of `k * a` one ends up at. */
  lemma DivCoarser(x: int, a: int, k: int)
    requires a > 0 && k > 0
    ensures k * a > 0 && x / a * a / (k * a) == x / (k * a)
  {
    assert k * a > 0;
    var q := x / (k * a);
    assert q * (k * a) == q * k * a;
    MulLess(x / a, q * k, a);
    DivUnique(x / a * a, k * a, q);
  }

  lemma FloorMonotone(s: int, t: int, minutes: int)
    requires minutes > 0 && s <= t
    ensures FloorTs(s, minutes) <= FloorTs(t, minutes) && FloorTs(t, minutes) <= t
  {
    FloorWithinDay(s, minutes);
    FloorWithinDay(t, minutes);
    if s - s % DAY == t - t % DAY {
      DivMonotone(s % DAY, t % DAY, MINUTE);
      DivMonotone(s % DAY / MINUTE, t % DAY / MINUTE, minutes);
    } else {
      LaterDay(s, t);
    }
  }

  lemma LaterDay(s: int, t: int)
    requires s <= t && s - s % DAY != t - t % DAY
    ensures s < t - t % DAY
  {
  }

  lemma FloorWithinDay(t: int, minutes: int)
    requires minutes > 0
    ensures t - t % DAY <= FloorTs(t, minutes) <= t
  {
  }

  /** Flooring to a fine timeframe and then to a multiple of it is flooring to the multiple at once. */
  lemma FloorCoarser(t: int, a: int, k: int)
    requires a > 0 && k > 0
    ensures k * a > 0 && FloorTs(FloorTs(t, a), k * a) == FloorTs(t, k * a)
  {
    var m := t % DAY / MINUTE;
    DivCoarser(m, a, k);
    FloorInDay(t, a, m / a * a);
    hide FloorTs;
    FloorIs(t, a);
    FloorIs(t, k * a);
    FloorIs(FloorTs(t, a), k * a);
  }

  lemma FloorIs(t: int, minutes: int)
    requires minutes > 0
    ensures FloorTs(t, minutes) == t - t % DAY + t % DAY / MINUTE / minutes * minutes * MINUTE
  {
  }

  /** A floored instant is on the same day, at the floored minute. */
  lemma FloorInDay(t: int, minutes: int, m: int)
    requires minutes > 0 && m == t % DAY / MINUTE / minutes * minutes
    ensures var f := FloorTs(t, minutes);
            f - f % DAY == t - t % DAY && f % DAY / MINUTE == m
  {
    FloorWithinDay(t, minutes);
    var f := FloorTs(t, minutes);
    hide FloorTs;
    FloorIs(t, minutes);
    SameDay(t, f, m);
  }

  lemma SameDay(t: int, f: int, m: int)
    requires f == t - t % DAY + m * MINUTE && t - t % DAY <= f <= t
    ensures f - f % DAY == t - t % DAY && f % DAY / MINUTE == m
  {
    DivUnique(f, DAY, t / DAY);
    DivUnique(f % DAY, MINUTE, m);
  }

  // ---------------------------------------------------------------- batch grouping, the reference

  function Max(a: real, b: real): real { if a >= b then a else b }

  function Min(a: real, b: real): real { if a <= b then a else b }

  function Highest(g: seq<Tick>): real
    requires g != []
  {
    if |g| == 1 then g[0].high else Max(g[0].high, Highest(g[1..]))
  }

  function Lowest(g: seq<Tick>): real
    requires g != []
  {
    if |g| == 1 then g[0].low else Min(g[0].low, Lowest(g[1..]))
  }

  function Volume(g: seq<Tick>): int {
    if g == [] then 0 else g[0].volume + Volume(g[1..])
  }

  /** The largest of the highs: none exceeds it, and one attains it. */
  lemma {:induction false} HighestIs(g: seq<Tick>)
    requires g != []
    ensures forall i :: 0 <= i < |g| ==> g[i].high <= Highest(g)
    ensures exists i :: 0 <= i < |g| && g[i].high == Highest(g)
  {
    if |g| > 1 {
      HighestIs(g[1..]);
      assert forall i :: 1 <= i < |g| ==> g[i] == g[1..][i - 1];
      var i :| 0 <= i < |g[1..]| && g[1..][i].high == Highest(g[1..]);
      assert g[i + 1].high == Highest(g[1..]) && g[0].high == g[0].high;
    } else {
      assert g[0].high == Highest(g);
    }
  }

  lemma {:induction false} LowestIs(g: seq<Tick>)
    requires g != []
    ensures forall i :: 0 <= i < |g| ==> g[i].low >= Lowest(g)
    ensures exists i :: 0 <= i < |g| && g[i].low == Lowest(g)
  {
    if |g| > 1 {
      LowestIs(g[1..]);
      assert forall i :: 1 <= i < |g| ==> g[i] == g[1..][i - 1];
      var i :| 0 <= i < |g[1..]| && g[1..][i].low == Lowest(g[1..]);
      assert g[i + 1].low == Lowest(g[1..]) && g[0].low == g[0].low;
    } else {
      assert g[0].low == Lowest(g);
    }
  }

  /** First open, highest high, lowest low, last price, total volume. */
  function Summary(g: seq<Tick>, ts: int): Candle
    requires g != []
  {
    Candle(ts, g[0].open, Highest(g), Lowest(g), g[|g| - 1].ltp, Volume(g))
  }

  /** The ticks whose floor is (or is not) f, in order. */
  function Select(ticks: seq<Tick>, tf: int, f: int, keep: bool): (r: seq<Tick>)
    requires tf > 0
    ensures |r| <= |ticks|
  {
    if ticks == [] then []
    else Sift(ticks[0], tf, f, keep) + Select(ticks[1..], tf, f, keep)
  }

  function Sift(t: Tick, tf: int, f: int, keep: bool): (r: seq<Tick>)
    requires tf > 0
    ensures |r| <= 1
  {
    if (FloorTs(t.ts, tf) == f) == keep then [t] else []
  }

  /** Group the whole stream by floored time. */
  function Batch(ticks: seq<Tick>, tf: int): seq<Candle>
    requires tf > 0
    decreases |ticks|
  {
    if ticks == [] then []
    else
      var f := FloorTs(ticks[0].ts, tf);
      assert Select(ticks, tf, f, false) == Select(ticks[1..], tf, f, false);
      [Summary(Select(ticks, tf, f, true), f)] + Batch(Select(ticks, tf, f, false), tf)
  }

  predicate Ordered(ticks: seq<Tick>) {
    forall i, j :: 0 <= i < j < |ticks| ==> ticks[i].ts <= ticks[j].ts
  }

  // ---------------------------------------------------------------- one more tick

  function Fresh(t: Tick, tf: int): Candle
    requires tf > 0
  {
    Candle(FloorTs(t.ts, tf), t.open, t.high, t.low, t.ltp, t.volume)
  }

  function Absorb(c: Candle, t: Tick): Candle {
    c.(high := Max(c.high, t.high), low := Min(c.low, t.low), close := t.ltp, volume := c.volume + t.volume)
  }

  /** What one more tick does to the candles so far. */
  function Extend(candles: seq<Candle>, t: Tick, tf: int): seq<Candle>
    requires tf > 0
  {
    if candles != [] && candles[|candles| - 1].ts == FloorTs(t.ts, tf)
    then candles[..|candles| - 1] + [Absorb(candles[|candles| - 1], t)]
    else candles + [Fresh(t, tf)]
  }

  lemma Single(t: Tick)
    ensures Highest([t]) == t.high && Lowest([t]) == t.low && Volume([t]) == t.volume
  {
    assert [t][1..] == [];
  }

  lemma {:induction false} SummarySnoc(g: seq<Tick>, t: Tick, ts: int)
    requires g != []
    ensures Summary(g + [t], ts) == Absorb(Summary(g, ts), t)
  {
    if |g| > 1 {
      SummarySnoc(g[1..], t, ts);
      assert (g + [t])[1..] == g[1..] + [t];
    } else {
      Single(t);
      Single(g[0]);
      assert g == [g[0]] && (g + [t])[1..] == [t];
    }
  }

  lemma {:induction false} SelectSnoc(ticks: seq<Tick>, t: Tick, tf: int, f: int, keep: bool)
    requires tf > 0
    ensures Select(ticks + [t], tf, f, keep)
         == Select(ticks, tf, f, keep) + Sift(t, tf, f, keep)
  {
    hide Sift;
    if ticks == [] {
      assert ticks + [t] == [t] && [t][1..] == [];
      assert Sift(t, tf, f, keep) + [] == Sift(t, tf, f, keep);
    } else {
      SelectSnoc(ticks[1..], t, tf, f, keep);
      assert (ticks + [t])[1..] == ticks[1..] + [t];
    }
  }

  lemma {:induction false} SelectIn(ticks: seq<Tick>, tf: int, f: int, keep: bool)
    requires tf > 0
    ensures forall t :: t in Select(ticks, tf, f, keep) <==> t in ticks && (FloorTs(t.ts, tf) == f) == keep
  {
    hide FloorTs;
    if ticks != [] {
      SelectIn(ticks[1..], tf, f, keep);
      assert ticks == [ticks[0]] + ticks[1..];
    }
  }

  lemma {:induction false} SelectOrdered(ticks: seq<Tick>, tf: int, f: int, keep: bool)
    requires tf > 0 && Ordered(ticks)
    ensures Ordered(Select(ticks, tf, f, keep))
  {
    hide FloorTs;
    if ticks != [] {
      var rest := Select(ticks[1..], tf, f, keep);
      SelectOrdered(ticks[1..], tf, f, keep);
      SelectIn(ticks[1..], tf, f, keep);
      forall i | 0 <= i < |rest|
        ensures ticks[0].ts <= rest[i].ts
      {
        assert rest[i] in ticks[1..];
      }
    }
  }

  lemma {:induction false} SelectAll(ticks: seq<Tick>, tf: int, f: int)
    requires tf > 0 && forall t :: t in ticks ==> FloorTs(t.ts, tf) == f
    ensures Select(ticks, tf, f, true) == ticks && Select(ticks, tf, f, false) == []
  {
    hide FloorTs;
    if ticks != [] {
      SelectAll(ticks[1..], tf, f);
    }
  }

  lemma BatchUnfold(ticks: seq<Tick>, tf: int, f: int)
    requires tf > 0 && ticks != [] && f == FloorTs(ticks[0].ts, tf)
    ensures Select(ticks, tf, f, true) != [] && |Select(ticks, tf, f, false)| < |ticks|
    ensures Batch(ticks, tf) == [Summary(Select(ticks, tf, f, true), f)] + Batch(Select(ticks, tf, f, false), tf)
  {
    hide FloorTs, Summary;
    assert Select(ticks, tf, f, false) == Select(ticks[1..], tf, f, false);
  }

  lemma SnocSame(ticks: seq<Tick>, t: Tick, tf: int, f: int)
    requires tf > 0 && ticks != [] && Ordered(ticks + [t])
    requires f == FloorTs(ticks[0].ts, tf) == FloorTs(t.ts, tf)
    ensures Batch(ticks + [t], tf) == Extend(Batch(ticks, tf), t, tf)
  {
    hide FloorTs, Summary, Absorb, Batch, Ordered, Select;
    Sandwich(ticks, t, tf);
    SelectAll(ticks, tf, f);
    SelectAll(ticks + [t], tf, f);
    assert (ticks + [t])[0] == ticks[0];
    BatchUnfold(ticks, tf, f);
    BatchUnfold(ticks + [t], tf, f);
    SummarySnoc(ticks, t, f);
    SummaryTs(ticks, f);
    NoTicks(tf);
  }

  lemma SummaryTs(g: seq<Tick>, ts: int)
    requires g != []
    ensures Summary(g, ts).ts == ts
  {
  }

  /** Batch grouping of a time-ordered stream can be done tick by tick, looking at the last candle only. */
  lemma {:induction false} BatchSnoc(ticks: seq<Tick>, t: Tick, tf: int)
    requires tf > 0 && Ordered(ticks + [t])
    ensures Batch(ticks + [t], tf) == Extend(Batch(ticks, tf), t, tf)
    decreases |ticks|
  {
    hide FloorTs, Summary, Absorb, Batch, Ordered;
    if ticks == [] {
      BatchOne(t, tf);
      assert ticks + [t] == [t];
    } else {
      var f := FloorTs(ticks[0].ts, tf);
      assert (ticks + [t])[0] == ticks[0];
      if FloorTs(t.ts, tf) == f {
        SnocSame(ticks, t, tf, f);
      } else {
        SelectSnoc(ticks, t, tf, f, true);
        SelectSnoc(ticks, t, tf, f, false);
        assert Select(ticks, tf, f, true) + [] == Select(ticks, tf, f, true);
        BatchUnfold(ticks, tf, f);
        BatchUnfold(ticks + [t], tf, f);
        var rest := Select(ticks, tf, f, false);
        SelectOrdered(ticks + [t], tf, f, false);
        BatchSnoc(rest, t, tf);
        SummaryTs(Select(ticks, tf, f, true), f);
        ExtendBehind([Summary(Select(ticks, tf, f, true), f)], Batch(rest, tf), t, tf);
      }
    }
  }

  lemma BatchOne(t: Tick, tf: int)
    requires tf > 0
    ensures Batch([], tf) == [] && Batch([t], tf) == [Fresh(t, tf)]
  {
    hide FloorTs;
    SelectAll([t], tf, FloorTs(t.ts, tf));
    BatchUnfold([t], tf, FloorTs(t.ts, tf));
    Single(t);
  }

  lemma ExtendBehind(head: seq<Candle>, tail: seq<Candle>, t: Tick, tf: int)
    requires tf > 0 && |head| == 1 && (tail == [] ==> head[0].ts != FloorTs(t.ts, tf))
    ensures Extend(head + tail, t, tf) == head + Extend(tail, t, tf)
  {
    hide FloorTs;
    var all := head + tail;
    if tail != [] {
      assert all[|all| - 1] == tail[|tail| - 1] && all[..|all| - 1] == head + tail[..|tail| - 1];
    }
  }

  /** If the last tick of an ordered stream falls into the first tick's bucket, all of them do. */
  lemma Sandwich(ticks: seq<Tick>, t: Tick, tf: int)
    requires tf > 0 && ticks != [] && Ordered(ticks + [t]) && FloorTs(t.ts, tf) == FloorTs(ticks[0].ts, tf)
    ensures forall u :: u in ticks ==> FloorTs(u.ts, tf) == FloorTs(ticks[0].ts, tf)
  {
    hide FloorTs;
    var all := ticks + [t];
    forall u | u in ticks
      ensures FloorTs(u.ts, tf) == FloorTs(ticks[0].ts, tf)
    {
      var i :| 0 <= i < |ticks| && ticks[i] == u;
      assert all[i] == u && all[0] == ticks[0] && all[|ticks|] == t;
      FloorMonotone(ticks[0].ts, u.ts, tf);
      FloorMonotone(u.ts, t.ts, tf);
    }
  }

  // ---------------------------------------------------------------- streams out of order

  /** How many ticks at the start of a stream share the first one's floor. */
  function RunLength(ticks: seq<Tick>, tf: int): (n: nat)
    requires tf > 0 && ticks != []
    ensures 0 < n <= |ticks|
    ensures forall i :: 0 <= i < n ==> FloorTs(ticks[i].ts, tf) == FloorTs(ticks[0].ts, tf)
    ensures n < |ticks| ==> FloorTs(ticks[n].ts, tf) != FloorTs(ticks[0].ts, tf)
  {
    if |ticks| == 1 || FloorTs(ticks[1].ts, tf) != FloorTs(ticks[0].ts, tf) then 1 else 1 + RunLength(ticks[1..], tf)
  }

  /** One candle for each stretch of neighbouring ticks with the same floor, whatever the order of their times. */
  function Stretches(ticks: seq<Tick>, tf: int): seq<Candle>
    requires tf > 0
    decreases |ticks|
  {
    if ticks == [] then []
    else
      var n := RunLength(ticks, tf);
      [Summary(ticks[..n], FloorTs(ticks[0].ts, tf))] + Stretches(ticks[n..], tf)
  }

  lemma RunLengthIs(ticks: seq<Tick>, tf: int, n: nat)
    requires tf > 0 && 0 < n <= |ticks|
    requires forall i :: 0 <= i < n ==> FloorTs(ticks[i].ts, tf) == FloorTs(ticks[0].ts, tf)
    requires n < |ticks| ==> FloorTs(ticks[n].ts, tf) != FloorTs(ticks[0].ts, tf)
    ensures RunLength(ticks, tf) == n
  {
    hide FloorTs;
  }

  /** One more tick extends the stretches of any stream, in order or not, at the last candle only. */
  lemma {:induction false} StretchesSnoc(ticks: seq<Tick>, t: Tick, tf: int)
    requires tf > 0
    ensures Stretches(ticks + [t], tf) == Extend(Stretches(ticks, tf), t, tf)
    decreases |ticks|
  {
    hide FloorTs, Summary, Absorb, RunLength;
    var all := ticks + [t];
    if ticks == [] {
      Single(t);
      StretchOne(t, tf);
      assert all == [t];
    } else {
      var n, f := RunLength(ticks, tf), FloorTs(ticks[0].ts, tf);
      SummaryTs(ticks[..n], f);
      if n < |ticks| {
        RunLengthIs(all, tf, n);
        assert all[..n] == ticks[..n] && all[n..] == ticks[n..] + [t];
        StretchesSnoc(ticks[n..], t, tf);
        ExtendBehind([Summary(ticks[..n], f)], Stretches(ticks[n..], tf), t, tf);
      } else if FloorTs(t.ts, tf) == f {
        RunLengthIs(all, tf, n + 1);
        assert ticks[..n] == ticks && all[..n + 1] == all && all[n + 1..] == [];
        SummarySnoc(ticks, t, f);
      } else {
        RunLengthIs(all, tf, n);
        assert all[..n] == ticks[..n] && all[n..] == [t];
        StretchOne(t, tf);
      }
    }
  }

  lemma StretchOne(t: Tick, tf: int)
    requires tf > 0
    ensures Stretches([], tf) == [] && Stretches([t], tf) == [Fresh(t, tf)]
  {
    hide FloorTs;
    assert [t][..1] == [t];
    Single(t);
  }

  /** On a stream in time order the stretches are the batch grouping. */
  lemma {:induction false} StretchesBatch(ticks: seq<Tick>, tf: int)
    requires tf > 0 && Ordered(ticks)
    ensures Stretches(ticks, tf) == Batch(ticks, tf)
  {
    hide FloorTs, Stretches, Batch, Extend;
    if ticks == [] {
      StretchOne(Tick(0, 0.0, 0.0, 0.0, 0.0, 0), tf);
      NoTicks(tf);
    } else {
      var front, t := ticks[..|ticks| - 1], ticks[|ticks| - 1];
      assert ticks == front + [t];
      StretchesBatch(front, tf);
      StretchesSnoc(front, t, tf);
      BatchSnoc(front, t, tf);
    }
  }

  // ---------------------------------------------------------------- what a candle says of its ticks

  function Total(ticks: seq<Tick>): int {
    if ticks == [] then 0 else Total(ticks[..|ticks| - 1]) + ticks[|ticks| - 1].volume
  }

  /** The candle of the ticks from one place to another: their common floor, first open and last price; all of them lie
      within its low and high, which are attained; and it has their volume. */
  predicate Covers(ticks: seq<Tick>, tf: int, c: Candle, from: nat, to: nat)
    requires tf > 0 && from < to <= |ticks|
  {
    c.open == ticks[from].open && c.close == ticks[to - 1].ltp
    && (forall i :: from <= i < to ==>
          FloorTs(ticks[i].ts, tf) == c.ts && c.low <= ticks[i].low && ticks[i].high <= c.high)
    && (exists i :: from <= i < to && c.high == ticks[i].high) && (exists i :: from <= i < to && c.low == ticks[i].low)
    && c.volume == Total(ticks[..to]) - Total(ticks[..from])
  }

  /** The k-th candle covers the ticks between its two cuts, and the floor changes from one candle to the next. */
  predicate Piece(ticks: seq<Tick>, tf: int, cs: seq<Candle>, cuts: seq<nat>, k: nat)
    requires tf > 0 && k < |cs| && |cuts| == |cs| + 1
  {
    cuts[k] < cuts[k + 1] <= |ticks| && Covers(ticks, tf, cs[k], cuts[k], cuts[k + 1])
    && (k > 0 ==> cs[k - 1].ts != cs[k].ts)
  }

  /** Candles cover a stream piece by piece, from its first tick to its last. */
  predicate Pieces(ticks: seq<Tick>, tf: int, cs: seq<Candle>, cuts: seq<nat>)
    requires tf > 0
  {
    |cuts| == |cs| + 1 && cuts[0] == 0 && cuts[|cs|] == |ticks|
    && forall k :: 0 <= k < |cs| ==> Piece(ticks, tf, cs, cuts, k)
  }

  lemma CoversMore(ticks: seq<Tick>, t: Tick, tf: int, c: Candle, from: nat, to: nat)
    requires tf > 0 && from < to <= |ticks| && Covers(ticks, tf, c, from, to)
    ensures Covers(ticks + [t], tf, c, from, to)
  {
    hide FloorTs;
    assert (ticks + [t])[..to] == ticks[..to] && (ticks + [t])[..from] == ticks[..from];
    assert forall i :: 0 <= i < |ticks| ==> (ticks + [t])[i] == ticks[i];
    var i :| from <= i < to && c.high == ticks[i].high;
    var j :| from <= j < to && c.low == ticks[j].low;
    assert (ticks + [t])[i].high == c.high && (ticks + [t])[j].low == c.low;
  }

  lemma CoversAbsorb(ticks: seq<Tick>, t: Tick, tf: int, c: Candle, from: nat)
    requires tf > 0 && from < |ticks| && Covers(ticks, tf, c, from, |ticks|) && FloorTs(t.ts, tf) == c.ts
    ensures Covers(ticks + [t], tf, Absorb(c, t), from, |ticks| + 1)
  {
    hide FloorTs;
    var n, all := |ticks|, ticks + [t];
    assert all[..n + 1] == all && all[..n] == ticks && ticks[..n] == ticks && all[..from] == ticks[..from];
    assert forall i :: 0 <= i < n ==> all[i] == ticks[i];
    var i :| from <= i < n && c.high == ticks[i].high;
    var j :| from <= j < n && c.low == ticks[j].low;
    assert all[i].high == c.high && all[j].low == c.low && all[n].high == t.high && all[n].low == t.low;
  }

  lemma CoversFresh(ticks: seq<Tick>, t: Tick, tf: int)
    requires tf > 0
    ensures Covers(ticks + [t], tf, Fresh(t, tf), |ticks|, |ticks| + 1)
  {
    var n, all := |ticks|, ticks + [t];
    hide FloorTs;
    assert all[..n + 1] == all && all[..n] == ticks && all[n] == t;
    assert Fresh(t, tf).high == all[n].high && Fresh(t, tf).low == all[n].low;
  }

  lemma PiecesExtend(ticks: seq<Tick>, t: Tick, tf: int, cs: seq<Candle>, cuts: seq<nat>) returns (cuts': seq<nat>)
    requires tf > 0 && Pieces(ticks, tf, cs, cuts)
    ensures Pieces(ticks + [t], tf, Extend(cs, t, tf), cuts')
  {
    hide FloorTs, Covers, Absorb, Fresh;
    var all, cs', m := ticks + [t], Extend(cs, t, tf), |cs| - 1;
    NewTs(t, tf, if cs == [] then Fresh(t, tf) else cs[m]);
    if cs != [] && cs[m].ts == FloorTs(t.ts, tf) {
      cuts' := cuts[|cs| := |all|];
      assert Piece(ticks, tf, cs, cuts, m);
      CoversAbsorb(ticks, t, tf, cs[m], cuts[m]);
      assert cs' == cs[m := Absorb(cs[m], t)];
      forall k | 0 <= k < m
        ensures Piece(all, tf, cs', cuts', k)
      {
        PieceMore(ticks, t, tf, cs, cuts, k);
      }
      assert Piece(all, tf, cs', cuts', m);
    } else {
      cuts' := cuts + [|all|];
      CoversFresh(ticks, t, tf);
      forall k | 0 <= k < |cs|
        ensures Piece(all, tf, cs', cuts', k)
      {
        PieceMore(ticks, t, tf, cs, cuts, k);
      }
      assert Piece(all, tf, cs', cuts', |cs|);
    }
  }

  lemma PieceMore(ticks: seq<Tick>, t: Tick, tf: int, cs: seq<Candle>, cuts: seq<nat>, k: nat)
    requires tf > 0 && k < |cs| && |cuts| == |cs| + 1 && Piece(ticks, tf, cs, cuts, k)
    ensures Piece(ticks + [t], tf, cs, cuts, k)
  {
    hide Covers;
    CoversMore(ticks, t, tf, cs[k], cuts[k], cuts[k + 1]);
  }

  lemma NewTs(t: Tick, tf: int, c: Candle)
    requires tf > 0
    ensures Fresh(t, tf).ts == FloorTs(t.ts, tf) && Absorb(c, t).ts == c.ts
  {
    hide FloorTs;
  }

  /** The stretches of any stream cover it piece by piece. */
  lemma {:induction false} StretchesCover(ticks: seq<Tick>, tf: int) returns (cuts: seq<nat>)
    requires tf > 0
    ensures Pieces(ticks, tf, Stretches(ticks, tf), cuts)
  {
    hide Stretches, FloorTs, Covers, Extend;
    if ticks == [] {
      StretchOne(Tick(0, 0.0, 0.0, 0.0, 0.0, 0), tf);
      cuts := [0];
    } else {
      var front, t := ticks[..|ticks| - 1], ticks[|ticks| - 1];
      assert ticks == front + [t];
      var before := StretchesCover(front, tf);
      StretchesSnoc(front, t, tf);
      cuts := PiecesExtend(front, t, tf, Stretches(front, tf), before);
    }
  }

  // ---------------------------------------------------------------- coherence across timeframes

  function AsTick(c: Candle): Tick { Tick(c.ts, c.open, c.high, c.low, c.close, c.volume) }

  function AsTicks(cs: seq<Candle>): seq<Tick> {
    if cs == [] then [] else AsTicks(cs[..|cs| - 1]) + [AsTick(cs[|cs| - 1])]
  }

  lemma {:induction false} AsTicksAt(cs: seq<Candle>)
    ensures |AsTicks(cs)| == |cs| && forall i :: 0 <= i < |cs| ==> AsTicks(cs)[i] == AsTick(cs[i])
  {
    if cs != [] {
      AsTicksAt(cs[..|cs| - 1]);
    }
  }

  predicate Rising(cs: seq<Candle>) {
    forall i, j :: 0 <= i < j < |cs| ==> cs[i].ts < cs[j].ts
  }

  /** Candles come out in strictly rising time, the last one holding the last tick, and stand for all the ticks. */
  lemma {:induction false} BatchShape(ticks: seq<Tick>, tf: int)
    requires tf > 0 && Ordered(ticks)
    ensures Rising(Batch(ticks, tf))
    ensures ticks != [] ==>
              var cs := Batch(ticks, tf);
              cs != [] && cs[|cs| - 1].ts == FloorTs(ticks[|ticks| - 1].ts, tf)
    decreases |ticks|
  {
    hide FloorTs;
    if ticks != [] {
      var front, t := ticks[..|ticks| - 1], ticks[|ticks| - 1];
      assert ticks == front + [t];
      BatchShape(front, tf);
      BatchSnoc(front, t, tf);
      if front != [] {
        FloorMonotone(front[|front| - 1].ts, t.ts, tf);
      } else {
        assert Batch(front, tf) == [];
      }
    }
  }

  /** Coarse candles are the merge of the fine ones: grouping the ticks by `k * a` minutes is grouping the
      `a`-minute candles by `k * a` minutes. */
  lemma {:induction false} CoarseFromFine(ticks: seq<Tick>, a: int, k: int)
    requires a > 0 && k > 0 && Ordered(ticks)
    ensures k * a > 0 && Batch(ticks, k * a) == Batch(AsTicks(Batch(ticks, a)), k * a)
    decreases |ticks|
  {
    hide FloorTs, Batch, Extend;
    assert k * a > 0;
    if ticks == [] {
      assert Batch(ticks, a) == [] && Batch(ticks, k * a) == [] by { NoTicks(a); NoTicks(k * a); }
    } else {
      var front, t := ticks[..|ticks| - 1], ticks[|ticks| - 1];
      assert ticks == front + [t];
      CoarseFromFine(front, a, k);
      BatchSnoc(front, t, a);
      BatchSnoc(front, t, k * a);
      FloorCoarser(t.ts, a, k);
      BatchShape(front, a);
      BatchShape(ticks, a);
      CoarserStep(Batch(front, a), t, a, k * a);
    }
  }

  lemma NoTicks(tf: int)
    requires tf > 0
    ensures Batch([], tf) == []
  {
  }

  /** Extending the fine candles by a tick and then grouping them coarsely is grouping and then extending. */
  lemma CoarserStep(fine: seq<Candle>, t: Tick, a: int, b: int)
    requires a > 0 && b > 0 && Rising(fine) && Rising(Extend(fine, t, a))
    requires FloorTs(FloorTs(t.ts, a), b) == FloorTs(t.ts, b)
    ensures Batch(AsTicks(Extend(fine, t, a)), b) == Extend(Batch(AsTicks(fine), b), t, b)
  {
    hide FloorTs, Batch, Rising;
    var fine' := Extend(fine, t, a);
    OrderedTicks(fine);
    OrderedTicks(fine');
    var y := AsTick(fine'[|fine'| - 1]);
    assert AsTicks(fine') == AsTicks(fine'[..|fine'| - 1]) + [y];
    BatchSnoc(AsTicks(fine'[..|fine'| - 1]), y, b);
    if fine != [] && fine[|fine| - 1].ts == FloorTs(t.ts, a) {
      var older, x := fine[..|fine| - 1], AsTick(fine[|fine| - 1]);
      assert fine'[..|fine'| - 1] == older;
      BatchSnoc(AsTicks(older), x, b);
      ExtendTwice(Batch(AsTicks(older), b), x, y, t, b);
    } else {
      assert fine'[..|fine'| - 1] == fine;
    }
  }

  function AsCandle(x: Tick): Candle { Candle(x.ts, x.open, x.high, x.low, x.ltp, x.volume) }

  /** Extending by a candle that absorbed t is extending by the candle and then by t. */
  lemma ExtendTwice(cs: seq<Candle>, x: Tick, y: Tick, t: Tick, b: int)
    requires b > 0 && y == AsTick(Absorb(AsCandle(x), t))
    requires FloorTs(x.ts, b) == FloorTs(t.ts, b)
    ensures Extend(cs, y, b) == Extend(Extend(cs, x, b), t, b)
  {
    hide FloorTs;
    var f := FloorTs(x.ts, b);
    assert y.ts == x.ts && Fresh(x, b).ts == f;
    assert Fresh(y, b) == Absorb(Fresh(x, b), t);
    if cs != [] && cs[|cs| - 1].ts == f {
      var last := cs[|cs| - 1];
      AbsorbTwice(last, x, y, t);
      assert Absorb(last, x).ts == f;
      LastExtends(cs[..|cs| - 1], Absorb(last, x), t, b);
    } else {
      LastExtends(cs, Fresh(x, b), t, b);
    }
  }

  lemma AbsorbTwice(c: Candle, x: Tick, y: Tick, t: Tick)
    requires y == AsTick(Absorb(AsCandle(x), t))
    ensures Absorb(c, y) == Absorb(Absorb(c, x), t)
  {
  }

  lemma LastExtends(cs: seq<Candle>, last: Candle, t: Tick, b: int)
    requires b > 0 && last.ts == FloorTs(t.ts, b)
    ensures Extend(cs + [last], t, b) == cs + [Absorb(last, t)]
  {
    hide FloorTs;
    assert (cs + [last])[..|cs|] == cs;
  }

  lemma OrderedTicks(cs: seq<Candle>)
    requires Rising(cs)
    ensures Ordered(AsTicks(cs))
  {
    AsTicksAt(cs);
  }

  // ---------------------------------------------------------------- the series

  class Bucket {
    var ts: int
    var open: real
    var high: real
    var low: real
    var close: real
    var volume: int

    constructor (ts: int, o: real, h: real, l: real, c: real, v: int)
      ensures Value() == Candle(ts, o, h, l, c, v)
    {
      this.ts, open, high, low, close, volume := ts, o, h, l, c, v;
    }

    function Value(): Candle
      reads this
    {
      Candle(ts, open, high, low, close, volume)
    }

    method Update(t: Tick)
      modifies this
      ensures Value() == Absorb(old(Value()), t)
    {
      high := if high >= t.high then high else t.high;
      low := if low <= t.low then low else t.low;
      close := t.ltp;
      volume := volume + t.volume;
    }
  }

  function LastN(cs: seq<Candle>, n: nat): seq<Candle> {
    if |cs| <= n then cs else cs[|cs| - n..]
  }

  class CandleSeries {
    const tf: int
    var candles: seq<Candle>
    var bucket: Bucket?
    ghost var seen: seq<Tick>
    ghost var closed: seq<Candle>

    constructor (minutes: int)
      requires minutes > 0
      ensures Valid() && tf == minutes && seen == [] && candles == [] && bucket == null
    {
      tf, candles, bucket, seen, closed := minutes, [], null, [], [];
    }

    /** Everything committed plus the open bucket is one candle for each stretch of what was seen, hence the batch
        grouping when it came in order; the deque keeps the last 600. */
    ghost predicate Valid()
      reads this, bucket
    {
      tf > 0 && Stretches(seen, tf) == closed + (if bucket == null then [] else [bucket.Value()])
      && (bucket == null <==> seen == [])
      && candles == LastN(closed, MAX_CANDLES)
    }

    method OnTick(t: Tick) returns (event: Option<Candle>)
      requires Valid()
      modifies this, bucket
      ensures Valid() && seen == old(seen) + [t]
      ensures event.Some? <==> old(bucket) != null && old(bucket.ts) != FloorTs(t.ts, tf)
      ensures closed == old(closed) + if event.Some? then [event.value] else []
      ensures event.Some? ==> event.value == old(Stretches(seen, tf)[|Stretches(seen, tf)| - 1])
      ensures bucket == old(bucket) || fresh(bucket)
    {
      hide FloorTs, Stretches, Batch, LastN;
      StretchesSnoc(seen, t, tf);
      StretchOne(t, tf);
      ghost var before := Stretches(seen, tf);
      var ts := FloorTs(t.ts, tf);
      event := None;
      if bucket == null || bucket.ts != ts {
        if bucket != null {
          event := Some(bucket.Value());
          Evicts(closed, bucket.Value());
          candles := LastN(candles + [bucket.Value()], MAX_CANDLES);
          closed := closed + [bucket.Value()];
        }
        bucket := new Bucket(ts, t.open, t.high, t.low, t.ltp, t.volume);
      } else {
        bucket.Update(t);
        assert before[..|before| - 1] == closed;
      }
      seen := seen + [t];
    }

    /** The candles say what came in: each covers the ticks of its piece, none left out. */
    lemma CoversSeen() returns (cuts: seq<nat>)
      requires Valid()
      ensures Pieces(seen, tf, closed + (if bucket == null then [] else [bucket.Value()]), cuts)
    {
      cuts := StretchesCover(seen, tf);
    }

    /** For ticks in time order the candles are those of the batch grouping. */
    lemma IsBatch()
      requires Valid() && Ordered(seen)
      ensures Batch(seen, tf) == closed + (if bucket == null then [] else [bucket.Value()])
    {
      StretchesBatch(seen, tf);
    }
  }

  /** The deque holds the last candles committed, all of them up to 600. */
  lemma LastNIs(cs: seq<Candle>, n: nat)
    ensures var r := LastN(cs, n);
            |r| <= |cs| && |r| <= n && (|r| == n || |r| == |cs|)
            && forall i :: 0 <= i < |r| ==> r[i] == cs[|cs| - |r| + i]
  {
  }

  lemma Evicts(cs: seq<Candle>, c: Candle)
    ensures LastN(LastN(cs, MAX_CANDLES) + [c], MAX_CANDLES) == LastN(cs + [c], MAX_CANDLES)
  {
  }
}
