/**
 * The token bucket in front of every broker call. Callers interleave freely between awaits, so a run is a sequence
 * of passes through the acquire loop, by whoever, at non-decreasing clock readings.
 */
module RateLimiter {

  /** One pass: the clock reading, the tokens wanted, and whether it is its caller's first (lazy initialisation). */
  datatype Pass = Pass(now: real, want: int, begin: bool)

  datatype State = State(tokens: real, lastRefill: real)

  function Min(a: real, b: real): real { if a <= b then a else b }

  /** The tokens that accrue between two instants. */
  function Accrued(rate: real, from: real, to: real): real { (to - from) * rate }

  lemma AccruedOrder(rate: real, a: real, b: real, c: real)
    requires rate > 0.0 && a <= b <= c
    ensures 0.0 <= Accrued(rate, a, b) <= Accrued(rate, a, c) == Accrued(rate, a, b) + Accrued(rate, b, c)
    ensures Accrued(rate, c, c) == 0.0
  {
    assert (b - a) * rate >= 0.0 && (c - b) * rate >= 0.0;
  }

  /** The level after the refill of a pass. */
  function Level(rate: real, burst: nat, s: State, p: Pass): real {
    var last := if p.begin && s.lastRefill == 0.0 then p.now else s.lastRefill;
    Min(burst as real, s.tokens + Accrued(rate, last, p.now))
  }

  predicate Grants(rate: real, burst: nat, s: State, p: Pass) { Level(rate, burst, s, p) >= p.want as real }

  function Next(rate: real, burst: nat, s: State, p: Pass): State {
    State(Level(rate, burst, s, p) - if Grants(rate, burst, s, p) then p.want as real else 0.0, p.now)
  }

  /** The bucket after a run that starts full. */
  function After(rate: real, burst: nat, run: seq<Pass>): State {
    if run == [] then State(burst as real, 0.0)
    else Next(rate, burst, After(rate, burst, run[..|run| - 1]), run[|run| - 1])
  }

  /** The tokens handed out by the passes from the i-th on. */
  function Taken(rate: real, burst: nat, run: seq<Pass>, i: nat): int {
    if |run| <= i then 0
    else
      var front, p := run[..|run| - 1], run[|run| - 1];
      Taken(rate, burst, front, i) + if Grants(rate, burst, After(rate, burst, front), p) then p.want else 0
  }

  /** A monotone clock that does not start below zero; every pass wants something. */
  predicate Clocked(run: seq<Pass>) {
    (forall i :: 0 <= i < |run| ==> run[i].now >= 0.0 && run[i].want > 0)
    && forall i, j :: 0 <= i <= j < |run| ==> run[i].now <= run[j].now
  }

  lemma RefillBounds(rate: real, burst: nat, s: State, p: Pass)
    requires rate > 0.0 && 0.0 <= s.tokens <= burst as real && s.lastRefill <= p.now
    ensures 0.0 <= Level(rate, burst, s, p) <= burst as real
    ensures Level(rate, burst, s, p) <= s.tokens + Accrued(rate, s.lastRefill, p.now)
  {
    hide Accrued;
    AccruedOrder(rate, s.lastRefill, p.now, p.now);
  }

  lemma {:induction false} AlwaysBounded(rate: real, burst: nat, run: seq<Pass>)
    requires rate > 0.0 && Clocked(run)
    ensures var s := After(rate, burst, run);
            0.0 <= s.tokens <= burst as real && s.lastRefill == if run == [] then 0.0 else run[|run| - 1].now
  {
    hide Level;
    if run != [] {
      var front := run[..|run| - 1];
      AlwaysBounded(rate, burst, front);
      RefillBounds(rate, burst, After(rate, burst, front), run[|run| - 1]);
    }
  }

  /** The rate limit: in any stretch of any run, what was handed out, plus what is left at its end, is at most the
      burst plus what accrues in the time the stretch took. */
  lemma {:induction false} WindowBudget(rate: real, burst: nat, run: seq<Pass>, i: nat)
    requires rate > 0.0 && Clocked(run) && i < |run|
    ensures After(rate, burst, run).tokens + Taken(rate, burst, run, i) as real
         <= burst as real + Accrued(rate, run[i].now, run[|run| - 1].now)
  {
    hide Level, Accrued;
    var front, p := run[..|run| - 1], run[|run| - 1];
    var s := After(rate, burst, front);
    AlwaysBounded(rate, burst, front);
    RefillBounds(rate, burst, s, p);
    if i < |front| {
      WindowBudget(rate, burst, front, i);
      assert front[i] == run[i] && front[|front| - 1].now == s.lastRefill;
      AccruedOrder(rate, run[i].now, s.lastRefill, p.now);
    } else {
      assert Taken(rate, burst, front, i) == 0;
      AccruedOrder(rate, p.now, p.now, p.now);
    }
  }

  /** Between the i-th and the j-th pass of a run no more than burst + rate * time is handed out. */
  lemma WindowLimit(rate: real, burst: nat, run: seq<Pass>, i: nat, j: nat)
    requires rate > 0.0 && Clocked(run) && i <= j < |run|
    ensures Taken(rate, burst, run[..j + 1], i) as real <= burst as real + (run[j].now - run[i].now) * rate
  {
    hide Level, After, Taken;
    WindowBudget(rate, burst, run[..j + 1], i);
    AlwaysBounded(rate, burst, run[..j + 1]);
  }

  /** A pass can be granted, now or later, exactly when it wants no more than the bucket can hold: anything bigger
      waits for ever. */
  lemma GrantableIffFits(rate: real, burst: nat, run: seq<Pass>, want: int)
    requires rate > 0.0 && Clocked(run) && want > 0
    ensures want <= burst <==>
            exists p: Pass :: p.want == want && Clocked(run + [p]) && Grants(rate, burst, After(rate, burst, run), p)
  {
    AlwaysBounded(rate, burst, run);
    var s := After(rate, burst, run);
    hide After, Accrued, Level;
    if want <= burst {
      var p := Pass(s.lastRefill + burst as real / rate, want, false);
      assert p.now >= s.lastRefill by { Quotient(burst as real, rate); }
      Enough(rate, burst, s, p, burst as real);
      assert Clocked(run + [p]);
    }
    forall p: Pass | p.want == want && Clocked(run + [p]) && Grants(rate, burst, s, p)
      ensures want <= burst
    {
      assert (run + [p])[|run|] == p && forall i :: 0 <= i < |run| ==> run[i] == (run + [p])[i];
      RefillBounds(rate, burst, s, p);
    }
  }

  lemma Quotient(x: real, rate: real)
    requires rate > 0.0 && x >= 0.0
    ensures x / rate >= 0.0 && x / rate * rate == x
  {
  }

  /** Waiting `deficit / rate` or longer fills the bucket by the deficit, up to the brim. */
  lemma Enough(rate: real, burst: nat, s: State, p: Pass, deficit: real)
    requires rate > 0.0 && 0.0 <= s.tokens <= burst as real && !p.begin && 0 < p.want <= burst && deficit >= 0.0
    requires p.now >= s.lastRefill + deficit / rate && s.tokens + deficit >= p.want as real
    ensures Grants(rate, burst, s, p)
  {
    var ready := s.lastRefill + deficit / rate;
    assert Accrued(rate, s.lastRefill, ready) == deficit by { Quotient(deficit, rate); }
    Quotient(deficit, rate);
    hide Accrued;
    AccruedOrder(rate, s.lastRefill, ready, p.now);
  }

  class TokenBucket {
    const rate: real
    const burst: nat
    var tokens: real
    var lastRefill: real
    var totalWaits: nat
    var totalAcquired: nat
    ghost var run: seq<Pass>

    constructor (rate: real, burst: nat)
      requires rate > 0.0
      ensures Valid() && this.rate == rate && this.burst == burst && run == []
    {
      this.rate, this.burst := rate, burst;
      tokens, lastRefill, totalWaits, totalAcquired, run := burst as real, 0.0, 0, 0, [];
    }

    ghost predicate Valid()
      reads this
    {
      rate > 0.0 && Clocked(run) && State(tokens, lastRefill) == After(rate, burst, run)
    }

    /** One pass through the loop, from one await to the next: granted, or how long to sleep. */
    method TryAcquire(p: Pass) returns (granted: bool, wait: real)
      requires Valid() && p.want > 0 && p.now >= 0.0 && (run != [] ==> run[|run| - 1].now <= p.now)
      modifies this
      ensures Valid() && run == old(run) + [p]
      ensures granted <==> Grants(rate, burst, old(After(rate, burst, run)), p)
      ensures granted ==> totalAcquired == old(totalAcquired) + 1 && totalWaits == old(totalWaits)
      ensures !granted ==> totalAcquired == old(totalAcquired) && totalWaits == old(totalWaits) + 1
      ensures !granted ==> wait == (p.want as real - tokens) / rate && tokens < p.want as real
    {
      hide Accrued;
      ghost var before := run;
      run := run + [p];
      assert run[..|before|] == before;
      assert After(rate, burst, run) == Next(rate, burst, After(rate, burst, before), p);
      hide After;
      if p.begin && lastRefill == 0.0 {
        lastRefill := p.now;
      }
      tokens := Min(burst as real, tokens + Accrued(rate, lastRefill, p.now));
      lastRefill := p.now;
      if tokens >= p.want as real {
        tokens := tokens - p.want as real;
        totalAcquired := totalAcquired + 1;
        return true, 0.0;
      }
      wait := (p.want as real - tokens) / rate;
      totalWaits := totalWaits + 1;
      granted := false;
    }

    /** `acquire` with nobody else about, watched for `patience` sleeps. A sleep lasts at least as long as asked;
        `late(k)` is how much longer the k-th one lasts. One sleep is enough for what fits the burst; what does not
        fit sleeps for ever. */
    method Acquire(want: int, start: real, late: nat -> real, patience: nat)
      returns (done: bool, sleeps: nat, end: real)
      requires Valid() && start >= 0.0 && (run != [] ==> run[|run| - 1].now <= start)
      requires forall k :: late(k) >= 0.0
      modifies this
      ensures Valid() && end >= start && sleeps <= patience
      ensures want <= 0 ==> done && run == old(run) && sleeps == 0 && end == start
      ensures want > 0 ==> Passes(old(run), run, want, start, end, sleeps)
      ensures done && want > 0 ==> totalAcquired == old(totalAcquired) + 1 && totalWaits == old(totalWaits) + sleeps
      ensures !done ==> totalAcquired == old(totalAcquired) && totalWaits == old(totalWaits) + patience + 1
      ensures want <= burst ==> sleeps <= 1 && (done || patience == 0)
      ensures want > burst ==> !done && sleeps == patience
    {
      hide After, Grants, Passes, Clocked;
      if want <= 0 {
        return true, 0, start;
      }
      var wait;
      sleeps, end := 0, start;
      if want > burst {
        TooBig(rate, burst, run, Pass(start, want, true));
      }
      OnePass(run, want, start);
      done, wait := TryAcquire(Pass(start, want, true));
      while !done && sleeps < patience
        invariant Valid() && sleeps <= patience && end >= start
        invariant Passes(old(run), run, want, start, end, sleeps) && run != [] && run[|run| - 1].now == end
        invariant totalWaits == old(totalWaits) + sleeps + if done then 0 else 1
        invariant totalAcquired == old(totalAcquired) + if done then 1 else 0
        invariant !done ==> tokens < want as real && wait == (want as real - tokens) / rate
        invariant want <= burst ==> sleeps == 0 || (sleeps == 1 && done)
        invariant want > burst ==> !done
      {
        WaitPositive(rate, want as real - tokens);
        var wake := end + wait + late(sleeps);
        if want <= burst {
          OneSleep(rate, burst, run, want, wait, late(sleeps));
        } else {
          TooBig(rate, burst, run, Pass(wake, want, false));
        }
        MorePasses(old(run), run, want, start, end, wake, sleeps);
        sleeps, end := sleeps + 1, wake;
        done, wait := TryAcquire(Pass(wake, want, false));
      }
    }
  }

  /** One caller's passes: the first at the start, the others one after each sleep, the last at the end. */
  predicate Passes(before: seq<Pass>, run: seq<Pass>, want: int, start: real, end: real, sleeps: nat) {
    |run| == |before| + sleeps + 1 && run[..|before|] == before
    && run[|before|] == Pass(start, want, true) && run[|run| - 1].now == end
    && forall k :: |before| < k < |run| ==> run[k].want == want && !run[k].begin
  }

  lemma OnePass(before: seq<Pass>, want: int, start: real)
    ensures Passes(before, before + [Pass(start, want, true)], want, start, start, 0)
  {
  }

  lemma MorePasses(before: seq<Pass>, run: seq<Pass>, want: int, start: real, end: real, wake: real, sleeps: nat)
    requires Passes(before, run, want, start, end, sleeps)
    ensures Passes(before, run + [Pass(wake, want, false)], want, start, wake, sleeps + 1)
  {
  }

  lemma WaitPositive(rate: real, deficit: real)
    requires rate > 0.0 && deficit >= 0.0
    ensures deficit / rate >= 0.0
  {
  }

  lemma TooBig(rate: real, burst: nat, run: seq<Pass>, p: Pass)
    requires rate > 0.0 && Clocked(run) && p.want > burst && p.now >= 0.0
    requires run != [] ==> run[|run| - 1].now <= p.now
    ensures !Grants(rate, burst, After(rate, burst, run), p)
  {
    AlwaysBounded(rate, burst, run);
    hide After;
    RefillBounds(rate, burst, After(rate, burst, run), p);
  }

  lemma OneSleep(rate: real, burst: nat, run: seq<Pass>, want: int, wait: real, late: real)
    requires rate > 0.0 && Clocked(run) && run != [] && 0 < want <= burst && late >= 0.0
    requires var t := After(rate, burst, run).tokens; t < want as real && wait == (want as real - t) / rate
    ensures wait >= 0.0
    ensures Grants(rate, burst, After(rate, burst, run), Pass(run[|run| - 1].now + wait + late, want, false))
  {
    AlwaysBounded(rate, burst, run);
    hide After, Grants;
    var s := After(rate, burst, run);
    Quotient(want as real - s.tokens, rate);
    Enough(rate, burst, s, Pass(run[|run| - 1].now + wait + late, want, false), want as real - s.tokens);
  }

  // ---------------------------------------------------------------- nothing is wasted

  /** The level is as high as the budget allows: from some pass on, what was handed out plus what is left is exactly
      the burst plus what accrued since. With `WindowBudget`, the level is the least of these over all stretches. The
      clock must not start at zero, which stands for a bucket not yet used. */
  lemma {:induction false} WindowTight(rate: real, burst: nat, run: seq<Pass>) returns (i: nat)
    requires rate > 0.0 && Clocked(run) && run != [] && run[0].now > 0.0
    ensures i < |run|
    ensures After(rate, burst, run).tokens + Taken(rate, burst, run, i) as real
         == burst as real + Accrued(rate, run[i].now, run[|run| - 1].now)
  {
    hide Level, Accrued;
    var m := |run| - 1;
    var front, p := run[..m], run[m];
    var s := After(rate, burst, front);
    AlwaysBounded(rate, burst, front);
    LevelIs(rate, burst, s, p);
    assert Taken(rate, burst, front, m) == 0;
    AccruedOrder(rate, p.now, p.now, p.now);
    if front == [] {
      FirstFull(rate, burst, run);
    }
    if Level(rate, burst, s, p) == burst as real {
      i := m;
    } else {
      i := WindowTight(rate, burst, front);
      assert front[i] == run[i] && front[m - 1].now == s.lastRefill;
      AccruedOrder(rate, run[i].now, s.lastRefill, p.now);
    }
  }

  lemma LevelIs(rate: real, burst: nat, s: State, p: Pass)
    requires rate > 0.0 && 0.0 <= s.tokens <= burst as real && 0.0 <= s.lastRefill <= p.now
    ensures Level(rate, burst, s, p) == burst as real
            || Level(rate, burst, s, p) == s.tokens + Accrued(rate, s.lastRefill, p.now)
            || (p.begin && s.lastRefill == 0.0)
  {
  }

  lemma FirstFull(rate: real, burst: nat, run: seq<Pass>)
    requires rate > 0.0 && Clocked(run) && |run| == 1
    ensures Level(rate, burst, After(rate, burst, run[..0]), run[0]) == burst as real
  {
    assert run[0].now * rate >= 0.0;
  }

  /** A refusal is never needless: had the request been granted, some stretch would exceed the limit. */
  lemma RefusedMeans(rate: real, burst: nat, run: seq<Pass>, p: Pass) returns (i: nat)
    requires rate > 0.0 && Clocked(run + [p]) && (run + [p])[0].now > 0.0
    requires !Grants(rate, burst, After(rate, burst, run), p)
    ensures i <= |run|
    ensures var all := run + [p];
            Taken(rate, burst, all, i) as real + p.want as real > burst as real + (p.now - all[i].now) * rate
  {
    var all := run + [p];
    assert all[..|run|] == run && all[|run|] == p;
    i := WindowTight(rate, burst, all);
    hide Taken;
  }

  /** The reason for the proviso: a pass at clock reading zero leaves the bucket looking unused, so the next first pass
      of a caller forgets what has accrued. One second at one token a second, and still nothing. */
  lemma ZeroForgets()
    ensures var run := [Pass(0.0, 1, true)];
            Clocked(run + [Pass(1.0, 1, true)]) && !Grants(1.0, 1, After(1.0, 1, run), Pass(1.0, 1, true))
            && Grants(1.0, 1, After(1.0, 1, run), Pass(1.0, 1, false))
  {
    var p := Pass(0.0, 1, true);
    assert [p][..0] == [];
    assert After(1.0, 1, []) == State(1.0, 0.0);
    assert Level(1.0, 1, State(1.0, 0.0), p) == 1.0;
    assert After(1.0, 1, [p]) == State(0.0, 0.0);
    hide After;
  }
}
