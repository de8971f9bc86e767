/**
 * The daily 17:30 rollover: which contract is active when, and the worker that hands one over to the next.
 * Instants are microseconds on the local axis, whose days start at multiples of DAY; a date is the number of a day.
 */
module DailyRollover {

  const SECOND := 1_000_000
  const DAY := 86400 * SECOND
  const CUTOFF := (17 * 3600 + 30 * 60) * SECOND

  function DateOf(n: int): int { n / DAY }

  function ActiveDailyExpiry(n: int): int {
    if n % DAY >= CUTOFF then DateOf(n) + 1 else DateOf(n)
  }

  function NextRolloverAt(n: int): int {
    var today := DateOf(n) * DAY + CUTOFF;
    if n < today then today else today + DAY
  }

  function ToNextRollover(n: int): int { NextRolloverAt(n) - n }

  /** The next rollover lies ahead, within a day, on the active contract's own date, at the cutoff. */
  lemma RolloverOnActiveDate(n: int)
    ensures DateOf(NextRolloverAt(n)) == ActiveDailyExpiry(n) && NextRolloverAt(n) % DAY == CUTOFF
    ensures 0 < ToNextRollover(n) <= DAY
  {
  }

  /** The active contract changes exactly at the next rollover, by exactly one day. */
  lemma ActiveUntilRollover(n: int, t: int)
    requires n <= t
    ensures ActiveDailyExpiry(t) == ActiveDailyExpiry(n) <==> t < NextRolloverAt(n)
    ensures ActiveDailyExpiry(NextRolloverAt(n)) == ActiveDailyExpiry(n) + 1
    ensures ActiveDailyExpiry(n) <= ActiveDailyExpiry(t)
    ensures NextRolloverAt(n) <= t < NextRolloverAt(NextRolloverAt(n)) ==>
        ActiveDailyExpiry(t) == ActiveDailyExpiry(n) + 1
  {
    hide NextRolloverAt, ActiveDailyExpiry;
    Boundaries(n);
    Boundaries(t);
    Boundaries(NextRolloverAt(n));
  }

  /** The contract active at n covers the day up to its own date's cutoff. */
  lemma Boundaries(n: int)
    ensures NextRolloverAt(n) == ActiveDailyExpiry(n) * DAY + CUTOFF
    ensures ActiveDailyExpiry(n) * DAY + CUTOFF - DAY <= n < ActiveDailyExpiry(n) * DAY + CUTOFF
  {
  }

  // ---------------------------------------------------------------- the worker

  /** One pass of the loop: when the wait is computed, and when the sleep ends. */
  datatype Pass = Pass(start: int, wake: int)

  function Wait(now: int, lead: int): int {
    var w := ToNextRollover(now) + lead;
    if w > SECOND then w else SECOND
  }

  /** The moment the k-th pass follows: the creation of the worker, or the wake before. */
  function Since(created: int, ps: seq<Pass>, k: nat): int
    requires k <= |ps|
  {
    if k == 0 then created else ps[k - 1].wake
  }

  /** A sleep lasts at least as long as asked, and the next pass starts when the callback is done. */
  predicate Passes(created: int, lead: int, ps: seq<Pass>) {
    (forall k :: 0 <= k < |ps| ==> ps[k].wake >= ps[k].start + Wait(ps[k].start, lead))
    && (forall k :: 0 <= k < |ps| ==> ps[k].start >= Since(created, ps, k))
  }

  /** Never late by a whole boundary: the run starts before the first one, and between two wakes lies one. */
  predicate Prompt(created: int, ps: seq<Pass>) {
    forall k :: 0 <= k < |ps| ==>
      ps[k].start < NextRolloverAt(Since(created, ps, k))
      && ps[k].wake < NextRolloverAt(NextRolloverAt(ps[k].start))
  }

  /** Each callback starts where the one before it ended, and moves forward. */
  predicate Chain(first: int, callbacks: seq<(int, int)>, end: int) {
    (|callbacks| == 0 ==> first == end)
    && (|callbacks| > 0 ==> callbacks[0].0 == first && callbacks[|callbacks| - 1].1 == end)
    && (forall i :: 0 <= i < |callbacks| ==> callbacks[i].0 < callbacks[i].1)
    && forall i :: 0 < i < |callbacks| ==> callbacks[i].0 == callbacks[i - 1].1
  }

  /** One callback for each boundary, one day at a time. */
  predicate Daily(first: int, callbacks: seq<(int, int)>) {
    forall i :: 0 <= i < |callbacks| ==> callbacks[i] == (first + i, first + i + 1)
  }

  lemma NoCallbacks(first: int)
    ensures Chain(first, [], first) && Daily(first, [])
  {
  }

  lemma ChainGrows(first: int, callbacks: seq<(int, int)>, end: int, next: int)
    requires Chain(first, callbacks, end)
    ensures end < next ==> Chain(first, callbacks + [(end, next)], next)
    ensures Daily(first, callbacks) && end == first + |callbacks| && next == end + 1 ==>
        Daily(first, callbacks + [(end, next)])
  {
  }

  class Worker {
    const lead: int
    const created: int
    var running: bool
    var active: int

    constructor (lead: int, now: int)
      ensures this.lead == lead && created == now && active == ActiveDailyExpiry(now) && !running
    {
      this.lead, created, running, active := lead, now, false, ActiveDailyExpiry(now);
    }

    /** The run loop over the passes it gets to make before it is stopped; the callbacks it makes. */
    method Run(ps: seq<Pass>) returns (callbacks: seq<(int, int)>)
      requires Passes(created, lead, ps) && active == ActiveDailyExpiry(created)
      modifies this
      ensures running && active == ActiveDailyExpiry(Since(created, ps, |ps|))
      ensures Chain(ActiveDailyExpiry(created), callbacks, active)
      ensures lead >= 0 && Prompt(created, ps) ==> |callbacks| == |ps| && Daily(ActiveDailyExpiry(created), callbacks)
    {
      hide ActiveDailyExpiry, NextRolloverAt, Chain, Daily, Wait;
      NoCallbacks(ActiveDailyExpiry(created));
      running := true;
      callbacks := [];
      var k := 0;
      while k < |ps|
        invariant 0 <= k <= |ps|
        invariant active == ActiveDailyExpiry(Since(created, ps, k))
        invariant running && Chain(ActiveDailyExpiry(created), callbacks, active)
        invariant lead >= 0 && Prompt(created, ps) ==>
          |callbacks| == k && active == ActiveDailyExpiry(created) + k && Daily(ActiveDailyExpiry(created), callbacks)
      {
        ghost var before := Since(created, ps, k);
        PassMoves(before, ps[k], lead);
        assert Prompt(created, ps) ==>
            ps[k].start < NextRolloverAt(before) && ps[k].wake < NextRolloverAt(NextRolloverAt(ps[k].start));
        var newActive := ActiveDailyExpiry(ps[k].wake);
        ChainGrows(ActiveDailyExpiry(created), callbacks, active, newActive);
        if newActive != active {
          callbacks := callbacks + [(active, newActive)];
          active := newActive;
        }
        k := k + 1;
      }
    }
  }

  lemma PassMoves(before: int, p: Pass, lead: int)
    requires before <= p.start && p.wake >= p.start + Wait(p.start, lead)
    ensures ActiveDailyExpiry(before) <= ActiveDailyExpiry(p.wake)
    ensures lead >= 0 && p.start < NextRolloverAt(before) && p.wake < NextRolloverAt(NextRolloverAt(p.start))
        ==> ActiveDailyExpiry(p.wake) == ActiveDailyExpiry(before) + 1
  {
    RolloverOnActiveDate(p.start);
    hide ActiveDailyExpiry, NextRolloverAt;
    ActiveUntilRollover(before, p.start);
    ActiveUntilRollover(p.start, p.wake);
    ActiveUntilRollover(before, p.wake);
  }

  /** The clock in plain numbers: the boundary is at 17:30, and the worker sleeps until `lead` after it, but at least a
      second. */
  lemma InMicroseconds(now: int, lead: int)
    ensures CUTOFF == 63_000_000_000 && DAY == 86_400_000_000
    ensures Wait(now, lead) >= 1_000_000 && now + Wait(now, lead) >= NextRolloverAt(now) + lead
    ensures Wait(now, lead) == 1_000_000 || now + Wait(now, lead) == NextRolloverAt(now) + lead
  {
    hide NextRolloverAt;
  }
}
