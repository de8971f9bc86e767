/** One client's execution worker: a bounded signal queue and a circuit breaker around its processing. */
module WorkerPool {
  import opened Wrappers

  const QUEUE_SIZE := 100
  const OPEN_AFTER := 5
  const COOLDOWN := 60.0

  // ---------------------------------------------------------------- the breaker

  datatype Circuit = Circuit(open: bool, openedAt: real, failures: nat)

  const CLOSED := Circuit(false, 0.0, 0)

  /** An idle timeout and a half-open attempt do the same: after the cooldown, close and forget the failures. */
  function Recover(c: Circuit, now: real): Circuit {
    if c.open && now - c.openedAt >= COOLDOWN then Circuit(false, c.openedAt, 0) else c
  }

  function Settle(c: Circuit, now: real, failed: bool): Circuit {
    if !failed then Circuit(false, c.openedAt, 0)
    else if c.failures + 1 >= OPEN_AFTER then Circuit(true, now, c.failures + 1)
    else c.(failures := c.failures + 1)
  }

  /** What the loop does in turn: time out idle, or take a signal that, unless it is dropped, ends well or badly. */
  datatype Event = Idle(at: real) | Turn(start: real, end: real, failed: bool)

  predicate Starts(c: Circuit, e: Event) { e.Turn? && !Recover(c, e.start).open }

  function Next(c: Circuit, e: Event): Circuit {
    match e
    case Idle(at) => Recover(c, at)
    case Turn(start, end, failed) =>
      var r := Recover(c, start);
      if r.open then r else Settle(r, end, failed)
  }

  function Run(es: seq<Event>): Circuit {
    if es == [] then CLOSED else Next(Run(es[..|es| - 1]), es[|es| - 1])
  }

  function First(e: Event): real { match e case Idle(at) => at case Turn(start, _, _) => start }

  function Last(e: Event): real { match e case Idle(at) => at case Turn(_, end, _) => end }

  /** The loop is sequential and the clock does not run backwards. */
  predicate Clocked(es: seq<Event>) {
    (forall i :: 0 <= i < |es| ==> First(es[i]) <= Last(es[i]))
    && forall i, j :: 0 <= i < j < |es| ==> Last(es[i]) <= First(es[j])
  }

  /** The i-th event is a processing that opened the circuit. */
  predicate Opens(es: seq<Event>, i: nat)
    requires i < |es|
  {
    Starts(Run(es[..i]), es[i]) && Run(es[..i + 1]).open
  }

  function Openings(es: seq<Event>): nat {
    if es == [] then 0 else Openings(es[..|es| - 1]) + if Opens(es, |es| - 1) then 1 else 0
  }

  function TotalFailures(es: seq<Event>): nat {
    if es == [] then 0
    else
      var front, e := es[..|es| - 1], es[|es| - 1];
      TotalFailures(front) + if Starts(Run(front), e) && e.failed then 1 else 0
  }

  /** Each opening has used up five failures of its own; a closed circuit has at most four. */
  lemma {:induction false} FailuresPayForOpenings(es: seq<Event>)
    ensures var c := Run(es);
            (!c.open ==> c.failures < OPEN_AFTER)
            && TotalFailures(es) >= OPEN_AFTER * Openings(es) + if c.open then 0 else c.failures
  {
    if es != [] {
      FailuresPayForOpenings(es[..|es| - 1]);
      assert es[..|es|] == es;
    }
  }

  /** Nothing later than an opening moves its time, except another opening. */
  lemma {:induction false} OpenedLatest(es: seq<Event>, i: nat)
    requires Clocked(es) && i < |es| && Opens(es, i)
    ensures var c := Run(es);
            c.openedAt >= es[i].end && c.openedAt <= Last(es[|es| - 1])
            && (!c.open ==> Last(es[|es| - 1]) - c.openedAt >= COOLDOWN)
  {
    var m := |es| - 1;
    if i < m {
      Prefixes(es, i, m);
      OpenedLatest(es[..m], i);
      assert Run(es) == Next(Run(es[..m]), es[m]);
      hide Run, Opens;
    } else {
      assert es[..m + 1] == es;
    }
  }

  /** Processing never starts within 60 seconds of any earlier opening. */
  lemma NoStartWhileCooling(es: seq<Event>, i: nat, j: nat)
    requires Clocked(es) && i < j < |es| && Opens(es, i) && Starts(Run(es[..j]), es[j])
    ensures es[j].start - es[i].end >= COOLDOWN
  {
    var front := es[..j];
    assert front[..i] == es[..i] && front[..i + 1] == es[..i + 1];
    OpenedLatest(front, i);
  }

  /** After the cooldown there is no single probe: between any two openings of any run lie at least five failures,
      whatever idle timeouts and successes come between them. */
  lemma {:induction false} FiveProbes(es: seq<Event>, i: nat, j: nat)
    requires i < j < |es| && Opens(es, i) && Opens(es, j)
    ensures TotalFailures(es[..j + 1]) - TotalFailures(es[..i + 1]) >= OPEN_AFTER
  {
    Prefixes(es, i, j);
    FailuresSince(es[..j], i);
    assert es[..j + 1][..j] == es[..j];
  }

  /** What a closed circuit counts has all failed since any earlier opening. */
  lemma {:induction false} FailuresSince(es: seq<Event>, i: nat)
    requires i < |es| && Opens(es, i)
    ensures var c, since := Run(es), TotalFailures(es) - TotalFailures(es[..i + 1]);
            since >= 0 && (!c.open ==> since >= c.failures)
  {
    var m := |es| - 1;
    if i < m {
      Prefixes(es, i, m);
      FailuresSince(es[..m], i);
    } else {
      assert es[..m + 1] == es;
    }
  }

  lemma Prefixes(es: seq<Event>, i: nat, m: nat)
    requires i < m < |es|
    ensures es[..m][..i] == es[..i] && es[..m][..i + 1] == es[..i + 1]
    ensures Opens(es, i) ==> Opens(es[..m], i)
  {
    assert es[..m][..i] == es[..i] && es[..m][..i + 1] == es[..i + 1];
  }

  // ---------------------------------------------------------------- the worker

  class Worker<S> {
    var queue: seq<S>
    var dropped: nat
    var totalFailures: nat
    var consecutiveFailures: nat
    var circuitOpen: bool
    var circuitOpenedAt: real
    /** the signal being processed, and since when */
    ghost var inFlight: Option<(S, real)>
    ghost var offered: nat
    ghost var finished: nat
    /** what ever got into the queue, and what of it was taken out again */
    ghost var accepted: seq<S>
    ghost var taken: seq<S>
    ghost var history: seq<Event>

    constructor ()
      ensures Valid() && queue == accepted == [] && offered == 0 && history == [] && inFlight == None
    {
      queue, dropped, totalFailures := [], 0, 0;
      consecutiveFailures, circuitOpen, circuitOpenedAt := 0, false, 0.0;
      inFlight, offered, finished, accepted, taken, history := None, 0, 0, [], [], [];
    }

    ghost function Breaker(): Circuit
      reads this
    {
      Circuit(circuitOpen, circuitOpenedAt, consecutiveFailures)
    }

    /** The breaker is what its history makes it; signals are taken in the order they came; and every signal ever
        offered is queued, dropped, in flight or finished. */
    ghost predicate Valid()
      reads this
    {
      |queue| <= QUEUE_SIZE && totalFailures == TotalFailures(history)
      && (inFlight == None ==> Breaker() == Run(history))
      && (inFlight.Some? ==> Breaker() == Recover(Run(history), inFlight.value.1) && !circuitOpen)
      && accepted == taken + queue
      && offered == |queue| + dropped + finished + if inFlight.Some? then 1 else 0
    }

    /** The router's call; may come at any moment, also while a signal is being processed. */
    method Enqueue(signal: S)
      requires Valid()
      modifies this`queue, this`dropped, this`offered, this`accepted
      ensures Valid() && offered == old(offered) + 1
      ensures queue == if |old(queue)| < QUEUE_SIZE then old(queue) + [signal] else old(queue)
      ensures dropped == old(dropped) + if |old(queue)| < QUEUE_SIZE then 0 else 1
    {
      hide Run, TotalFailures;
      offered := offered + 1;
      if |queue| < QUEUE_SIZE {
        queue, accepted := queue + [signal], accepted + [signal];
      } else {
        dropped := dropped + 1;
      }
    }

    method IdleTimeout(now: real)
      requires Valid() && inFlight == None
      modifies this`circuitOpen, this`consecutiveFailures, this`history
      ensures Valid() && history == old(history) + [Idle(now)]
    {
      hide Run, TotalFailures;
      Snoc(history, Idle(now));
      if circuitOpen {
        var elapsed := now - circuitOpenedAt;
        if elapsed >= COOLDOWN {
          circuitOpen, consecutiveFailures := false, 0;
        }
      }
      history := history + [Idle(now)];
    }

    /** Take the oldest signal: drop it while the circuit is open, start processing it otherwise. */
    method Take(now: real) returns (started: bool)
      requires Valid() && inFlight == None && queue != []
      modifies this
      ensures Valid() && queue == old(queue)[1..] && offered == old(offered) && finished == old(finished)
      ensures taken == old(taken) + [old(queue)[0]] && totalFailures == old(totalFailures)
      ensures started <==> !Recover(old(Breaker()), now).open
      ensures started ==> inFlight == Some((old(queue)[0], now)) && history == old(history) && dropped == old(dropped)
      ensures !started ==>
                inFlight == None && dropped == old(dropped) + 1 && history == old(history) + [Turn(now, now, false)]
    {
      hide Run, TotalFailures;
      var signal := queue[0];
      assert taken + queue == (taken + [signal]) + queue[1..];
      queue, taken := queue[1..], taken + [signal];
      if circuitOpen && !(now - circuitOpenedAt >= COOLDOWN) {
        dropped := dropped + 1;
        Snoc(history, Turn(now, now, false));
        history := history + [Turn(now, now, false)];
        return false;
      }
      if circuitOpen {
        circuitOpen, consecutiveFailures := false, 0;
      }
      inFlight := Some((signal, now));
      started := true;
    }

    /** Processing ends, well or with an exception. */
    method Finish(now: real, failed: bool)
      requires Valid() && inFlight.Some?
      modifies this
      ensures Valid() && inFlight == None && queue == old(queue) && offered == old(offered) && dropped == old(dropped)
      ensures finished == old(finished) + 1 && taken == old(taken) && accepted == old(accepted)
      ensures history == old(history) + [Turn(old(inFlight).value.1, now, failed)]
      ensures totalFailures == old(totalFailures) + if failed then 1 else 0
    {
      hide Run, TotalFailures;
      ghost var turn := Turn(inFlight.value.1, now, failed);
      Snoc(history, turn);
      if failed {
        consecutiveFailures, totalFailures := consecutiveFailures + 1, totalFailures + 1;
        if consecutiveFailures >= OPEN_AFTER {
          circuitOpen, circuitOpenedAt := true, now;
        }
      } else {
        consecutiveFailures, circuitOpen := 0, false;
      }
      history, finished, inFlight := history + [turn], finished + 1, None;
    }

    /** What the breaker promises holds of the fields, at every moment of every run. */
    lemma Accounted()
      requires Valid()
      ensures !circuitOpen ==> consecutiveFailures < OPEN_AFTER
      ensures totalFailures >= OPEN_AFTER * Openings(history)
    {
      FailuresPayForOpenings(history);
    }
  }

  lemma Snoc(es: seq<Event>, e: Event)
    ensures Run(es + [e]) == Next(Run(es), e)
    ensures TotalFailures(es + [e]) == TotalFailures(es) + if Starts(Run(es), e) && e.failed then 1 else 0
  {
    assert (es + [e])[..|es|] == es;
  }

  // ---------------------------------------------------------------- when the breaker is open at all

  /** An open circuit was opened by some processing, at the time it remembers. */
  lemma {:induction false} OpenedBy(es: seq<Event>) returns (i: nat)
    requires Run(es).open
    ensures i < |es| && Opens(es, i) && es[i].end == Run(es).openedAt
  {
    var m := |es| - 1;
    assert Run(es) == Next(Run(es[..m]), es[m]) && es[..m + 1] == es;
    if Starts(Run(es[..m]), es[m]) {
      i := m;
    } else {
      i := OpenedBy(es[..m]);
      assert es[..m][..i] == es[..i] && es[..m][..i + 1] == es[..i + 1];
    }
  }

  /** A signal is started if and only if every processing that opened the circuit ended 60 seconds ago or more. */
  lemma StartsIff(es: seq<Event>, turn: Event)
    requires turn.Turn? && Clocked(es + [turn])
    ensures Starts(Run(es), turn) <==>
            forall i: nat :: i < |es| && Opens(es, i) ==> turn.start - es[i].end >= 60.0
  {
    var all := es + [turn];
    assert all[..|es|] == es && forall i :: 0 <= i < |es| ==> all[i] == es[i];
    assert all[|es|] == turn;
    if Starts(Run(es), turn) {
      forall i: nat | i < |es| && Opens(es, i)
        ensures turn.start - es[i].end >= 60.0
      {
        assert all[..i] == es[..i] && all[..i + 1] == es[..i + 1];
        NoStartWhileCooling(all, i, |es|);
      }
    } else {
      var i := OpenedBy(es);
    }
  }

  /** A success forgets the failures before it: opening after it takes five more. */
  lemma {:induction false} SuccessForgets(es: seq<Event>, i: nat, j: nat)
    requires i < j < |es| && Starts(Run(es[..i]), es[i]) && !es[i].failed && Opens(es, j)
    ensures TotalFailures(es[..j + 1]) - TotalFailures(es[..i + 1]) >= 5
  {
    assert es[..j][..i] == es[..i] && es[..j][..i + 1] == es[..i + 1] && es[..j + 1][..j] == es[..j];
    SinceSuccess(es[..j], i);
  }

  lemma {:induction false} SinceSuccess(es: seq<Event>, i: nat)
    requires i < |es| && Starts(Run(es[..i]), es[i]) && !es[i].failed
    ensures var c, since := Run(es), TotalFailures(es) - TotalFailures(es[..i + 1]);
            since >= 0 && (!c.open ==> since >= c.failures)
  {
    var m := |es| - 1;
    if i < m {
      assert es[..m][..i] == es[..i] && es[..m][..i + 1] == es[..i + 1];
      SinceSuccess(es[..m], i);
    } else {
      assert es[..m + 1] == es;
    }
  }

  predicate FailedTurn(es: seq<Event>, j: nat)
    requires j < |es|
  {
    Starts(Run(es[..j]), es[j]) && es[j].failed
  }

  lemma {:induction false} RowCounts(es: seq<Event>, n: nat)
    requires n <= |es| && forall j :: |es| - n <= j < |es| ==> FailedTurn(es, j) && !Opens(es, j)
    ensures Run(es).failures >= n && (n > 0 ==> !Run(es).open)
  {
    if n > 0 {
      var m := |es| - 1;
      var front := es[..m];
      forall j | |front| - (n - 1) <= j < |front|
        ensures FailedTurn(front, j) && !Opens(front, j)
      {
        assert front[..j] == es[..j] && front[..j + 1] == es[..j + 1];
        assert FailedTurn(es, j) && !Opens(es, j);
      }
      RowCounts(front, n - 1);
      assert FailedTurn(es, m) && !Opens(es, m) && es[..m + 1] == es;
    }
  }

  /** Of five failures running one opens the circuit. */
  lemma FiveOpen(es: seq<Event>, i: nat)
    requires i + 5 <= |es| && forall j :: i <= j < i + 5 ==> FailedTurn(es, j)
    ensures exists j :: i <= j < i + 5 && Opens(es, j)
  {
    if forall j :: i <= j < i + 5 ==> !Opens(es, j) {
      var five := es[..i + 5];
      forall j | i <= j < i + 5
        ensures FailedTurn(five, j) && !Opens(five, j)
      {
        assert five[..j] == es[..j] && five[..j + 1] == es[..j + 1];
        assert five[j] == es[j] && FailedTurn(es, j) && !Opens(es, j);
      }
      RowCounts(five, 5);
      FailuresPayForOpenings(five);
    }
  }

  /** The processings that failed, and those that opened the circuit. */
  function FailedTurns(es: seq<Event>): set<int> { set j | 0 <= j < |es| && FailedTurn(es, j) }

  function OpeningTurns(es: seq<Event>): set<int> { set j | 0 <= j < |es| && Opens(es, j) }

  /** The two totals are counts. */
  lemma {:induction false} TotalsCount(es: seq<Event>)
    ensures TotalFailures(es) == |FailedTurns(es)| && Openings(es) == |OpeningTurns(es)|
  {
    hide Run, Starts;
    if es != [] {
      var front := es[..|es| - 1];
      TotalsCount(front);
      LastTurn(es);
      assert |es| - 1 !in FailedTurns(front) && |es| - 1 !in OpeningTurns(front);
      hide FailedTurns, OpeningTurns, Opens, FailedTurn;
      LastCounts(es);
    }
  }

  lemma LastCounts(es: seq<Event>)
    requires es != []
    ensures var m := |es| - 1;
            TotalFailures(es) == TotalFailures(es[..m]) + (if FailedTurn(es, m) then 1 else 0)
            && Openings(es) == Openings(es[..m]) + if Opens(es, m) then 1 else 0
  {
    hide Run;
  }

  lemma LastTurn(es: seq<Event>)
    requires es != []
    ensures var m := |es| - 1;
            FailedTurns(es) == FailedTurns(es[..m]) + (if FailedTurn(es, m) then {m} else {})
            && OpeningTurns(es) == OpeningTurns(es[..m]) + if Opens(es, m) then {m} else {}
  {
    var m := |es| - 1;
    forall j | 0 <= j < m
      ensures FailedTurn(es[..m], j) == FailedTurn(es, j) && Opens(es[..m], j) == Opens(es, j)
    {
      assert es[..m][..j] == es[..j] && es[..m][..j + 1] == es[..j + 1];
    }
    hide FailedTurn, Opens;
  }

  /** The circuit opens at the fifth failure, and from the moment that processing ends. */
  lemma OpensAtFive(es: seq<Event>, i: nat)
    requires i < |es| && Opens(es, i)
    ensures Run(es[..i + 1]) == Circuit(true, es[i].end, 5)
  {
    FailuresPayForOpenings(es[..i]);
    assert es[..i + 1][..i] == es[..i] && es[..i + 1][i] == es[i];
  }
}
