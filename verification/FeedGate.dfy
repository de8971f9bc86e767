/**
 * From a feeder's tick to the bus: the bad-tick guard of each feeder, then the gate the feeders share
 * (active-passive failover and per-key throttle).
 */
module FeedGate {
  import opened Wrappers

  const THROTTLE := 0.1
  const MOVE := 0.0001

  function Abs(x: real): real { if x >= 0.0 then x else -x }

  function LowerChar(c: char): char { if 'A' <= c <= 'Z' then (c as int + 32) as char else c }

  function Lower(s: string): string { seq(|s|, i requires 0 <= i < |s| => LowerChar(s[i])) }

  // ---------------------------------------------------------------- the gate, as a function of its history

  datatype Event = PrimarySet(at: real, primary: Option<string>, stale: real)
                 | Arrived(at: real, key: string, ltp: real, provider: Option<string>, passed: bool)

  function Primary(log: seq<Event>): Option<string> {
    if log == [] then None
    else match log[|log| - 1]
         case PrimarySet(_, p, _) => p
         case Arrived(_, _, _, _, _) => Primary(log[..|log| - 1])
  }

  function Stale(log: seq<Event>): real {
    if log == [] then 3.0
    else match log[|log| - 1]
         case PrimarySet(_, _, stale) => stale
         case Arrived(_, _, _, _, _) => Stale(log[..|log| - 1])
  }

  predicate FromPrimary(log: seq<Event>, provider: Option<string>) {
    Primary(log).Some? && provider.Some? && Lower(provider.value) == Primary(log).value
  }

  predicate FromSecondary(log: seq<Event>, provider: Option<string>) {
    Primary(log).Some? && provider.Some? && Lower(provider.value) != Primary(log).value
  }

  /** When the primary was last heard of: its latest tick, or its appointment. */
  function LastHeard(log: seq<Event>): real {
    if log == [] then 0.0
    else
      var front := log[..|log| - 1];
      match log[|log| - 1]
      case PrimarySet(at, _, _) => at
      case Arrived(at, _, _, provider, _) => if FromPrimary(front, provider) then at else LastHeard(front)
  }

  /** The latest tick of a key that passed: its time and price. */
  function LastPassed(log: seq<Event>, key: string): Option<(real, real)> {
    if log == [] then None
    else match log[|log| - 1]
         case PrimarySet(_, _, _) => LastPassed(log[..|log| - 1], key)
         case Arrived(at, k, ltp, _, passed) =>
           if k == key && passed then Some((at, ltp)) else LastPassed(log[..|log| - 1], key)
  }

  predicate Spaced(previous: Option<(real, real)>, at: real, ltp: real) {
    previous.None? || at - previous.value.0 >= THROTTLE || Abs(ltp - previous.value.1) > MOVE
  }

  /** A tick passes unless it is a secondary's while the primary is fresh, or repeats its key's price too soon. */
  predicate Admits(log: seq<Event>, at: real, key: string, ltp: real, provider: Option<string>) {
    !(FromSecondary(log, provider) && at - LastHeard(log) < Stale(log)) && Spaced(LastPassed(log, key), at, ltp)
  }

  /** A history the gate can have: time does not run backwards, and every verdict is the gate's. */
  predicate Genuine(log: seq<Event>) {
    (forall i, j :: 0 <= i <= j < |log| ==> log[i].at <= log[j].at)
    && forall j :: 0 <= j < |log| && log[j].Arrived? ==>
         (log[j].passed <==> Admits(log[..j], log[j].at, log[j].key, log[j].ltp, log[j].provider))
  }

  class DedupBuffer {
    var last: map<string, (real, real)>
    var primary: Option<string>
    var staleSec: real
    var lastPrimaryTs: real
    ghost var log: seq<Event>

    constructor ()
      ensures Valid() && log == []
    {
      last, primary, staleSec, lastPrimaryTs, log := map[], None, 3.0, 0.0, [];
    }

    ghost predicate Valid()
      reads this
    {
      Genuine(log) && primary == Primary(log) && staleSec == Stale(log) && lastPrimaryTs == LastHeard(log)
      && forall key :: LastPassed(log, key) == if key in last then Some(last[key]) else None
    }

    ghost predicate NotBefore(now: real)
      reads this
    {
      log != [] ==> log[|log| - 1].at <= now
    }

    method SetPrimary(provider: Option<string>, stale: real, now: real)
      requires Valid() && NotBefore(now)
      modifies this
      ensures Valid()
      ensures var name := if provider.Some? && provider.value != "" then Some(Lower(provider.value)) else None;
              log == old(log) + [PrimarySet(now, name, stale)]
    {
      ghost var before := log;
      primary := if provider.Some? && provider.value != "" then Some(Lower(provider.value)) else None;
      staleSec, lastPrimaryTs := stale, now;
      log := log + [PrimarySet(now, primary, stale)];
      Appended(before, log);
    }

    method Accept(key: string, ltp: real, provider: Option<string>, now: real) returns (passed: bool)
      requires Valid() && NotBefore(now)
      modifies this
      ensures Valid() && log == old(log) + [Arrived(now, key, ltp, provider, passed)]
      ensures passed <==> Admits(old(log), now, key, ltp, provider)
    {
      hide Primary, Stale, LastHeard, LastPassed, Genuine, Lower, Abs;
      ghost var before := log;
      passed := true;
      if primary.Some? && provider.Some? {
        if Lower(provider.value) == primary.value {
          lastPrimaryTs := now;
        } else if now - lastPrimaryTs < staleSec {
          passed := false;
        }
      }
      if passed {
        if key in last {
          var (prevTs, prevLtp) := last[key];
          passed := now - prevTs >= THROTTLE || Abs(ltp - prevLtp) > MOVE;
        }
        if passed {
          last := last[key := (now, ltp)];
        }
      }
      assert passed <==> Admits(log, now, key, ltp, provider);
      hide Admits, Spaced;
      AfterArrival(log, Arrived(now, key, ltp, provider, passed));
      log := log + [Arrived(now, key, ltp, provider, passed)];
      Appended(before, log);
    }
  }

  lemma AfterArrival(log: seq<Event>, e: Event)
    requires e.Arrived?
    ensures Primary(log + [e]) == Primary(log) && Stale(log + [e]) == Stale(log)
    ensures LastHeard(log + [e]) == if FromPrimary(log, e.provider) then e.at else LastHeard(log)
    ensures forall key :: LastPassed(log + [e], key)
                       == if e.key == key && e.passed then Some((e.at, e.ltp)) else LastPassed(log, key)
  {
    assert (log + [e])[..|log|] == log;
  }

  lemma Appended(log: seq<Event>, log': seq<Event>)
    requires Genuine(log) && |log'| == |log| + 1 && log'[..|log|] == log
    requires log != [] ==> log[|log| - 1].at <= log'[|log|].at
    requires var e := log'[|log|]; e.Arrived? ==> (e.passed <==> Admits(log, e.at, e.key, e.ltp, e.provider))
    ensures Genuine(log')
  {
    hide Admits;
    forall j | 0 <= j < |log'| && log'[j].Arrived?
      ensures log'[j].passed <==> Admits(log'[..j], log'[j].at, log'[j].key, log'[j].ltp, log'[j].provider)
    {
      assert log'[..j] == log[..j];
    }
  }

  // ---------------------------------------------------------------- what every history guarantees

  /** LastHeard is never earlier than anything heard from the primary of the time, or its appointment; a later
      appointment only makes it later. */
  lemma {:induction false} HeardSince(log: seq<Event>, i: nat)
    requires i < |log| && Genuine(log)
    requires log[i].PrimarySet? || FromPrimary(log[..i], log[i].provider)
    ensures LastHeard(log) >= log[i].at
  {
    hide Admits;
    var m := |log| - 1;
    if i < m {
      Prefix(log, m);
      assert log[..m][..i] == log[..i];
      HeardSince(log[..m], i);
    }
  }

  lemma Prefix(log: seq<Event>, m: nat)
    requires m <= |log| && Genuine(log)
    ensures Genuine(log[..m])
  {
    hide Admits;
    forall j | 0 <= j < m && log[j].Arrived?
      ensures log[j].passed <==> Admits(log[..m][..j], log[j].at, log[j].key, log[j].ltp, log[j].provider)
    {
      assert log[..m][..j] == log[..j];
    }
  }

  /** Failover: a secondary's tick passes only if no primary, this one or one before it, was appointed or heard of
      within the stale time now in force. */
  lemma SecondaryOnlyWhenSilent(log: seq<Event>, i: nat, j: nat)
    requires Genuine(log) && i < j < |log|
    requires log[i].PrimarySet? || FromPrimary(log[..i], log[i].provider)
    requires log[j].Arrived? && FromSecondary(log[..j], log[j].provider) && log[j].passed
    ensures log[j].at - log[i].at >= Stale(log[..j])
  {
    Prefix(log, j);
    assert log[..j][..i] == log[..i];
    HeardSince(log[..j], i);
  }

  lemma {:induction false} PassedSince(log: seq<Event>, i: nat)
    requires i < |log| && log[i].Arrived? && log[i].passed
    requires forall k :: i < k < |log| && log[k].Arrived? && log[k].key == log[i].key ==> !log[k].passed
    ensures LastPassed(log, log[i].key) == Some((log[i].at, log[i].ltp))
  {
    var m := |log| - 1;
    if i < m {
      PassedSince(log[..m], i);
    }
  }

  /** Throttle: two successive passed ticks of a key are 100 ms apart or differ in price. */
  lemma Throttled(log: seq<Event>, i: nat, j: nat)
    requires Genuine(log) && i < j < |log| && log[i].Arrived? && log[j].Arrived?
    requires log[i].key == log[j].key && log[i].passed && log[j].passed
    requires forall k :: i < k < j && log[k].Arrived? && log[k].key == log[i].key ==> !log[k].passed
    ensures log[j].at - log[i].at >= THROTTLE || Abs(log[j].ltp - log[i].ltp) > MOVE
  {
    PassedSince(log[..j], i);
  }

  // ---------------------------------------------------------------- the bad-tick guards

  datatype Kind = INDEX | OPTION

  /** What a guard has seen: a tick and its verdict, or keys evicted from the cache. */
  datatype Seen = Tick(key: string, ltp: real, rejected: bool) | Forgot(keys: set<string>)

  const BAD_TICK_MAX := 3
  const OPT_CACHE_MAX := 2000

  predicate IndexJump(ltp: real, good: real)
    requires good > 0.0
  {
    Abs(ltp - good) / good > 0.03
  }

  predicate OptionJump(ltp: real, good: real)
    requires good > 0.0
  {
    Abs(ltp - good) > 50.0 && Abs(ltp - good) / good > 0.60
  }

  predicate Jump(kind: Kind, ltp: real, good: real)
    requires good > 0.0
  {
    if kind.INDEX? then IndexJump(ltp, good) else OptionJump(ltp, good)
  }

  /** The last price accepted for a key, zero when there is none to remember. */
  function Good(log: seq<Seen>, key: string): real {
    if log == [] then 0.0
    else match log[|log| - 1]
         case Tick(k, ltp, rejected) => if k == key && !rejected then ltp else Good(log[..|log| - 1], key)
         case Forgot(keys) => if key in keys then 0.0 else Good(log[..|log| - 1], key)
  }

  /** The rejections counted against a key: an accepted tick that could be compared clears them. */
  function Strikes(log: seq<Seen>, key: string): nat {
    if log == [] then 0
    else
      var front := log[..|log| - 1];
      match log[|log| - 1]
      case Tick(k, ltp, rejected) =>
        if k != key then Strikes(front, key)
        else if rejected then Strikes(front, key) + 1
        else if Good(front, key) > 0.0 && ltp > 0.0 then 0 else Strikes(front, key)
      case Forgot(keys) => if key in keys then 0 else Strikes(front, key)
  }

  /** The guard's rule: a jump from the last good price is rejected, unless two are counted already. */
  predicate Rejects(kind: Kind, log: seq<Seen>, key: string, ltp: real) {
    Good(log, key) > 0.0 && ltp > 0.0 && Jump(kind, ltp, Good(log, key)) && Strikes(log, key) < 2
  }

  /** A history the guard can have. */
  predicate Consistent(kind: Kind, log: seq<Seen>) {
    forall j :: 0 <= j < |log| && log[j].Tick? ==>
      (log[j].rejected <==> Rejects(kind, log[..j], log[j].key, log[j].ltp))
  }

  function BadCount(bad: map<string, nat>, key: string): nat { if key in bad then bad[key] else 0 }

  function LastGood(good: map<string, real>, key: string): real { if key in good then good[key] else 0.0 }

  /** A guard's memory is what its history makes it. */
  ghost predicate Recalls(kind: Kind, good: map<string, real>, bad: map<string, nat>, log: seq<Seen>) {
    Consistent(kind, log)
    && forall key :: LastGood(good, key) == Good(log, key) && BadCount(bad, key) == Strikes(log, key)
  }

  lemma Rejecting(kind: Kind, good: map<string, real>, bad: map<string, nat>, log: seq<Seen>, key: string, ltp: real)
    requires Recalls(kind, good, bad, log) && Rejects(kind, log, key, ltp)
    ensures Recalls(kind, good, bad[key := BadCount(bad, key) + 1], log + [Tick(key, ltp, true)])
  {
    SeenMore(kind, log, Tick(key, ltp, true));
    AfterSeen(log, Tick(key, ltp, true));
    hide Rejects, Good, Strikes, Consistent;
  }

  lemma Accepting(kind: Kind, good: map<string, real>, bad: map<string, nat>, log: seq<Seen>, key: string, ltp: real)
    requires Recalls(kind, good, bad, log) && !Rejects(kind, log, key, ltp)
    ensures var compared := LastGood(good, key) > 0.0 && ltp > 0.0;
            Recalls(kind, good[key := ltp], if compared then bad[key := 0] else bad, log + [Tick(key, ltp, false)])
  {
    SeenMore(kind, log, Tick(key, ltp, false));
    AfterSeen(log, Tick(key, ltp, false));
    hide Rejects, Good, Strikes, Consistent;
  }

  lemma Forgetting(kind: Kind, good: map<string, real>, bad: map<string, nat>, log: seq<Seen>, keys: set<string>)
    requires Recalls(kind, good, bad, log)
    ensures Recalls(kind, good - keys, bad - keys, log + [Forgot(keys)])
  {
    SeenMore(kind, log, Forgot(keys));
    AfterSeen(log, Forgot(keys));
    hide Rejects, Good, Strikes, Consistent;
  }

  lemma SeenMore(kind: Kind, log: seq<Seen>, e: Seen)
    requires Consistent(kind, log) && (e.Tick? ==> (e.rejected <==> Rejects(kind, log, e.key, e.ltp)))
    ensures Consistent(kind, log + [e]) && (log + [e])[..|log|] == log
  {
    hide Rejects;
    var log' := log + [e];
    forall j | 0 <= j < |log'| && log'[j].Tick?
      ensures log'[j].rejected <==> Rejects(kind, log'[..j], log'[j].key, log'[j].ltp)
    {
      assert log'[..j] == log[..j];
      assert log[..|log|] == log;
    }
  }

  lemma AfterSeen(log: seq<Seen>, e: Seen)
    ensures forall key :: Good(log + [e], key)
                       == if e.Tick? then (if e.key == key && !e.rejected then e.ltp else Good(log, key))
                          else if key in e.keys then 0.0 else Good(log, key)
    ensures forall key :: Strikes(log + [e], key)
                       == if e.Forgot? then (if key in e.keys then 0 else Strikes(log, key))
                          else if e.key != key then Strikes(log, key)
                          else if e.rejected then Strikes(log, key) + 1
                          else if Good(log, key) > 0.0 && e.ltp > 0.0 then 0 else Strikes(log, key)
  {
    assert (log + [e])[..|log|] == log;
  }

  /** Since p, a key has not been seen. */
  predicate Quiet(log: seq<Seen>, p: nat, q: nat, key: string)
    requires p <= q <= |log|
  {
    forall m :: p <= m < q && log[m].Tick? ==> log[m].key != key
  }

  lemma {:induction false} QuietKeeps(log: seq<Seen>, p: nat, q: nat, key: string)
    requires p <= q <= |log| && Quiet(log, p, q, key)
    ensures Good(log[..q], key) == 0.0
            || (Good(log[..q], key) == Good(log[..p], key) && Strikes(log[..q], key) == Strikes(log[..p], key))
  {
    if p < q {
      QuietKeeps(log, p, q - 1, key);
      assert log[..q][..q - 1] == log[..q - 1];
    }
  }

  /** Never are three ticks of a key running rejected, whatever is evicted between them. */
  lemma NeverThree(kind: Kind, log: seq<Seen>, i: nat, j: nat, k: nat, key: string)
    requires Consistent(kind, log) && i < j < k < |log|
    requires log[i].Tick? && log[j].Tick? && log[k].Tick? && log[i].key == log[j].key == log[k].key == key
    requires Quiet(log, i + 1, j, key) && Quiet(log, j + 1, k, key)
    ensures !(log[i].rejected && log[j].rejected && log[k].rejected)
  {
    QuietKeeps(log, i + 1, j, key);
    QuietKeeps(log, j + 1, k, key);
    assert log[..i + 1][..i] == log[..i] && log[..j + 1][..j] == log[..j];
    assert log[..i + 1][i] == log[i] && log[..j + 1][j] == log[j];
    assert log[j].rejected ==> Rejects(kind, log[..j], key, log[j].ltp);
    assert log[k].rejected ==> Rejects(kind, log[..k], key, log[k].ltp);
  }

  /** The last price accepted for a key and not forgotten since is the good one. */
  lemma {:induction false} GoodMeans(log: seq<Seen>, i: nat, key: string)
    requires i < |log| && log[i].Tick? && log[i].key == key && !log[i].rejected
    requires forall k :: i < k < |log| ==>
      if log[k].Tick? then log[k].key != key || log[k].rejected else key !in log[k].keys
    ensures Good(log, key) == log[i].ltp
  {
    if i < |log| - 1 {
      GoodMeans(log[..|log| - 1], i, key);
    }
  }

  /** A moment that clears the count of a key: it was forgotten, or accepted after a comparison. */
  predicate Clears(log: seq<Seen>, k: nat, key: string)
    requires k < |log|
  {
    match log[k]
    case Tick(other, ltp, rejected) => other == key && !rejected && Good(log[..k], key) > 0.0 && ltp > 0.0
    case Forgot(keys) => key in keys
  }

  function Rejected(log: seq<Seen>, p: nat, key: string): set<int> {
    set m | p <= m < |log| && log[m].Tick? && log[m].key == key && log[m].rejected
  }

  /** The count is the number of rejections since it was last cleared. */
  lemma {:induction false} StrikesCount(log: seq<Seen>, p: nat, key: string)
    requires p <= |log| && (p > 0 ==> Clears(log, p - 1, key))
    requires forall k :: p <= k < |log| ==> !Clears(log, k, key)
    ensures Strikes(log, key) == |Rejected(log, p, key)|
  {
    var m := |log| - 1;
    if p == |log| {
      assert Rejected(log, p, key) == {};
      assert p > 0 ==> log[..m] == log[..p - 1];
    } else {
      var front := log[..m];
      forall k | 0 <= k < m
        ensures Clears(front, k, key) == Clears(log, k, key)
      {
        assert front[..k] == log[..k];
      }
      StrikesCount(front, p, key);
      assert !Clears(log, m, key);
      if log[m].Tick? && log[m].key == key && log[m].rejected {
        assert Rejected(log, p, key) == Rejected(front, p, key) + {m};
      } else {
        assert Rejected(log, p, key) == Rejected(front, p, key);
      }
    }
  }

  class Feeder {
    const provider: Option<string>
    const gate: DedupBuffer?
    var lastGoodIndex: map<string, real>
    var badTickCount: map<string, nat>
    var optKeys: seq<string>
    var lastGoodOpt: map<string, real>
    var optBadCount: map<string, nat>
    ghost var indexLog: seq<Seen>
    ghost var optionLog: seq<Seen>

    constructor (provider: Option<string>, gate: DedupBuffer?)
      ensures Valid() && this.provider == provider && this.gate == gate && indexLog == [] && optionLog == []
    {
      this.provider, this.gate := provider, gate;
      lastGoodIndex, badTickCount, optKeys, lastGoodOpt, optBadCount := map[], map[], [], map[], map[];
      indexLog, optionLog := [], [];
    }

    /** Both guards recall their histories, and the option cache, in insertion order, never exceeds 2001 keys. */
    ghost predicate Valid()
      reads this
    {
      Recalls(INDEX, lastGoodIndex, badTickCount, indexLog) && Recalls(OPTION, lastGoodOpt, optBadCount, optionLog)
      && (forall k :: k in lastGoodOpt <==> k in optKeys)
      && (forall i, j :: 0 <= i < j < |optKeys| ==> optKeys[i] != optKeys[j])
      && |optKeys| <= OPT_CACHE_MAX + 1
    }

    /** Without a gate there is nothing to be ready. */
    ghost predicate GateReady(now: real)
      reads this, gate
    {
      gate != null ==> gate.Valid() && gate.NotBefore(now)
    }

    ghost function GateLog(): seq<Event>
      reads this, gate
    {
      if gate == null then [] else gate.log
    }

    /** Published when the guard lets it through and then the gate, if there is one, does. */
    method PublishIndex(key: string, ltp: real, now: real) returns (published: bool)
      requires Valid() && GateReady(now)
      modifies this, gate
      ensures Valid() && GateReady(now) && optionLog == old(optionLog)
      ensures var rejected := Rejects(INDEX, old(indexLog), key, ltp);
              indexLog == old(indexLog) + [Tick(key, ltp, rejected)]
              && (rejected ==> !published && GateLog() == old(GateLog()))
              && (!rejected ==> published == (gate == null || Admits(old(GateLog()), now, key, ltp, provider)))
              && (!rejected && gate != null ==>
                    GateLog() == old(GateLog()) + [Arrived(now, key, ltp, provider, published)])
    {
      hide Admits, Genuine, Recalls, IndexJump, Primary, Stale, LastHeard, LastPassed, Rejects;
      Recalled(INDEX, lastGoodIndex, badTickCount, indexLog, key, ltp);
      var good := if key in lastGoodIndex then lastGoodIndex[key] else 0.0;
      if Rejects(INDEX, indexLog, key, ltp) {
        Rejecting(INDEX, lastGoodIndex, badTickCount, indexLog, key, ltp);
      } else {
        Accepting(INDEX, lastGoodIndex, badTickCount, indexLog, key, ltp);
      }
      if good > 0.0 && ltp > 0.0 {
        if IndexJump(ltp, good) {
          var cnt := BadCount(badTickCount, key) + 1;
          ghost var counted := badTickCount;
          badTickCount := badTickCount[key := cnt];
          assert counted[key := 0] == badTickCount[key := 0];
          if cnt < BAD_TICK_MAX {
            indexLog := indexLog + [Tick(key, ltp, true)];
            return false;
          }
        }
        badTickCount := badTickCount[key := 0];
      }
      lastGoodIndex := lastGoodIndex[key := ltp];
      indexLog := indexLog + [Tick(key, ltp, false)];
      published := true;
      if gate != null {
        published := gate.Accept(key, ltp, provider, now);
      }
    }

    /** Over the cap the oldest 500 keys go, with their counters. */
    method Evict()
      requires Valid()
      modifies this`optKeys, this`lastGoodOpt, this`optBadCount, this`optionLog
      ensures Valid() && |optKeys| <= 2000
      ensures |old(optKeys)| <= 2000 ==>
                optKeys == old(optKeys) && lastGoodOpt == old(lastGoodOpt) && optBadCount == old(optBadCount)
                && optionLog == old(optionLog)
      ensures |old(optKeys)| > 2000 ==>
                var evicted := Oldest(old(optKeys), 500);
                optKeys == old(optKeys)[500..] && lastGoodOpt == old(lastGoodOpt) - evicted
                && optBadCount == old(optBadCount) - evicted && optionLog == old(optionLog) + [Forgot(evicted)]
    {
      hide Recalls;
      if |optKeys| > OPT_CACHE_MAX {
        var evicted := Oldest(optKeys, OPT_CACHE_MAX / 4);
        Forgetting(OPTION, lastGoodOpt, optBadCount, optionLog, evicted);
        optionLog := optionLog + [Forgot(evicted)];
        lastGoodOpt := lastGoodOpt - evicted;
        optBadCount := optBadCount - evicted;
        optKeys := optKeys[OPT_CACHE_MAX / 4..];
      }
    }

    /** The option guard proper, on a cache with room for one more key. */
    method GuardOption(key: string, ltp: real) returns (rejected: bool)
      requires Valid() && |optKeys| <= 2000
      modifies this`optKeys, this`lastGoodOpt, this`optBadCount, this`optionLog
      ensures Valid() && optionLog == old(optionLog) + [Tick(key, ltp, rejected)]
      ensures rejected <==> Rejects(OPTION, old(optionLog), key, ltp)
      ensures optKeys == if rejected || key in old(optKeys) then old(optKeys) else old(optKeys) + [key]
    {
      hide Recalls, OptionJump, Rejects;
      Recalled(OPTION, lastGoodOpt, optBadCount, optionLog, key, ltp);
      var good := if key in lastGoodOpt then lastGoodOpt[key] else 0.0;
      if Rejects(OPTION, optionLog, key, ltp) {
        Rejecting(OPTION, lastGoodOpt, optBadCount, optionLog, key, ltp);
      } else {
        Accepting(OPTION, lastGoodOpt, optBadCount, optionLog, key, ltp);
      }
      if good > 0.0 && ltp > 0.0 {
        if OptionJump(ltp, good) {
          var cnt := BadCount(optBadCount, key) + 1;
          ghost var counted := optBadCount;
          optBadCount := optBadCount[key := cnt];
          assert counted[key := 0] == optBadCount[key := 0];
          if cnt < BAD_TICK_MAX {
            optionLog := optionLog + [Tick(key, ltp, true)];
            return true;
          }
        }
        optBadCount := optBadCount[key := 0];
      }
      if key !in lastGoodOpt {
        optKeys := optKeys + [key];
      }
      lastGoodOpt := lastGoodOpt[key := ltp];
      optionLog := optionLog + [Tick(key, ltp, false)];
      rejected := false;
    }

    method PublishOption(key: string, ltp: real, now: real) returns (published: bool)
      requires Valid() && GateReady(now)
      modifies this, gate
      ensures Valid() && GateReady(now) && indexLog == old(indexLog) && |lastGoodOpt| <= 2001
      ensures var before := if |old(optKeys)| > 2000 then old(optionLog) + [Forgot(Oldest(old(optKeys), 500))]
                            else old(optionLog);
              var rejected := Rejects(OPTION, before, key, ltp);
              optionLog == before + [Tick(key, ltp, rejected)]
              && (rejected ==> !published && GateLog() == old(GateLog()))
              && (!rejected ==> published == (gate == null || Admits(old(GateLog()), now, key, ltp, provider)))
              && (!rejected && gate != null ==>
                    GateLog() == old(GateLog()) + [Arrived(now, key, ltp, provider, published)])
    {
      hide Admits, Genuine, Recalls, OptionJump, Rejects, Primary, Stale, LastHeard, LastPassed;
      Evict();
      var rejected := GuardOption(key, ltp);
      CacheSize(optKeys, lastGoodOpt);
      if rejected {
        return false;
      }
      published := true;
      if gate != null {
        published := gate.Accept(key, ltp, provider, now);
      }
    }
  }

  function Oldest(keys: seq<string>, n: nat): set<string>
    requires n <= |keys|
  {
    set k | k in keys[..n]
  }

  lemma Recalled(kind: Kind, good: map<string, real>, bad: map<string, nat>, log: seq<Seen>, key: string, ltp: real)
    requires Recalls(kind, good, bad, log)
    ensures Rejects(kind, log, key, ltp) <==>
            LastGood(good, key) > 0.0 && ltp > 0.0 && Jump(kind, ltp, LastGood(good, key)) && BadCount(bad, key) < 2
  {
  }

  lemma {:induction false} CacheSize(keys: seq<string>, cache: map<string, real>)
    requires forall k :: k in cache ==> k in keys
    ensures |cache| <= |keys|
  {
    if keys == [] {
      assert cache == map[];
    } else {
      CacheSize(keys[1..], cache - {keys[0]});
      assert cache.Keys <= (cache - {keys[0]}).Keys + {keys[0]};
      Subset(cache.Keys, (cache - {keys[0]}).Keys + {keys[0]});
    }
  }

  lemma {:induction false} Subset<T>(a: set<T>, b: set<T>)
    requires a <= b
    ensures |a| <= |b|
    decreases |b|
  {
    if x :| x in a {
      Subset(a - {x}, b - {x});
    }
  }

  // ---------------------------------------------------------------- the verdicts, said of the history

  /** The appointment in force is the latest one. */
  lemma {:induction false} LatestAppointment(log: seq<Event>, i: nat)
    requires i < |log| && log[i].PrimarySet? && forall k :: i < k < |log| ==> log[k].Arrived?
    ensures Primary(log) == log[i].primary && Stale(log) == log[i].stale
  {
    if i < |log| - 1 {
      LatestAppointment(log[..|log| - 1], i);
    }
  }

  /** Without any appointment there is no primary. */
  lemma {:induction false} NoAppointment(log: seq<Event>)
    requires forall k :: 0 <= k < |log| ==> log[k].Arrived?
    ensures Primary(log) == None
  {
    if log != [] {
      NoAppointment(log[..|log| - 1]);
    }
  }

  /** A moment that counts as hearing from the primary of its time. */
  predicate Heard(log: seq<Event>, i: nat)
    requires i < |log|
  {
    log[i].PrimarySet? || FromPrimary(log[..i], log[i].provider)
  }

  /** With a primary, LastHeard is the time of some such moment. */
  lemma {:induction false} HeardAt(log: seq<Event>) returns (i: nat)
    requires Primary(log).Some?
    ensures i < |log| && Heard(log, i) && log[i].at == LastHeard(log)
  {
    var m := |log| - 1;
    if Heard(log, m) {
      i := m;
    } else {
      i := HeardAt(log[..m]);
      assert log[..m][..i] == log[..i];
    }
  }

  /** The last tick of a key that passed. */
  predicate LastToPass(log: seq<Event>, i: nat, key: string)
    requires i < |log|
  {
    log[i].Arrived? && log[i].passed && log[i].key == key
    && forall k :: i < k < |log| && log[k].Arrived? && log[k].key == key ==> !log[k].passed
  }

  lemma {:induction false} PassedAt(log: seq<Event>, key: string)
    ensures LastPassed(log, key).Some? ==>
              exists i: nat ::
                i < |log| && LastToPass(log, i, key) && LastPassed(log, key) == Some((log[i].at, log[i].ltp))
    ensures LastPassed(log, key).None? ==> forall i: nat :: i < |log| ==> !LastToPass(log, i, key)
  {
    if log != [] {
      var m := |log| - 1;
      PassedAt(log[..m], key);
      if log[m].Arrived? && log[m].key == key && log[m].passed {
        assert LastToPass(log, m, key);
      } else {
        assert forall i: nat :: i < m ==> (LastToPass(log, i, key) <==> LastToPass(log[..m], i, key));
        assert !LastToPass(log, m, key);
      }
    }
  }

  /** Exactly when a tick passes the gate: if it is a secondary's, every moment the primary was heard or appointed lies
      the stale time back or more; and the last tick of its key that passed lies a tenth of a second back or more, or
      differs by more than one ten-thousandth. */
  lemma PassedIff(log: seq<Event>, j: nat)
    requires Genuine(log) && j < |log| && log[j].Arrived?
    ensures log[j].passed <==>
            (FromSecondary(log[..j], log[j].provider) ==>
               forall i: nat :: i < j && Heard(log[..j], i) ==> log[j].at - log[i].at >= Stale(log[..j]))
            && forall i: nat :: i < j && LastToPass(log[..j], i, log[j].key) ==>
                 log[j].at - log[i].at >= 0.1 || log[j].ltp - log[i].ltp > 0.0001 || log[i].ltp - log[j].ltp > 0.0001
  {
    var before, e := log[..j], log[j];
    Prefix(log, j);
    assert forall i :: 0 <= i < j ==> before[i] == log[i];
    if FromSecondary(before, e.provider) {
      var i := HeardAt(before);
      forall k: nat | k < j && Heard(before, k)
        ensures LastHeard(before) >= before[k].at
      {
        HeardSince(before, k);
      }
    }
    PassedAt(before, e.key);
    forall i: nat | i < j && LastToPass(before, i, e.key)
      ensures LastPassed(before, e.key) == Some((log[i].at, log[i].ltp))
    {
      PassedSince(before, i);
    }
    hide LastPassed, LastHeard, Primary, Stale, Genuine, LastToPass, Heard, FromPrimary, FromSecondary;
  }

  /** The index guard's jump: more than three per cent up or down. */
  lemma IndexJumpMeans(ltp: real, good: real)
    requires good > 0.0
    ensures IndexJump(ltp, good) <==> ltp > 1.03 * good || ltp < 0.97 * good
  {
    var d := Abs(ltp - good);
    assert d / good * good == d;
    Fraction(d, good, 0.03);
  }

  /** The option guard's jump: more than fifty points and more than sixty per cent, up or down. */
  lemma OptionJumpMeans(ltp: real, good: real)
    requires good > 0.0
    ensures OptionJump(ltp, good) <==>
            (ltp > good + 50.0 && ltp > 1.6 * good) || (ltp < good - 50.0 && ltp < 0.4 * good)
  {
    Fraction(Abs(ltp - good), good, 0.60);
  }

  lemma Fraction(d: real, good: real, part: real)
    requires good > 0.0
    ensures d / good > part <==> d > part * good
  {
    var q := d / good;
    assert q * good == d;
    assert (q - part) * good == d - part * good;
    assert q > part ==> (q - part) * good > 0.0;
    assert q < part ==> (part - q) * good > 0.0;
  }

  /** The same letter, but for its case. */
  predicate SameLetter(a: char, b: char) {
    a == b || ('A' <= a <= 'Z' && b as int == a as int + 32) || ('A' <= b <= 'Z' && a as int == b as int + 32)
  }

  predicate SameName(a: string, b: string) {
    |a| == |b| && forall i :: 0 <= i < |a| ==> SameLetter(a[i], b[i])
  }

  /** Names are compared without regard to case. */
  lemma LowerMeans(a: string, b: string)
    ensures Lower(a) == Lower(b) <==> SameName(a, b)
  {
    if Lower(a) == Lower(b) {
      assert |Lower(a)| == |a| && |Lower(b)| == |b|;
      forall i | 0 <= i < |a|
        ensures SameLetter(a[i], b[i])
      {
        assert LowerChar(a[i]) == Lower(a)[i] == Lower(b)[i] == LowerChar(b[i]);
      }
    }
    if SameName(a, b) {
      forall i | 0 <= i < |a|
        ensures LowerChar(a[i]) == LowerChar(b[i])
      {
        assert SameLetter(a[i], b[i]);
      }
    }
  }

  /** Whose tick it is, in a history whose primary was appointed by name: the primary's if the names are the same, a
      secondary's if they differ, and neither without a primary or without a name. */
  lemma WhoseTick(log: seq<Event>, provider: Option<string>, name: string)
    requires Primary(log) == Some(Lower(name))
    ensures FromPrimary(log, provider) <==> provider.Some? && SameName(provider.value, name)
    ensures FromSecondary(log, provider) <==> provider.Some? && !SameName(provider.value, name)
  {
    if provider.Some? {
      LowerMeans(provider.value, name);
    }
  }
}
