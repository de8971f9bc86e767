/** The publish-subscribe backbone: one bounded queue per subscriber, dropping what does not fit. */
module EventBus {

  // ---------------------------------------------------------------- what a subscriber gets

  /** The offered events whose flag is set, in order. */
  function Kept<E>(offered: seq<E>, flags: seq<bool>): seq<E>
    requires |offered| == |flags|
  {
    if offered == [] then []
    else
      Kept(offered[..|offered| - 1], flags[..|flags| - 1])
      + if flags[|flags| - 1] then [offered[|offered| - 1]] else []
  }

  function Omitted(flags: seq<bool>): nat {
    if flags == [] then 0 else Omitted(flags[..|flags| - 1]) + if flags[|flags| - 1] then 0 else 1
  }

  lemma KeptSnoc<E>(offered: seq<E>, flags: seq<bool>, e: E, kept: bool)
    requires |offered| == |flags|
    ensures Kept(offered + [e], flags + [kept]) == Kept(offered, flags) + if kept then [e] else []
  {
    assert (offered + [e])[..|offered|] == offered && (flags + [kept])[..|flags|] == flags;
  }

  lemma OmittedSnoc(flags: seq<bool>, kept: bool)
    ensures Omitted(flags + [kept]) == Omitted(flags) + if kept then 0 else 1
  {
    assert (flags + [kept])[..|flags|] == flags;
  }

  /** Nothing is lost but what is counted, and without omissions nothing is lost at all. */
  lemma {:induction false} KeptOrOmitted<E>(offered: seq<E>, flags: seq<bool>)
    requires |offered| == |flags|
    ensures |Kept(offered, flags)| + Omitted(flags) == |offered|
    ensures Omitted(flags) == 0 <==> forall i :: 0 <= i < |flags| ==> flags[i]
    ensures Omitted(flags) == 0 ==> Kept(offered, flags) == offered
  {
    if offered != [] {
      KeptOrOmitted(offered[..|offered| - 1], flags[..|flags| - 1]);
      assert forall i :: 0 <= i < |flags| - 1 ==> flags[i] == flags[..|flags| - 1][i];
    }
  }

  /** What is kept is an in-order selection: each kept event sits at a strictly later place of the offered ones. */
  lemma {:induction false} KeptInOrder<E>(offered: seq<E>, flags: seq<bool>) returns (at: seq<nat>)
    requires |offered| == |flags|
    ensures |at| == |Kept(offered, flags)|
    ensures forall i :: 0 <= i < |at| ==>
              at[i] < |offered| && flags[at[i]] && offered[at[i]] == Kept(offered, flags)[i]
    ensures forall i, j :: 0 <= i < j < |at| ==> at[i] < at[j]
  {
    at := [];
    if offered != [] {
      var m := |offered| - 1;
      var kept := Kept(offered[..m], flags[..m]);
      assert Kept(offered, flags) == kept + if flags[m] then [offered[m]] else [];
      at := KeptInOrder(offered[..m], flags[..m]);
      hide Kept;
      if flags[m] {
        at := at + [m];
      }
    }
  }

  // ---------------------------------------------------------------- queues and bus

  class Queue<E> {
    const maxsize: int
    var items: seq<E>
    ghost var consumed: seq<E>
    ghost var offered: seq<E>
    ghost var flags: seq<bool>

    constructor (maxsize: int)
      ensures Valid() && items == consumed == offered == [] && flags == [] && this.maxsize == maxsize
    {
      this.maxsize, items, consumed, offered, flags := maxsize, [], [], [], [];
    }

    /** What was consumed, followed by what is queued, is what was kept of everything published since subscribing. */
    ghost predicate Valid()
      reads this
    {
      |flags| == |offered| && consumed + items == Kept(offered, flags)
      && (maxsize > 0 ==> |items| <= maxsize)
    }

    predicate Full()
      reads this
    {
      maxsize > 0 && |items| >= maxsize
    }

    method PutNowait(e: E) returns (dropped: bool)
      requires Valid()
      modifies this
      ensures Valid() && (dropped <==> maxsize > 0 && |old(items)| >= maxsize)
      ensures items == (if dropped then old(items) else old(items) + [e]) && consumed == old(consumed)
      ensures offered == old(offered) + [e] && flags == old(flags) + [!dropped]
    {
      dropped := Full();
      KeptSnoc(offered, flags, e, !dropped);
      if !dropped {
        items := items + [e];
      }
      offered, flags := offered + [e], flags + [!dropped];
    }

    method Get() returns (e: E)
      requires Valid() && items != []
      modifies this
      ensures Valid() && e == old(items)[0] && items == old(items)[1..] && consumed == old(consumed) + [e]
      ensures offered == old(offered) && flags == old(flags)
    {
      e := items[0];
      assert consumed + items == (consumed + [e]) + items[1..];
      consumed, items := consumed + [e], items[1..];
    }
  }

  /** What several queues have missed in all, given their flags. */
  ghost function Missed(fs: seq<seq<bool>>): nat {
    if fs == [] then 0 else Missed(fs[..|fs| - 1]) + Omitted(fs[|fs| - 1])
  }

  lemma {:induction false} MissedUpdate(fs: seq<seq<bool>>, k: nat, f: seq<bool>)
    requires k < |fs|
    ensures Missed(fs[k := f]) == Missed(fs) - Omitted(fs[k]) + Omitted(f)
  {
    var m := |fs| - 1;
    if k < m {
      MissedUpdate(fs[..m], k, f);
      assert fs[k := f][..m] == fs[..m][k := f];
    } else {
      assert fs[k := f][..m] == fs[..m];
    }
  }

  predicate NoRepeats<T(==)>(xs: seq<T>) { forall i, j :: 0 <= i < j < |xs| ==> xs[i] != xs[j] }

  /** The bus as one topic sees it: its subscriber list and its drop count. Topics share nothing else. */
  class Topic<E> {
    const queueSize: int
    var subs: seq<Queue<E>>
    var drops: nat
    /** every queue ever handed out, whether still subscribed or not */
    ghost var ever: seq<Queue<E>>
    /** which of the events offered to each of them it took */
    ghost var flagged: seq<seq<bool>>

    constructor (queueSize: int)
      ensures Valid() && this.queueSize == queueSize && subs == ever == [] && drops == 0
    {
      this.queueSize, subs, drops, ever, flagged := queueSize, [], 0, [], [];
    }

    /** Every queue is sound, and the drop count is exactly what all the queues ever missed. */
    ghost predicate Valid()
      reads this, ever
    {
      NoRepeats(subs) && NoRepeats(ever) && (forall q :: q in subs ==> q in ever)
      && (forall q :: q in ever ==> q.Valid())
      && |flagged| == |ever| && (forall i :: 0 <= i < |ever| ==> flagged[i] == ever[i].flags)
      && drops == Missed(flagged)
    }

    method Subscribe() returns (q: Queue<E>)
      requires Valid()
      modifies this
      ensures Valid() && fresh(q) && q.maxsize == queueSize && q.offered == q.consumed == q.items == []
      ensures subs == old(subs) + [q] && ever == old(ever) + [q] && drops == old(drops)
    {
      q := new Queue(queueSize);
      assert forall x :: x in ever ==> x != q;
      subs, ever, flagged := subs + [q], ever + [q], flagged + [[]];
      assert flagged[..|ever| - 1] == old(flagged);
      assert Omitted([]) == 0;
    }

    /** A queue that is not subscribed is ignored. */
    method Unsubscribe(q: Queue<E>)
      requires Valid()
      modifies this`subs
      ensures Valid() && ever == old(ever) && drops == old(drops)
      ensures forall x :: x in subs <==> x in old(subs) && x != q
      ensures q !in old(subs) ==> subs == old(subs)
      ensures q in old(subs) ==>
                exists i :: 0 <= i < |old(subs)| && old(subs)[i] == q && subs == old(subs)[..i] + old(subs)[i + 1..]
    {
      hide Missed, Kept, Omitted;
      var i := 0;
      while i < |subs| && subs[i] != q
        invariant 0 <= i <= |subs| && q !in subs[..i]
      {
        i := i + 1;
      }
      if i < |subs| {
        ghost var was := subs;
        subs := subs[..i] + subs[i + 1..];
        forall x
          ensures x in subs <==> x in was && x != q
        {
          assert was == was[..i] + [q] + was[i + 1..];
          if x in was[i + 1..] {
            var j :| 0 <= j < |was[i + 1..]| && was[i + 1..][j] == x;
            assert was[i + 1 + j] == x && was[i] == q;
          }
        }
      }
    }

    /** Each subscriber's queue takes the event or, if full, misses it; no queue affects another. */
    method Publish(e: E)
      requires Valid()
      modifies this`drops, this`flagged, subs
      ensures Valid() && subs == old(subs) && ever == old(ever)
      ensures forall q :: q in subs ==> Took(q, e)
      ensures forall q :: q in ever && q !in subs ==> Same(q)
    {
      hide Missed, Kept, Omitted;
      var i := 0;
      while i < |subs|
        invariant 0 <= i <= |subs| && subs == old(subs) && ever == old(ever) && Valid()
        invariant forall j :: 0 <= j < i ==> Took(subs[j], e)
        invariant forall j :: i <= j < |subs| ==> Same(subs[j])
        invariant forall q :: q in ever && q !in subs ==> Same(q)
      {
        Offer(subs[i], e);
        i := i + 1;
      }
    }

    method Offer(q: Queue<E>, e: E)
      requires Valid() && q in ever
      modifies this`drops, this`flagged, q
      ensures Valid() && Took(q, e)
    {
      hide Missed, Kept, Omitted;
      ghost var k :| 0 <= k < |ever| && ever[k] == q;
      assert forall i :: 0 <= i < |ever| && i != k ==> ever[i] != q;
      hide NoRepeats;
      ghost var was := q.flags;
      var dropped := q.PutNowait(e);
      OmittedSnoc(was, !dropped);
      MissedUpdate(flagged, k, was + [!dropped]);
      flagged := flagged[k := was + [!dropped]];
      if dropped {
        drops := drops + 1;
      }
    }
  }

  twostate predicate Took<E>(q: Queue<E>, e: E)
    reads q
  {
    var full := q.maxsize > 0 && |old(q.items)| >= q.maxsize;
    q.items == (if full then old(q.items) else old(q.items) + [e]) && q.consumed == old(q.consumed)
    && q.offered == old(q.offered) + [e] && q.flags == old(q.flags) + [!full]
  }

  twostate predicate Same<E>(q: Queue<E>)
    reads q
  {
    q.items == old(q.items) && q.consumed == old(q.consumed) && q.offered == old(q.offered) && q.flags == old(q.flags)
  }

  /** A queue that was never full when something was published has missed nothing, whatever the other queues did. */
  lemma NeverFullMissesNothing<E>(q: Queue<E>)
    requires q.Valid() && forall i :: 0 <= i < |q.flags| ==> q.flags[i]
    ensures q.consumed + q.items == q.offered
  {
    KeptOrOmitted(q.offered, q.flags);
  }
}
