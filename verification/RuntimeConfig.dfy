/**
 * The live configuration: defaults, a saved file, and patches deep-merged over both. A value that is not a
 * dictionary (numbers, strings, lists) is a leaf and is replaced as a whole.
 */
module RuntimeConfig {
  import opened Wrappers

  datatype Json = Leaf(text: string) | Dict(m: map<string, Json>)

  const EMPTY := Dict(map[])

  // ---------------------------------------------------------------- merging

  /** What one key of the merge holds: the patch wins, dictionary against dictionary goes down. */
  function Merge(base: Json, patch: Json): (r: Json)
    requires base.Dict? && patch.Dict?
    ensures r.Dict? && r.m.Keys == base.m.Keys + patch.m.Keys
    decreases patch
  {
    Dict(map k | k in base.m.Keys + patch.m.Keys ::
      if k !in patch.m then base.m[k]
      else if k in base.m && base.m[k].Dict? && patch.m[k].Dict? then Merge(base.m[k], patch.m[k])
      else patch.m[k])
  }

  /** `_deep_merge`: a loop over the patch, updating a copy of the base. */
  method DeepMerge(base: Json, patch: Json) returns (result: Json)
    requires base.Dict? && patch.Dict?
    ensures result == Merge(base, patch)
    decreases patch
  {
    var r := base.m;
    var todo := patch.m.Keys;
    while todo != {}
      invariant todo <= patch.m.Keys && r.Keys == base.m.Keys + (patch.m.Keys - todo)
      invariant forall k :: k in r ==> r[k] == if k in patch.m && k !in todo then Merge(base, patch).m[k] else base.m[k]
    {
      var k :| k in todo;
      todo := todo - {k};
      var v := patch.m[k];
      if v.Dict? && k in r && r[k].Dict? {
        var deeper := DeepMerge(r[k], v);
        r := r[k := deeper];
      } else {
        r := r[k := v];
      }
    }
    result := Dict(r);
  }

  /** Merging the same patch twice is merging it once. */
  lemma {:induction false} MergeTwice(base: Json, patch: Json)
    requires base.Dict? && patch.Dict?
    ensures Merge(Merge(base, patch), patch) == Merge(base, patch)
    decreases patch
  {
    var once := Merge(base, patch);
    forall k | k in patch.m && once.m[k].Dict? && patch.m[k].Dict?
      ensures Merge(once.m[k], patch.m[k]) == once.m[k]
    {
      if k in base.m && base.m[k].Dict? {
        MergeTwice(base.m[k], patch.m[k]);
      } else {
        MergeSelf(patch.m[k]);
      }
    }
    assert Merge(once, patch).m == once.m;
  }

  lemma {:induction false} MergeSelf(j: Json)
    requires j.Dict?
    ensures Merge(j, j) == j
    decreases j
  {
    forall k | k in j.m && j.m[k].Dict?
      ensures Merge(j.m[k], j.m[k]) == j.m[k]
    {
      MergeSelf(j.m[k]);
    }
    assert Merge(j, j).m == j.m;
  }

  // ---------------------------------------------------------------- paths

  function Lookup(j: Json, path: seq<string>): Option<Json> {
    if path == [] then Some(j)
    else if j.Dict? && path[0] in j.m then Lookup(j.m[path[0]], path[1..])
    else None
  }

  /** The patch says something about the value at a path, or about a value it lies in or contains. */
  predicate Mentions(patch: Json, path: seq<string>) {
    path == [] || patch.Leaf? || (path[0] in patch.m && Mentions(patch.m[path[0]], path[1..]))
  }

  /** Every path a patch does not mention keeps its value, or its absence. */
  lemma {:induction false} UnmentionedKept(base: Json, patch: Json, path: seq<string>)
    requires base.Dict? && patch.Dict? && !Mentions(patch, path)
    ensures Lookup(Merge(base, patch), path) == Lookup(base, path)
    decreases path
  {
    var k := path[0];
    if k in patch.m {
      assert patch.m[k].Dict? && path[1..] != [];
      if k in base.m && base.m[k].Dict? {
        UnmentionedKept(base.m[k], patch.m[k], path[1..]);
      } else {
        UnmentionedAbsent(patch.m[k], path[1..]);
      }
    }
  }

  lemma {:induction false} UnmentionedAbsent(patch: Json, path: seq<string>)
    requires !Mentions(patch, path)
    ensures Lookup(patch, path) == None
    decreases path
  {
    if path[0] in patch.m {
      UnmentionedAbsent(patch.m[path[0]], path[1..]);
    }
  }

  /** Every leaf of the patch ends up at its path. */
  lemma {:induction false} PatchWins(base: Json, patch: Json, path: seq<string>)
    requires base.Dict? && patch.Dict? && path != [] && Lookup(patch, path).Some? && Lookup(patch, path).value.Leaf?
    ensures Lookup(Merge(base, patch), path) == Lookup(patch, path)
    decreases path
  {
    var k := path[0];
    if k in base.m && base.m[k].Dict? && patch.m[k].Dict? {
      PatchWins(base.m[k], patch.m[k], path[1..]);
    }
  }

  // ---------------------------------------------------------------- reloading

  /** Everything the defaults hold is there, down through the dictionaries that both sides have. */
  predicate Covers(defaults: Json, live: Json)
    requires defaults.Dict? && live.Dict?
    decreases defaults
  {
    forall k :: k in defaults.m ==>
      k in live.m && (defaults.m[k].Dict? && live.m[k].Dict? ==> Covers(defaults.m[k], live.m[k]))
  }

  /** Saving and reloading changes nothing exactly when the live configuration covers the defaults. */
  lemma {:induction false} ReloadExact(defaults: Json, live: Json)
    requires defaults.Dict? && live.Dict?
    ensures Merge(defaults, live) == live <==> Covers(defaults, live)
    decreases live
  {
    var merged := Merge(defaults, live);
    forall k | k in defaults.m && k in live.m && defaults.m[k].Dict? && live.m[k].Dict?
      ensures merged.m[k] == live.m[k] <==> Covers(defaults.m[k], live.m[k])
    {
      ReloadExact(defaults.m[k], live.m[k]);
    }
    if Covers(defaults, live) {
      assert merged.m == live.m;
    }
    if merged == live {
      assert forall k :: k in defaults.m ==> k in merged.m;
    }
  }

  /** A patch (or a saved file) that nowhere puts a plain value where the defaults have a dictionary. */
  predicate Fits(defaults: Json, patch: Json)
    requires defaults.Dict? && patch.Dict?
    decreases defaults
  {
    forall k :: k in defaults.m && k in patch.m && defaults.m[k].Dict? ==>
      patch.m[k].Dict? && Fits(defaults.m[k], patch.m[k])
  }

  /** All the defaults' dictionaries are dictionaries still, with all their keys. */
  predicate Over(defaults: Json, live: Json)
    requires defaults.Dict? && live.Dict?
    decreases defaults
  {
    forall k :: k in defaults.m ==>
      k in live.m && (defaults.m[k].Dict? ==> live.m[k].Dict? && Over(defaults.m[k], live.m[k]))
  }

  lemma {:induction false} OverCovers(defaults: Json, live: Json)
    requires defaults.Dict? && live.Dict? && Over(defaults, live)
    ensures Covers(defaults, live)
    decreases defaults
  {
    forall k | k in defaults.m && defaults.m[k].Dict?
      ensures Covers(defaults.m[k], live.m[k])
    {
      OverCovers(defaults.m[k], live.m[k]);
    }
  }

  lemma {:induction false} OverKept(defaults: Json, live: Json, patch: Json)
    requires defaults.Dict? && live.Dict? && patch.Dict?
    requires Over(defaults, live) && Fits(defaults, patch)
    ensures Over(defaults, Merge(live, patch))
    decreases defaults
  {
    var merged := Merge(live, patch);
    forall k | k in defaults.m && defaults.m[k].Dict?
      ensures merged.m[k].Dict? && Over(defaults.m[k], merged.m[k])
    {
      if k in patch.m {
        OverKept(defaults.m[k], live.m[k], patch.m[k]);
      }
    }
  }

  lemma {:induction false} OverItself(j: Json)
    requires j.Dict?
    ensures Over(j, j)
    decreases j
  {
    forall k | k in j.m && j.m[k].Dict?
      ensures Over(j.m[k], j.m[k])
    {
      OverItself(j.m[k]);
    }
  }

  // ---------------------------------------------------------------- the accessor, as a function of its calls

  /** What is in memory and in the file; nothing is loaded while the memory is empty. */
  datatype Store = Store(live: Json, disk: Json)

  datatype Call = ReadCall | UpdateCall(patch: Json) | SectionCall(index: string, strategy: string, data: Json)
                | ReloadCall

  predicate Sound(defaults: Json, s: Store) {
    defaults.Dict? && defaults != EMPTY && s.live.Dict? && s.disk.Dict?
  }

  predicate Callable(c: Call) { c.UpdateCall? ==> c.patch.Dict? }

  function Loaded(defaults: Json, s: Store): (r: Json)
    requires Sound(defaults, s)
    ensures r.Dict?
  {
    if s.live == EMPTY then Merge(defaults, s.disk) else s.live
  }

  /** A patch for one place. */
  function Nest(index: string, strategy: string, data: Json): Json {
    Dict(map["indices" := Dict(map[index := Dict(map[strategy := data])])])
  }

  /** The dictionaries on the way to a place. */
  function Place(index: string): Json { Dict(map["indices" := Dict(map[index := EMPTY])]) }

  function Sub(j: Json, k: string): Json
    requires j.Dict?
  {
    if k in j.m then j.m[k] else EMPTY
  }

  /** Something on the way to a place is not a dictionary. */
  predicate Stuck(was: Json, index: string)
    requires was.Dict?
  {
    Sub(was, "indices").Leaf? || Sub(Sub(was, "indices"), index).Leaf?
  }

  /** A per-index save raises: the way is stuck, or plain data meets a dictionary (or nothing). */
  predicate Raises(was: Json, index: string, strategy: string, data: Json)
    requires was.Dict?
  {
    Stuck(was, index) || (data.Leaf? && Sub(Sub(Sub(was, "indices"), index), strategy).Dict?)
  }

  function After(defaults: Json, s: Store, c: Call): (s': Store)
    requires Sound(defaults, s) && Callable(c)
    ensures Sound(defaults, s')
  {
    var was := Loaded(defaults, s);
    match c
    case ReadCall => Store(was, s.disk)
    case ReloadCall => Store(Merge(defaults, s.disk), s.disk)
    case UpdateCall(patch) => Store(Merge(was, patch), Merge(was, patch))
    case SectionCall(index, strategy, data) =>
      if Stuck(was, index) then Store(was, s.disk)
      else if Raises(was, index, strategy, data) then Store(Merge(was, Place(index)), s.disk)
      else Store(Merge(was, Nest(index, strategy, data)), Merge(was, Nest(index, strategy, data)))
  }

  function Run(defaults: Json, s: Store, calls: seq<Call>): (s': Store)
    requires Sound(defaults, s) && forall i :: 0 <= i < |calls| ==> Callable(calls[i])
    ensures Sound(defaults, s')
  {
    if calls == [] then s
    else After(defaults, Run(defaults, s, calls[..|calls| - 1]), calls[|calls| - 1])
  }

  // ---------------------------------------------------------------- whole runs

  /** What a call saves fits the defaults. */
  predicate FitCall(defaults: Json, c: Call)
    requires defaults.Dict?
  {
    match c
    case UpdateCall(patch) => patch.Dict? && Fits(defaults, patch)
    case SectionCall(index, strategy, data) => Fits(defaults, Nest(index, strategy, data))
    case _ => true
  }

  /** A raise has left a new index in memory, and nothing has been saved or reloaded since. */
  predicate Unsaved(defaults: Json, s: Store, calls: seq<Call>)
    requires Sound(defaults, s) && forall i :: 0 <= i < |calls| ==> Callable(calls[i])
  {
    calls != []
    && var front := calls[..|calls| - 1];
       var was := Loaded(defaults, Run(defaults, s, front));
       match calls[|calls| - 1]
       case ReadCall => Unsaved(defaults, s, front)
       case ReloadCall => false
       case UpdateCall(_) => false
       case SectionCall(index, strategy, data) =>
         Raises(was, index, strategy, data)
         && (Unsaved(defaults, s, front) || (!Stuck(was, index) && index !in Sub(was, "indices").m))
  }

  /** An index in memory that a reload would not bring back. */
  ghost predicate Stray(live: Json, saved: Json, index: string)
    requires live.Dict? && saved.Dict?
  {
    Sub(live, "indices").Dict? && index in Sub(live, "indices").m
    && Sub(saved, "indices").Dict? && index !in Sub(saved, "indices").m
  }

  /** What holds of memory and file at every moment of a run of fitting calls. */
  ghost predicate InStep(defaults: Json, s: Store, unsaved: bool)
    requires Sound(defaults, s)
  {
    var live, saved := Loaded(defaults, s), Merge(defaults, s.disk);
    Over(defaults, live) && Fits(defaults, s.disk)
    && (!unsaved ==> live == saved)
    && (unsaved ==> exists index :: Stray(live, saved, index))
  }

  lemma {:induction false} OverFits(defaults: Json, live: Json)
    requires defaults.Dict? && live.Dict? && Over(defaults, live)
    ensures Fits(defaults, live)
    decreases defaults
  {
    forall k | k in defaults.m && defaults.m[k].Dict?
      ensures Fits(defaults.m[k], live.m[k])
    {
      OverFits(defaults.m[k], live.m[k]);
    }
  }

  lemma PlaceFits(defaults: Json, index: string)
    requires defaults.Dict?
    ensures Fits(defaults, Place(index))
  {
  }

  /** Loading the file over the defaults gives something over the defaults. */
  lemma LoadedOver(defaults: Json, disk: Json)
    requires defaults.Dict? && disk.Dict? && Fits(defaults, disk)
    ensures Over(defaults, Merge(defaults, disk))
  {
    OverItself(defaults);
    OverKept(defaults, defaults, disk);
  }

  /** A configuration over the defaults is not empty and survives a reload. */
  lemma OverReloads(defaults: Json, live: Json)
    requires defaults.Dict? && live.Dict? && Over(defaults, live)
    ensures Merge(defaults, live) == live && (defaults != EMPTY ==> live != EMPTY)
  {
    OverCovers(defaults, live);
    ReloadExact(defaults, live);
    if defaults != EMPTY {
      assert defaults.m != map[];
      var k :| k in defaults.m;
    }
  }

  lemma SavedInStep(defaults: Json, was: Json, patch: Json)
    requires defaults.Dict? && defaults != EMPTY && was.Dict? && patch.Dict?
    requires Over(defaults, was) && Fits(defaults, patch)
    ensures InStep(defaults, Store(Merge(was, patch), Merge(was, patch)), false)
  {
    var live := Merge(was, patch);
    OverKept(defaults, was, patch);
    OverReloads(defaults, live);
    OverFits(defaults, live);
  }

  /** The dictionaries a raise makes are what it leaves unsaved. */
  lemma RaisedInStep(defaults: Json, s: Store, unsaved: bool, index: string)
    requires Sound(defaults, s) && InStep(defaults, s, unsaved)
    requires !Stuck(Loaded(defaults, s), index)
    ensures var was := Loaded(defaults, s);
            InStep(defaults, Store(Merge(was, Place(index)), s.disk), unsaved || index !in Sub(was, "indices").m)
  {
    var was, saved := Loaded(defaults, s), Merge(defaults, s.disk);
    var live := Merge(was, Place(index));
    PlaceFits(defaults, index);
    OverKept(defaults, was, Place(index));
    OverReloads(defaults, live);
    MergePlace(was, index);
    var indices := Sub(was, "indices");
    assert Sub(live, "indices") == Dict(indices.m[index := Sub(indices, index)]);
    hide Merge, Over, Fits;
    if unsaved {
      var stray :| Stray(was, saved, stray);
      assert Stray(live, saved, stray);
    } else if index !in indices.m {
      assert Stray(live, saved, index);
    } else {
      assert indices.m[index := Sub(indices, index)] == indices.m;
      assert live.m == was.m;
    }
  }

  lemma StepInStep(defaults: Json, s: Store, unsaved: bool, c: Call)
    requires Sound(defaults, s) && InStep(defaults, s, unsaved) && Callable(c) && FitCall(defaults, c)
    ensures var was := Loaded(defaults, s);
            InStep(defaults, After(defaults, s, c),
                   match c
                   case ReadCall => unsaved
                   case ReloadCall => false
                   case UpdateCall(_) => false
                   case SectionCall(index, strategy, data) =>
                     Raises(was, index, strategy, data)
                     && (unsaved || (!Stuck(was, index) && index !in Sub(was, "indices").m)))
  {
    var was := Loaded(defaults, s);
    OverReloads(defaults, was);
    LoadedOver(defaults, s.disk);
    OverReloads(defaults, Merge(defaults, s.disk));
    match c
    case ReadCall =>
    case ReloadCall =>
    case UpdateCall(patch) =>
      SavedInStep(defaults, was, patch);
    case SectionCall(index, strategy, data) =>
      if !Raises(was, index, strategy, data) {
        SavedInStep(defaults, was, Nest(index, strategy, data));
      } else if !Stuck(was, index) {
        RaisedInStep(defaults, s, unsaved, index);
      }
  }

  lemma {:induction false} RunInStep(defaults: Json, disk: Json, calls: seq<Call>)
    requires defaults.Dict? && defaults != EMPTY && disk.Dict? && Fits(defaults, disk)
    requires forall i :: 0 <= i < |calls| ==> Callable(calls[i]) && FitCall(defaults, calls[i])
    ensures var s := Store(EMPTY, disk);
            InStep(defaults, Run(defaults, s, calls), Unsaved(defaults, s, calls))
  {
    hide InStep, After;
    var s := Store(EMPTY, disk);
    if calls == [] {
      StartInStep(defaults, disk);
    } else {
      var front := calls[..|calls| - 1];
      RunInStep(defaults, disk, front);
      StepInStep(defaults, Run(defaults, s, front), Unsaved(defaults, s, front), calls[|calls| - 1]);
    }
  }

  lemma StartInStep(defaults: Json, disk: Json)
    requires defaults.Dict? && defaults != EMPTY && disk.Dict? && Fits(defaults, disk)
    ensures InStep(defaults, Store(EMPTY, disk), false)
  {
    LoadedOver(defaults, disk);
  }

  /** After any run of reads, reloads, updates and per-index saves that fit the defaults, over a file that fits them,
      a reload reproduces the live configuration exactly, unless a raise has left a new index unsaved: then never. */
  lemma ReloadsAfterRun(defaults: Json, disk: Json, calls: seq<Call>)
    requires defaults.Dict? && defaults != EMPTY && disk.Dict? && Fits(defaults, disk)
    requires forall i :: 0 <= i < |calls| ==> Callable(calls[i]) && FitCall(defaults, calls[i])
    ensures var s := Run(defaults, Store(EMPTY, disk), calls);
            After(defaults, s, ReloadCall).live == Loaded(defaults, s) <==>
            !Unsaved(defaults, Store(EMPTY, disk), calls)
  {
    RunInStep(defaults, disk, calls);
    hide Run, Unsaved, Over, Fits, Merge;
  }

  /** A patch that does not fit spoils it: a plain value over a dictionary, then a dictionary over that, and the
      reload brings the forgotten default back. */
  lemma MisfitResurrects() returns (defaults: Json, p: Json, q: Json)
    ensures defaults == Dict(map["a" := Dict(map["b" := Leaf("1")])]) && Sound(defaults, Store(EMPTY, EMPTY))
    ensures p == Dict(map["a" := Leaf("5")]) && q == Dict(map["a" := Dict(map["c" := Leaf("2")])])
    ensures var s := Run(defaults, Store(EMPTY, EMPTY), [UpdateCall(p), UpdateCall(q)]);
            Lookup(s.live, ["a", "b"]) == None
            && Lookup(After(defaults, s, ReloadCall).live, ["a", "b"]) == Some(Leaf("1"))
  {
    var inner := Dict(map["b" := Leaf("1")]);
    defaults := Dict(map["a" := inner]);
    p, q := Dict(map["a" := Leaf("5")]), Dict(map["a" := Dict(map["c" := Leaf("2")])]);
    assert "a" in defaults.m;
    var s0 := Store(EMPTY, EMPTY);
    assert Merge(defaults, EMPTY).m == defaults.m;
    MergeOne(defaults, "a", p.m["a"]);
    MergeOne(p, "a", q.m["a"]);
    assert Merge(defaults, p) == p && Merge(p, q) == q;
    var u, v := UpdateCall(p), UpdateCall(q);
    assert [u, v][..1] == [u] && [u][..0] == [];
    assert Run(defaults, s0, []) == s0;
    assert Run(defaults, s0, [u]) == Store(p, p);
    assert Run(defaults, s0, [u, v]) == Store(q, q);
    hide Run;
    Resurrected(inner, defaults, q);
  }

  lemma Resurrected(inner: Json, defaults: Json, q: Json)
    requires inner == Dict(map["b" := Leaf("1")]) && defaults == Dict(map["a" := inner])
    requires q == Dict(map["a" := Dict(map["c" := Leaf("2")])])
    ensures Lookup(q, ["a", "b"]) == None && Lookup(Merge(defaults, q), ["a", "b"]) == Some(Leaf("1"))
  {
    assert ["a", "b"][1..] == ["b"] && ["b"][1..] == [];
    MergeOne(defaults, "a", q.m["a"]);
    MergeOne(inner, "c", Leaf("2"));
    var merged := Merge(defaults, q);
    assert merged.m["a"] == Merge(inner, q.m["a"]);
    assert Lookup(merged.m["a"].m["b"], []) == Some(Leaf("1"));
    assert Lookup(merged.m["a"], ["b"]) == Some(Leaf("1"));
    assert Lookup(q.m["a"], ["b"]) == None;
  }

  // ---------------------------------------------------------------- the accessor

  class Config {
    const defaults: Json
    var live: Json
    var disk: Json

    /** Nothing loaded yet; `disk` is what the file holds, an empty dictionary when there is none. */
    constructor (defaults: Json, disk: Json)
      requires defaults.Dict? && defaults != EMPTY && disk.Dict?
      ensures Valid() && this.defaults == defaults && State() == Store(EMPTY, disk)
    {
      this.defaults, this.disk, live := defaults, disk, EMPTY;
    }

    ghost function State(): Store
      reads this
    {
      Store(live, disk)
    }

    ghost predicate Valid()
      reads this
    {
      Sound(defaults, State())
    }

    method EnsureLoaded()
      requires Valid()
      modifies this`live
      ensures Valid() && State() == After(defaults, old(State()), ReadCall)
      ensures live == Loaded(defaults, old(State()))
    {
      if live == EMPTY {
        live := DeepMerge(defaults, disk);
      }
    }

    method Update(patch: Json)
      requires Valid() && patch.Dict?
      modifies this
      ensures Valid() && State() == After(defaults, old(State()), UpdateCall(patch))
      ensures live == disk == Merge(Loaded(defaults, old(State())), patch)
    {
      EnsureLoaded();
      live := DeepMerge(live, patch);
      disk := live;
    }

    method ReloadFromDisk()
      requires Valid()
      modifies this`live
      ensures Valid() && State() == After(defaults, old(State()), ReloadCall)
      ensures live == Merge(defaults, disk)
    {
      live := DeepMerge(defaults, disk);
    }

    /** A per-index save is the same as merging a patch for that one place; it raises when what stands in the way
        of that place, or the data itself, is not a dictionary. Then nothing is saved, and at most the dictionaries on
        the way to the place have been made. */
    method SetIndexSection(index: string, strategy: string, data: Json) returns (raised: bool)
      requires Valid()
      modifies this
      ensures Valid() && State() == After(defaults, old(State()), SectionCall(index, strategy, data))
      ensures raised <==> Raises(Loaded(defaults, old(State())), index, strategy, data)
    {
      hide Merge, After, Loaded, Place, Nest;
      EnsureLoaded();
      ghost var was := live;
      SectionAfter(defaults, old(State()), index, strategy, data);
      WhenRaises(was, index, strategy, data);
      hide Raises, Stuck;
      var indices := Sub(live, "indices");
      live := Dict(live.m["indices" := indices]);
      if indices.Leaf? {
        assert live == was;
        return true;
      }
      var section := Sub(indices, index);
      live := Dict(live.m["indices" := Dict(indices.m[index := section])]);
      if section.Leaf? {
        assert indices.m[index := section] == indices.m && live == was;
        return true;
      }
      var existing := Sub(section, strategy);
      var merged := data;
      if existing.Dict? {
        if data.Leaf? {
          MergePlace(was, index);
          return true;
        }
        merged := DeepMerge(existing, data);
      }
      live := Dict(live.m["indices" := Dict(indices.m[index := Dict(section.m[strategy := merged])])]);
      MergeNest(was, index, strategy, data);
      disk := live;
      raised := false;
    }
  }

  lemma SectionAfter(defaults: Json, s: Store, index: string, strategy: string, data: Json)
    requires Sound(defaults, s)
    ensures var was, s' := Loaded(defaults, s), After(defaults, s, SectionCall(index, strategy, data));
            if !Raises(was, index, strategy, data) then s'.live == s'.disk == Merge(was, Nest(index, strategy, data))
            else s'.disk == s.disk && s'.live == if Stuck(was, index) then was else Merge(was, Place(index))
  {
  }

  lemma WhenRaises(was: Json, index: string, strategy: string, data: Json)
    requires was.Dict?
    ensures var indices := Sub(was, "indices");
            (Stuck(was, index) <==> indices.Leaf? || Sub(indices, index).Leaf?)
            && (indices.Dict? && Sub(indices, index).Dict? ==>
                  (Raises(was, index, strategy, data) <==> data.Leaf? && Sub(Sub(indices, index), strategy).Dict?))
    ensures Stuck(was, index) ==> Raises(was, index, strategy, data)
  {
  }

  lemma MergeEmpty(j: Json)
    requires j.Dict?
    ensures Merge(EMPTY, j) == j
  {
    assert Merge(EMPTY, j).m == j.m;
  }

  lemma MergeOne(base: Json, k: string, v: Json)
    requires base.Dict?
    ensures Merge(base, Dict(map[k := v]))
         == Dict(base.m[k := if Sub(base, k).Dict? && v.Dict? then Merge(Sub(base, k), v) else v])
  {
    if v.Dict? {
      MergeEmpty(v);
    }
    var r := Merge(base, Dict(map[k := v])).m;
    var e := base.m[k := if Sub(base, k).Dict? && v.Dict? then Merge(Sub(base, k), v) else v];
    assert r.Keys == e.Keys;
    forall x | x in r
      ensures r[x] == e[x]
    {
    }
    assert r == e;
  }

  lemma MergePlace(live: Json, index: string)
    requires live.Dict? && Sub(live, "indices").Dict? && Sub(Sub(live, "indices"), index).Dict?
    ensures var indices := Sub(live, "indices");
            Merge(live, Place(index)) == Dict(live.m["indices" := Dict(indices.m[index := Sub(indices, index)])])
  {
    var indices := Sub(live, "indices");
    var section := Sub(indices, index);
    assert Merge(section, EMPTY).m == section.m;
    MergeOne(indices, index, EMPTY);
    MergeOne(live, "indices", Dict(map[index := EMPTY]));
  }

  lemma MergeNest(live: Json, index: string, strategy: string, data: Json)
    requires live.Dict? && Sub(live, "indices").Dict? && Sub(Sub(live, "indices"), index).Dict?
    ensures var indices := Sub(live, "indices");
            var section := Sub(indices, index);
            var existing := Sub(section, strategy);
            var merged := if existing.Dict? && data.Dict? then Merge(existing, data) else data;
            Merge(live, Nest(index, strategy, data))
              == Dict(live.m["indices" := Dict(indices.m[index := Dict(section.m[strategy := merged])])])
  {
    var indices := Sub(live, "indices");
    var section := Sub(indices, index);
    MergeOne(section, strategy, data);
    MergeOne(indices, index, Dict(map[strategy := data]));
    MergeOne(live, "indices", Dict(map[index := Dict(map[strategy := data])]));
  }

  /** The path starts with the place, or leads to it. */
  predicate AtPlace(path: seq<string>, index: string, strategy: string) {
    (|path| >= 1 ==> path[0] == "indices") && (|path| >= 2 ==> path[1] == index)
    && (|path| >= 3 ==> path[2] == strategy)
  }

  /** A per-index save that does not raise puts every plain value of its data at its place, below the two names, and
      leaves every other path alone, in memory and in the file. */
  lemma SectionSaved(defaults: Json, s: Store, index: string, strategy: string, data: Json, path: seq<string>)
    requires Sound(defaults, s) && !Raises(Loaded(defaults, s), index, strategy, data)
    ensures var s' := After(defaults, s, SectionCall(index, strategy, data));
            s'.live == s'.disk
            && (Lookup(data, path).Some? && Lookup(data, path).value.Leaf? ==>
                  Lookup(s'.live, ["indices", index, strategy] + path) == Lookup(data, path))
            && (!AtPlace(path, index, strategy) ==> Lookup(s'.live, path) == Lookup(Loaded(defaults, s), path))
  {
    var was, patch := Loaded(defaults, s), Nest(index, strategy, data);
    NestLookup(index, strategy, data, path);
    NestMentions(index, strategy, data, path);
    if Lookup(data, path).Some? && Lookup(data, path).value.Leaf? {
      PatchWins(was, patch, ["indices", index, strategy] + path);
    }
    if !AtPlace(path, index, strategy) {
      UnmentionedKept(was, patch, path);
    }
    hide Merge, Nest;
  }

  lemma NestLookup(index: string, strategy: string, data: Json, path: seq<string>)
    ensures Lookup(Nest(index, strategy, data), ["indices", index, strategy] + path) == Lookup(data, path)
  {
    Under(strategy, data, path);
    Under(index, Dict(map[strategy := data]), [strategy] + path);
    Under("indices", Dict(map[index := Dict(map[strategy := data])]), [index] + ([strategy] + path));
    assert ["indices"] + ([index] + ([strategy] + path)) == ["indices", index, strategy] + path;
  }

  lemma Under(k: string, j: Json, path: seq<string>)
    ensures Lookup(Dict(map[k := j]), [k] + path) == Lookup(j, path)
  {
    assert ([k] + path)[1..] == path;
  }

  lemma NestMentions(index: string, strategy: string, data: Json, path: seq<string>)
    ensures !AtPlace(path, index, strategy) ==> !Mentions(Nest(index, strategy, data), path)
  {
    var two := Dict(map[strategy := data]);
    var one := Dict(map[index := two]);
    if |path| >= 1 && path[0] == "indices" && |path| >= 2 && path[1] == index {
      assert path[1..][0] == index && path[1..][1..] == path[2..];
      assert Mentions(two, path[2..]) ==> path[2..] == [] || path[2..][0] == strategy;
    }
  }
}
