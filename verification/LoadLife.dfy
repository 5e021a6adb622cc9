/**
  The life of a module: allocated, relocated, initialised, and in the end terminated and freed, each
  once and in this order, however loads and unloads nest.
 */
module LoadLife {
  import opened Loading
  import opened UseCounts
  import opened LoadRuns

  /** What the log says of module x. */
  function Life(log: seq<Event>, x: Handle): seq<Event> {
    if log == [] then []
    else Life(log[..|log| - 1], x) + if log[|log| - 1].h == x then [log[|log| - 1]] else []
  }

  lemma {:induction false} LifeAppend(a: seq<Event>, b: seq<Event>, x: Handle)
    ensures Life(a + b, x) == Life(a, x) + Life(b, x)
  {
    if b == [] {
      assert a + b == a;
    } else {
      var n := |b| - 1;
      assert (a + b)[..|a + b| - 1] == a + b[..n];
      LifeAppend(a, b[..n], x);
      assert Life(a, x) + (Life(b[..n], x) + (if b[n].h == x then [b[n]] else [])) ==
             (Life(a, x) + Life(b[..n], x)) + if b[n].h == x then [b[n]] else [];
    }
  }

  lemma LifeOne(log: seq<Event>, e: Event, x: Handle)
    ensures Life(log + [e], x) == Life(log, x) + if e.h == x then [e] else []
  {
    assert (log + [e])[..|log|] == log;
  }

  // ---------------------------------------------------------------- loading

  /** The new modules have the handles given out in between, in order. */
  ghost predicate NewHandles(s: State, r: State) {
    && s.nextHandle <= r.nextHandle && |r.loaded| == |s.loaded| + (r.nextHandle - s.nextHandle)
    && (forall i :: 0 <= i < |s.loaded| ==> r.loaded[i].handle == s.loaded[i].handle)
    && forall i :: |s.loaded| <= i < |r.loaded| ==> r.loaded[i].handle == s.nextHandle + (i - |s.loaded|)
  }

  lemma NewThen(s: State, r: State, t: State)
    requires NewHandles(s, r) && NewHandles(r, t)
    ensures NewHandles(s, t)
  {
  }

  lemma {:induction false} NeededNew(files: Files, s: State, h: Handle, needed: seq<string>)
    requires Closed(files) && forall i :: 0 <= i < |needed| ==> needed[i] in files
    ensures NewHandles(s, LoadNeeded(files, s, h, needed))
    decreases |Missing(files, s)|, |needed|, 1
  {
    if needed != [] {
      NeedNew(files, s, h, needed[0], |needed|);
      NeedShrinks(files, s, h, needed[0]);
      NeededNew(files, Need(files, s, h, needed[0]), h, needed[1..]);
      LoadNeededStep(files, s, h, needed);
      NewThen(s, Need(files, s, h, needed[0]), LoadNeeded(files, s, h, needed));
    }
  }

  lemma BeginNew(s: State, name: string)
    ensures NewHandles(s, Begin(s, name))
  {
  }

  lemma SameNew(s: State, r: State)
    requires SameHandles(s.loaded, r.loaded) && r.nextHandle == s.nextHandle
    ensures NewHandles(s, r)
  {
  }

  lemma NestedNew(s: State, r: State, h: Handle, name: string)
    requires NewHandles(Begin(s, name), r)
    ensures NewHandles(s, Adopt(r, h, s.nextHandle))
  {
    BeginNew(s, name);
    NewThen(s, Begin(s, name), r);
    SameNew(r, Adopt(r, h, s.nextHandle));
    NewThen(s, r, Adopt(r, h, s.nextHandle));
  }

  lemma {:induction false} NeedNew(files: Files, s: State, h: Handle, name: string, n: nat)
    requires Closed(files) && name in files && n > 0
    ensures NewHandles(s, Need(files, s, h, name))
    decreases |Missing(files, s)|, n, 0
  {
    if FindName(s.loaded, name) == |s.loaded| {
      NestedShrinks(files, s, h, name);
      NeededNew(files, Begin(s, name), s.nextHandle, files[name]);
      NestedNew(s, LoadNeeded(files, Begin(s, name), s.nextHandle, files[name]), h, name);
    } else {
      SameNew(s, Need(files, s, h, name));
    }
  }

  lemma LoadNew(files: Files, s: State, name: string)
    requires Closed(files) && name in files
    ensures NewHandles(s, Load(files, s, name))
  {
    BeginNew(s, name);
    NeededNew(files, Begin(s, name), s.nextHandle, files[name]);
    NewThen(s, Begin(s, name), LoadNeeded(files, Begin(s, name), s.nextHandle, files[name]));
  }

  lemma NewLoaded(s: State, r: State, x: Handle)
    requires NewHandles(s, r)
    ensures Loaded(r, x) <==> Loaded(s, x) || s.nextHandle <= x < r.nextHandle
  {
    FoundIff(s.loaded, x);
    FoundIff(r.loaded, x);
    if Loaded(s, x) {
      assert r.loaded[FindHandle(s.loaded, x)].handle == x;
    }
    if s.nextHandle <= x < r.nextHandle {
      assert r.loaded[|s.loaded| + (x - s.nextHandle)].handle == x;
    }
  }

  lemma {:induction false} LifeAllocated(a: nat, b: nat, x: Handle)
    requires a <= b
    ensures Life(Allocations(a, b), x) == if a <= x < b then [Allocated(x)] else []
    decreases b
  {
    if a < b {
      LifeAllocated(a, b - 1, x);
      assert Allocations(a, b) == Allocations(a, b - 1) + [Allocated(b - 1)];
      LifeOne(Allocations(a, b - 1), Allocated(b - 1), x);
    } else {
      assert Allocations(a, b) == [];
    }
  }

  lemma RelocateLast(a: nat, b: nat)
    requires a < b
    ensures RelocateAll(Range(a, b)) == [Relocated(b - 1), Initialized(b - 1)] + RelocateAll(Range(a, b - 1))
  {
    assert Range(a, b)[..b - a - 1] == Range(a, b - 1) && Range(a, b)[b - a - 1] == b - 1;
  }

  lemma {:induction false} LifeRelocated(a: nat, b: nat, x: Handle)
    requires a <= b
    ensures Life(RelocateAll(Range(a, b)), x) == if a <= x < b then [Relocated(x), Initialized(x)] else []
    decreases b
  {
    if a < b {
      var first := [Relocated(b - 1), Initialized(b - 1)];
      LifeRelocated(a, b - 1, x);
      RelocateLast(a, b);
      LifeAppend(first, RelocateAll(Range(a, b - 1)), x);
      LifeTwo(Relocated(b - 1), Initialized(b - 1), x);
    } else {
      assert Range(a, b) == [];
    }
  }

  lemma LifeTwo(e: Event, f: Event, x: Handle)
    requires e.h == f.h
    ensures Life([e, f], x) == if e.h == x then [e, f] else []
  {
    assert [e, f] == [e] + [f] && [e] == [] + [e];
    LifeOne([e], f, x);
    LifeOne([], e, x);
  }

  // ---------------------------------------------------------------- unloading

  /** Of what goes away in between, the log says so at its end, and nothing of others. */
  ghost predicate Ends(s: State, r: State, x: Handle) {
    && (Loaded(r, x) ==> Loaded(s, x))
    && Life(r.log, x) == Life(s.log, x) + if Loaded(s, x) && !Loaded(r, x) then [Terminated(x), Freed(x)] else []
  }

  lemma EndsThen(s: State, r: State, t: State, x: Handle)
    requires Ends(s, r, x) && Ends(r, t, x)
    ensures Ends(s, t, x)
  {
  }

  lemma EndsSame(s: State, r: State, x: Handle)
    requires r.log == s.log && (Loaded(r, x) <==> Loaded(s, x))
    ensures Ends(s, r, x)
  {
  }

  lemma UseLoaded(s: State, i: nat, x: Handle)
    requires i < |s.loaded|
    ensures Loaded(s.(loaded := AddUse(s.loaded, i, -1)), x) <==> Loaded(s, x)
  {
    SameFind(s.loaded, AddUse(s.loaded, i, -1), x);
  }

  lemma {:induction false} UnloadEnds(s: State, h: Handle, debts: multiset<Handle>, dying: set<Handle>, x: Handle)
    requires Exact(s, debts + multiset{h}, dying)
    ensures Ends(s, Unload(s, h), x)
    decreases Total(s.loaded), 1, 0
  {
    DebtorLoaded(s, h, debts, dying);
    var i := FindHandle(s.loaded, h);
    UseTotal(s.loaded, i);
    UseLoaded(s, i, x);
    if s.loaded[i].useCount >= 2 {
      EndsSame(s, Unload(s, h), x);
    } else {
      assert LastUse(s, h, debts, dying);
      LastEnds(s, h, debts, dying, x);
    }
  }

  lemma {:induction false} LastEnds(s: State, h: Handle, debts: multiset<Handle>, dying: set<Handle>, x: Handle)
    requires LastUse(s, h, debts, dying) && h !in dying
    ensures Ends(s, Unload(s, h), x)
    decreases Total(s.loaded), 0, 0
  {
    var i := FindHandle(s.loaded, h);
    var s1 := Dying(s, h);
    var s2 := UnloadAll(s1, s.loaded[i].deps);
    UseTotal(s.loaded, i);
    UseLoaded(s, i, x);
    DyingExact(s, h, debts, dying);
    AllEnd(s1, s.loaded[i].deps, debts, dying + {h}, x);
    UnloadAllExact(s1, s.loaded[i].deps, debts, dying + {h});
    StillThere(s1, s2, h, i, dying);
    RemovedLoaded(s2, h, x);
    LifeOne(s.log, Terminated(h), x);
    LifeOne(s2.log, Freed(h), x);
    OwnEnd(s, s1, s2, Unload(s, h), h, x);
  }

  /** The module's own two events, around those of its dependents. */
  lemma OwnEnd(s: State, s1: State, s2: State, r: State, h: Handle, x: Handle)
    requires Loaded(s, h) && (Loaded(s1, x) <==> Loaded(s, x)) && Ends(s1, s2, x)
    requires Life(s1.log, x) == Life(s.log, x) + if h == x then [Terminated(h)] else []
    requires Life(r.log, x) == Life(s2.log, x) + if h == x then [Freed(h)] else []
    requires Loaded(s2, h) && (Loaded(r, x) <==> Loaded(s2, x) && x != h)
    ensures Ends(s, r, x)
  {
  }

  lemma {:induction false} AllEnd(s: State, deps: seq<Handle>, debts: multiset<Handle>, dying: set<Handle>, x: Handle)
    requires Exact(s, debts + multiset(deps), dying)
    ensures Ends(s, UnloadAll(s, deps), x)
    decreases Total(s.loaded), 2, |deps|
  {
    if deps == [] {
      EndsSame(s, s, x);
    } else {
      assert deps == [deps[0]] + deps[1..];
      assert debts + multiset(deps) == (debts + multiset(deps[1..])) + multiset{deps[0]};
      UnloadEnds(s, deps[0], debts + multiset(deps[1..]), dying, x);
      UnloadExact(s, deps[0], debts + multiset(deps[1..]), dying);
      AllEnd(Unload(s, deps[0]), deps[1..], debts, dying, x);
      EndsThen(s, Unload(s, deps[0]), UnloadAll(s, deps), x);
    }
  }

  // ---------------------------------------------------------------- runs

  /** What the log must say of a handle: not given out yet, loaded, or gone again. */
  ghost predicate Lives(s: State, x: Handle) {
    Life(s.log, x) ==
      if x == 0 || x >= s.nextHandle then []
      else if Loaded(s, x) then [Allocated(x), Relocated(x), Initialized(x)]
      else [Allocated(x), Relocated(x), Initialized(x), Terminated(x), Freed(x)]
  }

  /** Between client calls. */
  ghost predicate Quiet(s: State) {
    Exact(s, multiset{}, {}) && s.stack == [] && s.nextHandle >= 1 && forall x :: Loaded(s, x) ==> x >= 1
  }

  lemma LoadedBelow(s: State, x: Handle)
    requires DistinctHandles(s) && Loaded(s, x)
    ensures x < s.nextHandle
  {
    assert s.loaded[FindHandle(s.loaded, x)].handle == x;
  }

  /** What an outermost load writes of each module. */
  lemma LoadWrites(log: seq<Event>, a: nat, b: nat, x: Handle)
    requires a <= b
    ensures Life(log + Allocations(a, b) + RelocateAll(Range(a, b)), x) ==
            Life(log, x) + if a <= x < b then [Allocated(x), Relocated(x), Initialized(x)] else []
  {
    LifeAppend(log + Allocations(a, b), RelocateAll(Range(a, b)), x);
    LifeAppend(log, Allocations(a, b), x);
    LifeAllocated(a, b, x);
    LifeRelocated(a, b, x);
  }

  lemma LoadLives(files: Files, s: State, name: string, x: Handle)
    requires Closed(files) && name in files && Quiet(s) && Lives(s, x)
    ensures Lives(Load(files, s, name), x)
  {
    var r := Load(files, s, name);
    RelocationWaitsForGraph(files, s, name);
    LoadWrites(s.log, s.nextHandle, r.nextHandle, x);
    LoadNew(files, s, name);
    NewLoaded(s, r, x);
    if Loaded(s, x) {
      LoadedBelow(s, x);
    }
  }

  lemma ClientEnds(s: State, h: Handle, x: Handle)
    requires Exact(s, multiset{}, {}) && s.clients[h] > 0
    ensures var r := Unload(s.(clients := s.clients - multiset{h}), h);
            Ends(s, r, x) && r.nextHandle == s.nextHandle
  {
    var s0 := s.(clients := s.clients - multiset{h});
    ClientDrops(s, h);
    assert multiset{} + multiset{h} == multiset{h};
    UnloadEnds(s0, h, multiset{}, {}, x);
    UnloadExact(s0, h, multiset{}, {});
    EndsSame(s, s0, x);
    EndsThen(s, s0, Unload(s0, h), x);
  }

  lemma EndsLives(s: State, r: State, x: Handle)
    requires Lives(s, x) && Ends(s, r, x) && r.nextHandle == s.nextHandle
    requires Loaded(s, x) ==> 1 <= x < s.nextHandle
    ensures Lives(r, x)
  {
  }

  lemma UnloadLives(s: State, h: Handle, x: Handle)
    requires Quiet(s) && s.clients[h] > 0 && Lives(s, x)
    ensures Lives(Unload(s.(clients := s.clients - multiset{h}), h), x)
  {
    ClientEnds(s, h, x);
    if Loaded(s, x) {
      LoadedBelow(s, x);
    }
    EndsLives(s, Unload(s.(clients := s.clients - multiset{h}), h), x);
  }

  lemma LoadQuiet(files: Files, s: State, name: string)
    requires Closed(files) && name in files && Quiet(s)
    ensures Load(files, s, name).nextHandle >= 1 && forall x :: Loaded(Load(files, s, name), x) ==> x >= 1
  {
    LoadNew(files, s, name);
    forall x | Loaded(Load(files, s, name), x) ensures x >= 1 {
      NewLoaded(s, Load(files, s, name), x);
    }
  }

  lemma UnloadQuiet(s: State, h: Handle)
    requires Quiet(s) && s.clients[h] > 0
    ensures var r := Unload(s.(clients := s.clients - multiset{h}), h);
            r.nextHandle == s.nextHandle && forall x :: Loaded(r, x) ==> x >= 1
  {
    ClientEnds(s, h, 0);
    forall x | Loaded(Unload(s.(clients := s.clients - multiset{h}), h), x) ensures x >= 1 {
      ClientEnds(s, h, x);
    }
  }

  lemma StepQuiet(files: Files, s: State, a: Action)
    requires Quiet(s) && Enabled(files, s, a)
    ensures Quiet(Apply(files, s, a))
  {
    StepExact(files, s, a);
    StepStack(files, s, a);
    match a
    case ClientLoad(name) =>
      LoadQuiet(files, s, name);
      SameClients(Load(files, s, name), Apply(files, s, a));
    case ClientUnload(h) => UnloadQuiet(s, h);
  }

  lemma SameClients(s: State, r: State)
    requires r.loaded == s.loaded
    ensures forall x :: Loaded(r, x) == Loaded(s, x)
  {
  }

  lemma StepStack(files: Files, s: State, a: Action)
    requires s.stack == [] && Enabled(files, s, a)
    ensures Apply(files, s, a).stack == []
  {
    match a
    case ClientLoad(name) => RelocationWaitsForGraph(files, s, name);
    case ClientUnload(h) => UnloadStack(s.(clients := s.clients - multiset{h}), h);
  }

  lemma StepLives(files: Files, s: State, a: Action, x: Handle)
    requires Quiet(s) && Lives(s, x) && Enabled(files, s, a)
    ensures Lives(Apply(files, s, a), x)
  {
    match a
    case ClientLoad(name) => LoadLives(files, s, name, x);
    case ClientUnload(h) => UnloadLives(s, h, x);
  }

  lemma {:induction false} RunLives(files: Files, s: State, acts: seq<Action>, s': State, x: Handle)
    requires Quiet(s) && Lives(s, x) && Run(files, s, acts, s')
    ensures Lives(s', x)
    decreases |acts|
  {
    if acts != [] {
      StepQuiet(files, s, acts[0]);
      StepLives(files, s, acts[0], x);
      RunLives(files, Apply(files, s, acts[0]), acts[1..], s', x);
    }
  }

  /**
    After any run a loaded module has been allocated, relocated and initialised, each once and in
    this order; one that is no longer loaded has then been terminated and freed, each once; and
    nothing is said of handles not given out.
   */
  lemma EachLifeIsWhole(files: Files, acts: seq<Action>, s: State, x: Handle)
    requires Run(files, INIT, acts, s)
    ensures Loaded(s, x) ==> Life(s.log, x) == [Allocated(x), Relocated(x), Initialized(x)]
    ensures !Loaded(s, x) && 1 <= x < s.nextHandle ==>
              Life(s.log, x) == [Allocated(x), Relocated(x), Initialized(x), Terminated(x), Freed(x)]
    ensures x == 0 || x >= s.nextHandle ==> Life(s.log, x) == [] && !Loaded(s, x)
  {
    RunLives(files, INIT, acts, s, x);
    RunQuiet(files, INIT, acts, s);
    if Loaded(s, x) {
      LoadedBelow(s, x);
    }
  }

  lemma {:induction false} RunQuiet(files: Files, s: State, acts: seq<Action>, s': State)
    requires Quiet(s) && Run(files, s, acts, s')
    ensures Quiet(s')
    decreases |acts|
  {
    if acts != [] {
      StepQuiet(files, s, acts[0]);
      RunQuiet(files, Apply(files, s, acts[0]), acts[1..], s');
    }
  }
}
