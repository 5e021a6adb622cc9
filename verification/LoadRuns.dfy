/**
  Whole runs of the loader: counts stay exact, nothing in use is freed, and no module is
  relocated before its whole dependency graph has been allocated.
 */
module LoadRuns {
  import opened Sums
  import opened Loading
  import opened UseCounts

  // ---------------------------------------------------------------- counts over runs

  /** A debt handed over to the client, or taken back from it, changes nothing else. */
  lemma ClientDebt(s: State, h: Handle)
    requires Exact(s, multiset{h}, {})
    ensures Exact(s.(clients := s.clients + multiset{h}), multiset{}, {})
  {
    var s' := s.(clients := s.clients + multiset{h});
    assert forall x :: Loaded(s', x) == Loaded(s, x);
    assert forall x :: Due(s', multiset{}, {}, x) == Due(s, multiset{h}, {}, x);
    forall k | 0 <= k < |s'.loaded| ensures AllLoaded(s', s'.loaded[k].deps) {
      assert AllLoaded(s, s.loaded[k].deps);
    }
  }

  lemma ClientDrops(s: State, h: Handle)
    requires Exact(s, multiset{}, {}) && s.clients[h] > 0
    ensures Exact(s.(clients := s.clients - multiset{h}), multiset{h}, {})
  {
    var s' := s.(clients := s.clients - multiset{h});
    assert forall x :: Loaded(s', x) == Loaded(s, x);
    assert forall x :: Due(s', multiset{h}, {}, x) == Due(s, multiset{}, {}, x);
    forall k | 0 <= k < |s'.loaded| ensures AllLoaded(s', s'.loaded[k].deps) {
      assert AllLoaded(s, s.loaded[k].deps);
    }
    forall x | x in multiset{h} || x in s'.clients ensures Loaded(s', x) {
      assert x in s.clients;
    }
  }

  lemma StepExact(files: Files, s: State, a: Action)
    requires Exact(s, multiset{}, {}) && Enabled(files, s, a)
    ensures Exact(Apply(files, s, a), multiset{}, {})
  {
    match a
    case ClientLoad(name) =>
      LoadKeeps(files, s, name);
      ClientDebt(Load(files, s, name), s.nextHandle);
    case ClientUnload(h) =>
      ClientDrops(s, h);
      assert multiset{} + multiset{h} == multiset{h};
      UnloadExact(s.(clients := s.clients - multiset{h}), h, multiset{}, {});
  }

  lemma {:induction false} RunExact(files: Files, s: State, acts: seq<Action>, s': State)
    requires Exact(s, multiset{}, {}) && Run(files, s, acts, s')
    ensures Exact(s', multiset{}, {})
    decreases |acts|
  {
    if acts != [] {
      StepExact(files, s, acts[0]);
      RunExact(files, Apply(files, s, acts[0]), acts[1..], s');
    }
  }

  function Entries(h: Handle): Module -> nat {
    (m: Module) => multiset(m.deps)[h]
  }

  lemma {:induction false} EntriesSum(ms: seq<Module>, h: Handle)
    ensures Sum(ms, DepsOn(h, {})) == Sum(ms, Entries(h))
  {
    if ms != [] {
      EntriesSum(ms[1..], h);
    }
  }

  /**
    After any run of client loads and matching unloads, each use count is the number of client
    references plus the number of dependency entries on the module, and is positive.
   */
  lemma UseCountsAreExact(files: Files, acts: seq<Action>, s: State, i: nat)
    requires Run(files, INIT, acts, s) && i < |s.loaded|
    ensures s.loaded[i].useCount == s.clients[s.loaded[i].handle] + Sum(s.loaded, Entries(s.loaded[i].handle))
    ensures s.loaded[i].useCount >= 1
  {
    RunExact(files, INIT, acts, s);
    EntriesSum(s.loaded, s.loaded[i].handle);
    assert s.loaded[i].useCount == Due(s, multiset{}, {}, s.loaded[i].handle);
  }

  /** Whatever the client or a loaded module refers to is loaded. */
  lemma NothingInUseIsFreed(files: Files, acts: seq<Action>, s: State)
    requires Run(files, INIT, acts, s)
    ensures forall i, k :: 0 <= i < |s.loaded| && 0 <= k < |s.loaded[i].deps| ==> Loaded(s, s.loaded[i].deps[k])
    ensures forall h :: h in s.clients ==> Loaded(s, h)
  {
    RunExact(files, INIT, acts, s);
    forall i, k | 0 <= i < |s.loaded| && 0 <= k < |s.loaded[i].deps| ensures Loaded(s, s.loaded[i].deps[k]) {
      assert AllLoaded(s, s.loaded[i].deps);
    }
  }

  // ---------------------------------------------------------------- relocation

  function Range(a: nat, b: nat): seq<Handle>
    requires a <= b
  {
    seq(b - a, (i: nat) => a + i)
  }

  function Allocations(a: nat, b: nat): seq<Event>
    requires a <= b
  {
    seq(b - a, (i: nat) => Allocated(a + i))
  }

  /** What a nested load adds: new modules on the stack and in the log, none of them relocated. */
  ghost predicate OnlyAllocates(s: State, r: State) {
    && s.nextHandle <= r.nextHandle
    && r.stack == s.stack + Range(s.nextHandle, r.nextHandle)
    && r.log == s.log + Allocations(s.nextHandle, r.nextHandle)
  }

  lemma AllocatesOn(a: State, b: State, c: State)
    requires OnlyAllocates(a, b) && OnlyAllocates(b, c)
    ensures OnlyAllocates(a, c)
  {
    assert Range(a.nextHandle, c.nextHandle) == Range(a.nextHandle, b.nextHandle) + Range(b.nextHandle, c.nextHandle);
    assert Allocations(a.nextHandle, c.nextHandle) ==
           Allocations(a.nextHandle, b.nextHandle) + Allocations(b.nextHandle, c.nextHandle);
  }

  lemma BeginAllocates(s: State, name: string)
    ensures OnlyAllocates(s, Begin(s, name))
  {
    assert Range(s.nextHandle, s.nextHandle + 1) == [s.nextHandle];
    assert Allocations(s.nextHandle, s.nextHandle + 1) == [Allocated(s.nextHandle)];
  }

  lemma SameAllocates(s: State, r: State)
    requires r.stack == s.stack && r.log == s.log && r.nextHandle == s.nextHandle
    ensures OnlyAllocates(s, r)
  {
    assert Range(s.nextHandle, s.nextHandle) == [];
    assert Allocations(s.nextHandle, s.nextHandle) == [];
  }

  /** While some module is at the bottom of the stack, loads below it relocate nothing. */
  lemma {:induction false} NeededAllocates(files: Files, s: State, h: Handle, needed: seq<string>)
    requires Closed(files) && forall i :: 0 <= i < |needed| ==> needed[i] in files
    requires s.stack != [] && s.stack[0] < s.nextHandle
    ensures OnlyAllocates(s, LoadNeeded(files, s, h, needed))
    decreases |Missing(files, s)|, |needed|
  {
    if needed == [] {
      SameAllocates(s, s);
    } else {
      var s1 := Need(files, s, h, needed[0]);
      NeedAllocates(files, s, h, needed[0], |needed|);
      NeedShrinks(files, s, h, needed[0]);
      NeededAllocates(files, s1, h, needed[1..]);
      LoadNeededStep(files, s, h, needed);
      AllocatesOn(s, s1, LoadNeeded(files, s, h, needed));
    }
  }

  lemma {:induction false} NeedAllocates(files: Files, s: State, h: Handle, name: string, n: nat)
    requires Closed(files) && name in files && n > 0
    requires s.stack != [] && s.stack[0] < s.nextHandle
    ensures OnlyAllocates(s, Need(files, s, h, name)) && Need(files, s, h, name).stack[0] == s.stack[0]
    decreases |Missing(files, s)|, n, 0
  {
    var i := FindName(s.loaded, name);
    if i < |s.loaded| {
      SameAllocates(s, Reuse(s, h, i));
    } else {
      var s0 := Begin(s, name);
      NestedShrinks(files, s, h, name);
      BeginAllocates(s, name);
      NeededAllocates(files, s0, s.nextHandle, files[name]);
      var s1 := LoadNeeded(files, s0, s.nextHandle, files[name]);
      AllocatesOn(s, s0, s1);
      SameAllocates(s1, Nested(files, s, h, name));
      AllocatesOn(s, s1, Nested(files, s, h, name));
    }
  }

  /**
    An outermost load first allocates every module of the dependency graph, then relocates and
    initialises exactly those modules, each once, and leaves the stack empty.
   */
  lemma RelocationWaitsForGraph(files: Files, s: State, name: string)
    requires Closed(files) && name in files && s.stack == []
    ensures var r := Load(files, s, name);
            && s.nextHandle < r.nextHandle && r.stack == []
            && r.log == s.log + Allocations(s.nextHandle, r.nextHandle) + RelocateAll(Range(s.nextHandle, r.nextHandle))
  {
    var s0 := Begin(s, name);
    BeginAllocates(s, name);
    NeededAllocates(files, s0, s.nextHandle, files[name]);
    var s1 := LoadNeeded(files, s0, s.nextHandle, files[name]);
    AllocatesOn(s, s0, s1);
    assert s1.stack == Range(s.nextHandle, s1.nextHandle);
  }

  /** A load below another one relocates nothing and stacks its modules for the outermost one. */
  lemma NestedLoadOnlyAllocates(files: Files, s: State, name: string)
    requires Closed(files) && name in files && s.stack != [] && s.stack[0] < s.nextHandle
    ensures OnlyAllocates(s, Load(files, s, name))
  {
    var s0 := Begin(s, name);
    BeginAllocates(s, name);
    NeededAllocates(files, s0, s.nextHandle, files[name]);
    var s1 := LoadNeeded(files, s0, s.nextHandle, files[name]);
    AllocatesOn(s, s0, s1);
  }

  /** The k-th module handled by the relocation loop is the k-th from the top of the stack. */
  lemma {:induction false} RelocationOrder(stack: seq<Handle>, k: nat)
    requires k < |stack|
    ensures |RelocateAll(stack)| == 2 * |stack|
    ensures RelocateAll(stack)[2 * k] == Relocated(stack[|stack| - 1 - k])
    ensures RelocateAll(stack)[2 * k + 1] == Initialized(stack[|stack| - 1 - k])
  {
    var rest := stack[..|stack| - 1];
    if rest == [] {
      assert RelocateAll(rest) == [];
    } else if k == 0 {
      RelocationOrder(rest, 0);
    } else {
      RelocationOrder(rest, k - 1);
    }
  }

  /** The stack is empty between client calls. */
  lemma {:induction false} StackEmpty(files: Files, s: State, acts: seq<Action>, s': State)
    requires s.stack == [] && Run(files, s, acts, s')
    ensures s'.stack == []
    decreases |acts|
  {
    if acts != [] {
      match acts[0]
      case ClientLoad(name) =>
        RelocationWaitsForGraph(files, s, name);
        StackEmpty(files, Apply(files, s, acts[0]), acts[1..], s');
      case ClientUnload(h) =>
        UnloadStack(s.(clients := s.clients - multiset{h}), h);
        StackEmpty(files, Apply(files, s, acts[0]), acts[1..], s');
    }
  }

  lemma {:induction false} UnloadStack(s: State, h: Handle)
    ensures Unload(s, h).stack == s.stack
    decreases Total(s.loaded), 1, 0
  {
    var i := FindHandle(s.loaded, h);
    if i < |s.loaded| {
      UseTotal(s.loaded, i);
      if s.loaded[i].useCount == 1 {
        UnloadAllStack(Dying(s, h), s.loaded[i].deps);
      }
    }
  }

  lemma {:induction false} UnloadAllStack(s: State, deps: seq<Handle>)
    ensures UnloadAll(s, deps).stack == s.stack
    decreases Total(s.loaded), 2, |deps|
  {
    if deps != [] {
      UnloadStack(s, deps[0]);
      UnloadAllStack(Unload(s, deps[0]), deps[1..]);
    }
  }
}
