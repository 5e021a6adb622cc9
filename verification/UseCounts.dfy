/**
  Use counts are exact: between client calls every module's count is the number of client
  references plus the number of dependency entries that name it, cycles included.
 */
module UseCounts {
  import opened Sums
  import opened Loading

  ghost predicate Loaded(s: State, h: Handle) {
    FindHandle(s.loaded, h) < |s.loaded|
  }

  /** Dependency entries on h; a dying module's entries are counted as debts instead. */
  function DepsOn(h: Handle, dying: set<Handle>): Module -> nat {
    (m: Module) => if m.handle in dying then 0 else multiset(m.deps)[h]
  }

  /** What the count of h should be; `debts` are references about to be recorded or dropped. */
  ghost function Due(s: State, debts: multiset<Handle>, dying: set<Handle>, h: Handle): nat {
    s.clients[h] + debts[h] + Sum(s.loaded, DepsOn(h, dying))
  }

  ghost predicate Counted(s: State, debts: multiset<Handle>, dying: set<Handle>) {
    forall i :: 0 <= i < |s.loaded| ==>
      s.loaded[i].useCount == Due(s, debts, dying, s.loaded[i].handle)
  }

  ghost predicate DistinctHandles(s: State) {
    && (forall i :: 0 <= i < |s.loaded| ==> s.loaded[i].handle < s.nextHandle)
    && (forall i, k :: 0 <= i < k < |s.loaded| ==> s.loaded[i].handle != s.loaded[k].handle)
  }

  ghost predicate AllLoaded(s: State, hs: seq<Handle>) {
    forall k :: 0 <= k < |hs| ==> Loaded(s, hs[k])
  }

  /** No reference dangles. */
  ghost predicate NoDangling(s: State, debts: multiset<Handle>, dying: set<Handle>) {
    && (forall i :: 0 <= i < |s.loaded| && s.loaded[i].handle !in dying ==> AllLoaded(s, s.loaded[i].deps))
    && (forall h :: h in debts || h in s.clients ==> Loaded(s, h))
  }

  ghost predicate LiveCounts(s: State, dying: set<Handle>) {
    forall i :: 0 <= i < |s.loaded| ==>
      if s.loaded[i].handle in dying then s.loaded[i].useCount == 0 else s.loaded[i].useCount >= 1
  }

  ghost predicate Exact(s: State, debts: multiset<Handle>, dying: set<Handle>) {
    Counted(s, debts, dying) && DistinctHandles(s) && NoDangling(s, debts, dying) && LiveCounts(s, dying)
  }

  // ---------------------------------------------------------------- list changes

  lemma FindIt(ms: seq<Module>, i: nat)
    requires i < |ms| && forall k, l :: 0 <= k < l < |ms| ==> ms[k].handle != ms[l].handle
    ensures FindHandle(ms, ms[i].handle) == i
  {
    var k := FindHandle(ms, ms[i].handle);
  }

  lemma FoundIff(ms: seq<Module>, h: Handle)
    ensures FindHandle(ms, h) < |ms| <==> exists i :: 0 <= i < |ms| && ms[i].handle == h
  {
  }

  /** The same handles in the same order. */
  ghost predicate SameHandles(ms: seq<Module>, ms': seq<Module>) {
    |ms'| == |ms| && forall i :: 0 <= i < |ms| ==> ms'[i].handle == ms[i].handle
  }

  lemma SameFind(ms: seq<Module>, ms': seq<Module>, h: Handle)
    requires SameHandles(ms, ms')
    ensures FindHandle(ms', h) == FindHandle(ms, h)
  {
  }

  lemma AddUseDeps(ms: seq<Module>, i: nat, n: int, h: Handle, dying: set<Handle>)
    requires i < |ms|
    ensures Sum(AddUse(ms, i, n), DepsOn(h, dying)) == Sum(ms, DepsOn(h, dying))
  {
    SumUpdate(ms, i, ms[i].(useCount := ms[i].useCount + n), DepsOn(h, dying));
  }

  lemma AddDepDeps(ms: seq<Module>, h: Handle, dep: Handle, x: Handle)
    requires FindHandle(ms, h) < |ms|
    ensures Sum(AddDep(ms, h, dep), DepsOn(x, {})) == Sum(ms, DepsOn(x, {})) + if x == dep then 1 else 0
  {
    var i := FindHandle(ms, h);
    SumUpdate(ms, i, ms[i].(deps := ms[i].deps + [dep]), DepsOn(x, {}));
  }

  // ---------------------------------------------------------------- loading keeps counts exact

  lemma SameLoaded(s: State, s': State)
    requires SameHandles(s.loaded, s'.loaded)
    ensures forall x :: Loaded(s', x) == Loaded(s, x)
  {
    forall x ensures Loaded(s', x) == Loaded(s, x) {
      SameFind(s.loaded, s'.loaded, x);
    }
  }

  lemma RecordCounts(s: State, debts: multiset<Handle>, h: Handle, dep: Handle)
    requires Counted(s, debts + multiset{dep}, {}) && Loaded(s, h)
    ensures Counted(s.(loaded := AddDep(s.loaded, h, dep)), debts, {})
  {
    var s' := s.(loaded := AddDep(s.loaded, h, dep));
    forall i | 0 <= i < |s'.loaded| ensures s'.loaded[i].useCount == Due(s', debts, {}, s'.loaded[i].handle) {
      AddDepDeps(s.loaded, h, dep, s'.loaded[i].handle);
      assert s.loaded[i].useCount == Due(s, debts + multiset{dep}, {}, s.loaded[i].handle);
    }
  }

  lemma RecordDangling(s: State, debts: multiset<Handle>, h: Handle, dep: Handle)
    requires NoDangling(s, debts + multiset{dep}, {}) && Loaded(s, h)
    ensures NoDangling(s.(loaded := AddDep(s.loaded, h, dep)), debts, {})
  {
    var s' := s.(loaded := AddDep(s.loaded, h, dep));
    SameLoaded(s, s');
    assert dep in debts + multiset{dep};
    forall x | x in debts || x in s.clients ensures Loaded(s', x) {
      assert x in debts + multiset{dep} || x in s.clients;
    }
    forall i | 0 <= i < |s'.loaded| ensures AllLoaded(s', s'.loaded[i].deps) {
      assert AllLoaded(s, s.loaded[i].deps);
    }
  }

  /** A debt for `dep` becomes an entry on h's list. */
  lemma RecordDep(s: State, debts: multiset<Handle>, h: Handle, dep: Handle)
    requires Exact(s, debts + multiset{dep}, {}) && Loaded(s, h)
    ensures Exact(s.(loaded := AddDep(s.loaded, h, dep)), debts, {})
    ensures forall x :: Loaded(s.(loaded := AddDep(s.loaded, h, dep)), x) == Loaded(s, x)
  {
    RecordCounts(s, debts, h, dep);
    RecordDangling(s, debts, h, dep);
    RecordHandles(s, h, dep);
    SameLoaded(s, s.(loaded := AddDep(s.loaded, h, dep)));
  }

  lemma RecordHandles(s: State, h: Handle, dep: Handle)
    requires DistinctHandles(s) && LiveCounts(s, {}) && Loaded(s, h)
    ensures var s' := s.(loaded := AddDep(s.loaded, h, dep)); DistinctHandles(s') && LiveCounts(s', {})
  {
  }

  lemma BumpCounts(s: State, debts: multiset<Handle>, i: nat)
    requires Counted(s, debts, {}) && DistinctHandles(s) && i < |s.loaded|
    ensures Counted(s.(loaded := AddUse(s.loaded, i, 1)), debts + multiset{s.loaded[i].handle}, {})
  {
    var s' := s.(loaded := AddUse(s.loaded, i, 1));
    forall k | 0 <= k < |s'.loaded|
      ensures s'.loaded[k].useCount == Due(s', debts + multiset{s.loaded[i].handle}, {}, s'.loaded[k].handle)
    {
      AddUseDeps(s.loaded, i, 1, s'.loaded[k].handle, {});
      assert s.loaded[k].useCount == Due(s, debts, {}, s.loaded[k].handle);
    }
  }

  lemma BumpDangling(s: State, debts: multiset<Handle>, i: nat)
    requires NoDangling(s, debts, {}) && DistinctHandles(s) && i < |s.loaded|
    ensures NoDangling(s.(loaded := AddUse(s.loaded, i, 1)), debts + multiset{s.loaded[i].handle}, {})
  {
    var s' := s.(loaded := AddUse(s.loaded, i, 1));
    SameLoaded(s, s');
    FindIt(s.loaded, i);
    forall k | 0 <= k < |s'.loaded| ensures AllLoaded(s', s'.loaded[k].deps) {
      assert AllLoaded(s, s.loaded[k].deps);
    }
  }

  /** Bumping a count stands for a debt. */
  lemma BumpUse(s: State, debts: multiset<Handle>, i: nat)
    requires Exact(s, debts, {}) && i < |s.loaded|
    ensures Exact(s.(loaded := AddUse(s.loaded, i, 1)), debts + multiset{s.loaded[i].handle}, {})
    ensures forall x :: Loaded(s.(loaded := AddUse(s.loaded, i, 1)), x) == Loaded(s, x)
  {
    BumpCounts(s, debts, i);
    BumpDangling(s, debts, i);
    SameLoaded(s, s.(loaded := AddUse(s.loaded, i, 1)));
  }

  lemma {:induction false} NoEntries(ms: seq<Module>, h: Handle)
    requires forall i, k :: 0 <= i < |ms| && 0 <= k < |ms[i].deps| ==> ms[i].deps[k] != h
    ensures Sum(ms, DepsOn(h, {})) == 0
  {
    SumZero(ms, DepsOn(h, {}));
  }

  /** The list after initialize_loaded_module has appended a module. */
  ghost predicate Appended(s: State, s': State, m: Module) {
    s'.loaded == s.loaded + [m] && s'.clients == s.clients && s'.nextHandle == s.nextHandle + 1
  }

  lemma AppendedLoaded(s: State, s': State, m: Module, x: Handle)
    requires Appended(s, s', m)
    ensures Loaded(s', x) <==> Loaded(s, x) || x == m.handle
  {
    FoundIff(s.loaded, x);
    FoundIff(s'.loaded, x);
    if Loaded(s, x) {
      var i := FindHandle(s.loaded, x);
      assert s'.loaded[i].handle == x;
    }
    assert s'.loaded[|s.loaded|] == m;
  }

  lemma AppendedDue(s: State, s': State, m: Module, debts: multiset<Handle>, x: Handle)
    requires Appended(s, s', m) && m.deps == []
    ensures Due(s', debts + multiset{m.handle}, {}, x) == Due(s, debts, {}, x) + if x == m.handle then 1 else 0
  {
    SumAppend(s.loaded, [m], DepsOn(x, {}));
    SumOne(m, DepsOn(x, {}));
  }

  /** Nothing refers to a handle that has not been given out. */
  lemma NewHandleUnused(s: State, debts: multiset<Handle>)
    requires DistinctHandles(s) && NoDangling(s, debts, {})
    ensures !Loaded(s, s.nextHandle) && Due(s, debts, {}, s.nextHandle) == 0
  {
    FoundIff(s.loaded, s.nextHandle);
    forall i, k | 0 <= i < |s.loaded| && 0 <= k < |s.loaded[i].deps| ensures s.loaded[i].deps[k] != s.nextHandle {
      assert AllLoaded(s, s.loaded[i].deps);
      assert Loaded(s, s.loaded[i].deps[k]);
    }
    NoEntries(s.loaded, s.nextHandle);
  }

  lemma BeginCounts(s: State, debts: multiset<Handle>, name: string)
    requires Exact(s, debts, {})
    ensures Counted(Begin(s, name), debts + multiset{s.nextHandle}, {})
  {
    var s' := Begin(s, name);
    var m := Module(s.nextHandle, name, 1, []);
    NewHandleUnused(s, debts);
    forall i | 0 <= i < |s'.loaded|
      ensures s'.loaded[i].useCount == Due(s', debts + multiset{m.handle}, {}, s'.loaded[i].handle)
    {
      AppendedDue(s, s', m, debts, s'.loaded[i].handle);
      if i < |s.loaded| {
        assert s.loaded[i].useCount == Due(s, debts, {}, s.loaded[i].handle);
      }
    }
  }

  lemma BeginKeeps(s: State, debts: multiset<Handle>, name: string)
    requires Exact(s, debts, {})
    ensures Exact(Begin(s, name), debts + multiset{s.nextHandle}, {})
    ensures forall x :: Loaded(s, x) ==> Loaded(Begin(s, name), x)
    ensures Loaded(Begin(s, name), s.nextHandle)
  {
    BeginLoaded(s, name);
    BeginCounts(s, debts, name);
    BeginDangling(s, debts, name);
    BeginShape(s, name);
  }

  lemma BeginShape(s: State, name: string)
    requires DistinctHandles(s) && LiveCounts(s, {})
    ensures DistinctHandles(Begin(s, name)) && LiveCounts(Begin(s, name), {})
  {
  }

  lemma BeginLoaded(s: State, name: string)
    ensures forall x :: Loaded(Begin(s, name), x) <==> Loaded(s, x) || x == s.nextHandle
  {
    forall x ensures Loaded(Begin(s, name), x) <==> Loaded(s, x) || x == s.nextHandle {
      AppendedLoaded(s, Begin(s, name), Module(s.nextHandle, name, 1, []), x);
    }
  }

  lemma BeginDangling(s: State, debts: multiset<Handle>, name: string)
    requires NoDangling(s, debts, {})
    ensures NoDangling(Begin(s, name), debts + multiset{s.nextHandle}, {})
  {
    var s' := Begin(s, name);
    BeginLoaded(s, name);
    forall i | 0 <= i < |s'.loaded| ensures AllLoaded(s', s'.loaded[i].deps) {
      if i < |s.loaded| {
        assert AllLoaded(s, s.loaded[i].deps);
      }
    }
  }

  lemma FinishKeeps(s: State, debts: multiset<Handle>, h: Handle)
    requires Exact(s, debts, {})
    ensures Exact(Finish(s, h), debts, {}) && Finish(s, h).loaded == s.loaded && Finish(s, h).clients == s.clients
  {
    var s' := Finish(s, h);
    assert forall x :: Loaded(s', x) == Loaded(s, x);
    assert forall x :: Due(s', debts, {}, x) == Due(s, debts, {}, x);
    forall i | 0 <= i < |s'.loaded| ensures AllLoaded(s', s'.loaded[i].deps) {
      assert AllLoaded(s, s.loaded[i].deps);
    }
  }

  ghost predicate Grown(s: State, r: State, debts: multiset<Handle>) {
    Exact(r, debts, {}) && r.clients == s.clients && forall x :: Loaded(s, x) ==> Loaded(r, x)
  }

  /** A needed module that is there already is bumped and recorded. */
  lemma ReuseKeeps(s: State, h: Handle, i: nat, debts: multiset<Handle>)
    requires Exact(s, debts, {}) && Loaded(s, h) && i < |s.loaded|
    ensures Grown(s, Reuse(s, h, i), debts)
  {
    BumpUse(s, debts, i);
    var s0 := s.(loaded := AddUse(s.loaded, i, 1));
    RecordDep(s0, debts, h, s.loaded[i].handle);
    assert Reuse(s, h, i) == s0.(loaded := AddDep(s0.loaded, h, s.loaded[i].handle));
  }

  /** A freshly loaded module's first use becomes the entry of the module that needed it. */
  lemma AdoptKeeps(s: State, h: Handle, dep: Handle, debts: multiset<Handle>)
    requires Exact(s, debts + multiset{dep}, {}) && Loaded(s, h)
    ensures Grown(s, Adopt(s, h, dep), debts)
  {
    FinishKeeps(s, debts + multiset{dep}, dep);
    var s2 := Finish(s, dep);
    assert forall x :: Loaded(s2, x) == Loaded(s, x);
    RecordDep(s2, debts, h, dep);
  }

  lemma NestedKeeps(s: State, s1: State, h: Handle, name: string, debts: multiset<Handle>)
    requires Exact(s, debts, {}) && Loaded(s, h)
    requires Grown(Begin(s, name), s1, debts + multiset{s.nextHandle})
    ensures Grown(s, Adopt(s1, h, s.nextHandle), debts)
  {
    BeginKeeps(s, debts, name);
    AdoptKeeps(s1, h, s.nextHandle, debts);
    GrownOn(s, s1, Adopt(s1, h, s.nextHandle), debts);
  }

  /** Loading dependents keeps every count exact and every loaded module loaded. */
  lemma {:induction false} LoadNeededKeeps(files: Files, s: State, h: Handle, needed: seq<string>, debts: multiset<Handle>)
    requires Closed(files) && forall i :: 0 <= i < |needed| ==> needed[i] in files
    requires Exact(s, debts, {}) && Loaded(s, h)
    ensures Grown(s, LoadNeeded(files, s, h, needed), debts)
    decreases |Missing(files, s)|, |needed|, 1
  {
    if needed != [] {
      NeedKeeps(files, s, h, needed[0], debts);
      NeedShrinks(files, s, h, needed[0]);
      LoadNeededKeeps(files, Need(files, s, h, needed[0]), h, needed[1..], debts);
      LoadNeededStep(files, s, h, needed);
    }
  }

  lemma {:induction false} NeedKeeps(files: Files, s: State, h: Handle, name: string, debts: multiset<Handle>)
    requires Closed(files) && name in files
    requires Exact(s, debts, {}) && Loaded(s, h)
    ensures Grown(s, Need(files, s, h, name), debts)
    decreases |Missing(files, s)|, 0, 1
  {
    var i := FindName(s.loaded, name);
    if i < |s.loaded| {
      ReuseKeeps(s, h, i, debts);
    } else {
      NestedExact(files, s, h, name, debts);
    }
  }

  lemma {:induction false} NestedExact(files: Files, s: State, h: Handle, name: string, debts: multiset<Handle>)
    requires Closed(files) && name in files && FindName(s.loaded, name) == |s.loaded|
    requires Exact(s, debts, {}) && Loaded(s, h)
    ensures Grown(s, Nested(files, s, h, name), debts)
    decreases |Missing(files, s)|, 0, 0
  {
    NestedShrinks(files, s, h, name);
    BeginKeeps(s, debts, name);
    LoadNeededKeeps(files, Begin(s, name), s.nextHandle, files[name], debts + multiset{s.nextHandle});
    NestedKeeps(s, LoadNeeded(files, Begin(s, name), s.nextHandle, files[name]), h, name, debts);
  }

  lemma GrownOn(s: State, r: State, t: State, debts: multiset<Handle>)
    requires r.clients == s.clients && forall x :: Loaded(s, x) ==> Loaded(r, x)
    requires Grown(r, t, debts)
    ensures Grown(s, t, debts)
  {
  }

  lemma LoadKeeps(files: Files, s: State, name: string)
    requires Closed(files) && name in files && Exact(s, multiset{}, {})
    ensures var r := Load(files, s, name);
            Exact(r, multiset{s.nextHandle}, {}) && r.clients == s.clients
  {
    BeginKeeps(s, multiset{}, name);
    assert multiset{} + multiset{s.nextHandle} == multiset{s.nextHandle};
    LoadNeededKeeps(files, Begin(s, name), s.nextHandle, files[name], multiset{s.nextHandle});
    FinishKeeps(LoadNeeded(files, Begin(s, name), s.nextHandle, files[name]), multiset{s.nextHandle}, s.nextHandle);
  }

  // ---------------------------------------------------------------- unloading keeps counts exact

  lemma DueUse(s: State, i: nat, debts: multiset<Handle>, h: Handle, dying: set<Handle>, x: Handle)
    requires i < |s.loaded|
    ensures Due(s.(loaded := AddUse(s.loaded, i, -1)), debts, dying, x) + (if x == h then 1 else 0) ==
            Due(s, debts + multiset{h}, dying, x)
  {
    AddUseDeps(s.loaded, i, -1, x, dying);
  }

  /** One reference to h is dropped and others remain. */
  lemma DropKeeps(s: State, h: Handle, debts: multiset<Handle>, dying: set<Handle>)
    requires Exact(s, debts + multiset{h}, dying) && Loaded(s, h)
    requires s.loaded[FindHandle(s.loaded, h)].useCount >= 2
    ensures Exact(s.(loaded := AddUse(s.loaded, FindHandle(s.loaded, h), -1)), debts, dying)
  {
    var i := FindHandle(s.loaded, h);
    var s' := s.(loaded := AddUse(s.loaded, i, -1));
    DropCounts(s, h, debts, dying);
    DropDangling(s, s', h, debts, dying);
  }

  lemma DropCounts(s: State, h: Handle, debts: multiset<Handle>, dying: set<Handle>)
    requires Counted(s, debts + multiset{h}, dying) && DistinctHandles(s) && Loaded(s, h)
    ensures Counted(s.(loaded := AddUse(s.loaded, FindHandle(s.loaded, h), -1)), debts, dying)
  {
    var i := FindHandle(s.loaded, h);
    var s' := s.(loaded := AddUse(s.loaded, i, -1));
    forall k | 0 <= k < |s'.loaded| ensures s'.loaded[k].useCount == Due(s', debts, dying, s'.loaded[k].handle) {
      DueUse(s, i, debts, h, dying, s.loaded[k].handle);
      assert s.loaded[k].useCount == Due(s, debts + multiset{h}, dying, s.loaded[k].handle);
    }
  }

  lemma DropDangling(s: State, s': State, h: Handle, debts: multiset<Handle>, dying: set<Handle>)
    requires NoDangling(s, debts + multiset{h}, dying) && s'.clients == s.clients
    requires SameHandles(s.loaded, s'.loaded)
    requires forall k :: 0 <= k < |s.loaded| ==> s'.loaded[k].deps == s.loaded[k].deps
    ensures NoDangling(s', debts, dying)
  {
    SameLoaded(s, s');
    forall x | x in debts || x in s'.clients ensures Loaded(s', x) {
      assert x in debts + multiset{h} || x in s.clients;
    }
    forall k | 0 <= k < |s'.loaded| && s'.loaded[k].handle !in dying ensures AllLoaded(s', s'.loaded[k].deps) {
      assert s.loaded[k].handle !in dying;
      assert AllLoaded(s, s.loaded[k].deps);
    }
  }

  /** The dependency sums with h among the dying: h's own entries no longer count. */
  lemma {:induction false} DyingSum(ms: seq<Module>, i: nat, dying: set<Handle>, x: Handle)
    requires i < |ms| && ms[i].handle !in dying
    requires forall k :: 0 <= k < |ms| && k != i ==> ms[k].handle != ms[i].handle
    ensures Sum(ms, DepsOn(x, dying)) == multiset(ms[i].deps)[x] + Sum(ms, DepsOn(x, dying + {ms[i].handle}))
  {
    SumSplit(ms, i, DepsOn(x, dying));
    SumSplit(ms, i, DepsOn(x, dying + {ms[i].handle}));
    SameSum(ms[..i], dying, ms[i].handle, x);
    SameSum(ms[i + 1..], dying, ms[i].handle, x);
  }

  /** Whether h is dying does not matter to modules other than h. */
  lemma {:induction false} SameSum(ms: seq<Module>, dying: set<Handle>, h: Handle, x: Handle)
    requires forall k :: 0 <= k < |ms| ==> ms[k].handle != h
    ensures Sum(ms, DepsOn(x, dying + {h})) == Sum(ms, DepsOn(x, dying))
  {
    if ms != [] {
      SameSum(ms[1..], dying, h, x);
    }
  }

  ghost predicate LastUse(s: State, h: Handle, debts: multiset<Handle>, dying: set<Handle>) {
    Exact(s, debts + multiset{h}, dying) && Loaded(s, h) && s.loaded[FindHandle(s.loaded, h)].useCount == 1
  }

  /** The module's last use is gone: its entries turn into debts. */
  function Dying(s: State, h: Handle): State
    requires FindHandle(s.loaded, h) < |s.loaded|
  {
    s.(loaded := AddUse(s.loaded, FindHandle(s.loaded, h), -1), log := s.log + [Terminated(h)])
  }

  lemma DyingCounts(s: State, h: Handle, debts: multiset<Handle>, dying: set<Handle>)
    requires LastUse(s, h, debts, dying)
    ensures h !in dying
    ensures Counted(Dying(s, h), debts + multiset(s.loaded[FindHandle(s.loaded, h)].deps), dying + {h})
  {
    var i := FindHandle(s.loaded, h);
    var s' := Dying(s, h);
    var s1 := s.(loaded := AddUse(s.loaded, i, -1));
    var deps := s.loaded[i].deps;
    forall k | 0 <= k < |s'.loaded|
      ensures s'.loaded[k].useCount == Due(s', debts + multiset(deps), dying + {h}, s'.loaded[k].handle)
    {
      var x := s.loaded[k].handle;
      DueUse(s, i, debts, h, dying, x);
      DyingSum(s1.loaded, i, dying, x);
      assert Due(s1, debts, dying, x) == Due(s', debts + multiset(deps), dying + {h}, x);
      assert s.loaded[k].useCount == Due(s, debts + multiset{h}, dying, x);
    }
  }

  lemma DyingDangling(s: State, h: Handle, debts: multiset<Handle>, dying: set<Handle>)
    requires LastUse(s, h, debts, dying) && h !in dying
    ensures NoDangling(Dying(s, h), debts + multiset(s.loaded[FindHandle(s.loaded, h)].deps), dying + {h})
  {
    var i := FindHandle(s.loaded, h);
    var s' := Dying(s, h);
    DropDangling(s, s', h, debts, dying);
    assert AllLoaded(s', s.loaded[i].deps) by {
      assert s'.loaded[i].handle !in dying;
      assert AllLoaded(s', s'.loaded[i].deps);
    }
    forall x | x in debts + multiset(s.loaded[i].deps) || x in s'.clients ensures Loaded(s', x) {
      if x !in debts && x !in s'.clients {
        assert x in s.loaded[i].deps;
      }
    }
  }

  lemma DyingExact(s: State, h: Handle, debts: multiset<Handle>, dying: set<Handle>)
    requires LastUse(s, h, debts, dying)
    ensures h !in dying
    ensures Exact(Dying(s, h), debts + multiset(s.loaded[FindHandle(s.loaded, h)].deps), dying + {h})
  {
    DyingCounts(s, h, debts, dying);
    DyingDangling(s, h, debts, dying);
  }

  lemma RemovedAt(ms: seq<Module>, h: Handle, k: nat)
    requires FindHandle(ms, h) < |ms| && k < |ms| - 1
    ensures var i := FindHandle(ms, h); RemoveHandle(ms, h)[k] == ms[if k < i then k else k + 1]
  {
  }

  lemma RemovedLoaded(s: State, h: Handle, x: Handle)
    requires DistinctHandles(s) && Loaded(s, h)
    ensures Loaded(s.(loaded := RemoveHandle(s.loaded, h)), x) <==> Loaded(s, x) && x != h
  {
    if Loaded(s, x) && x != h {
      StillLoaded(s, h, x);
    }
    if Loaded(s.(loaded := RemoveHandle(s.loaded, h)), x) {
      WasLoaded(s, h, x);
    }
  }

  lemma StillLoaded(s: State, h: Handle, x: Handle)
    requires Loaded(s, h) && Loaded(s, x) && x != h
    ensures Loaded(s.(loaded := RemoveHandle(s.loaded, h)), x)
  {
    var ms := RemoveHandle(s.loaded, h);
    var i, k := FindHandle(s.loaded, h), FindHandle(s.loaded, x);
    var j := if k < i then k else k - 1;
    RemovedAt(s.loaded, h, j);
    assert ms[j].handle == x;
    FoundIff(ms, x);
  }

  lemma WasLoaded(s: State, h: Handle, x: Handle)
    requires DistinctHandles(s) && Loaded(s, h) && Loaded(s.(loaded := RemoveHandle(s.loaded, h)), x)
    ensures Loaded(s, x) && x != h
  {
    RemovedAt(s.loaded, h, FindHandle(RemoveHandle(s.loaded, h), x));
    FoundIff(s.loaded, x);
  }

  /** h can go: it is dying and nothing refers to it. */
  ghost predicate Removable(s: State, h: Handle, debts: multiset<Handle>, dying: set<Handle>) {
    Exact(s, debts, dying + {h}) && Loaded(s, h) && h !in dying
  }

  lemma RemoveCounts(s: State, h: Handle, debts: multiset<Handle>, dying: set<Handle>)
    requires Removable(s, h, debts, dying)
    ensures Counted(s.(loaded := RemoveHandle(s.loaded, h)), debts, dying)
  {
    var s' := s.(loaded := RemoveHandle(s.loaded, h));
    var i := FindHandle(s.loaded, h);
    forall k | 0 <= k < |s'.loaded| ensures s'.loaded[k].useCount == Due(s', debts, dying, s'.loaded[k].handle) {
      RemovedAt(s.loaded, h, k);
      RemovedDeps(s.loaded, h, dying, s'.loaded[k].handle);
      var l := if k < i then k else k + 1;
      assert s.loaded[l].useCount == Due(s, debts, dying + {h}, s.loaded[l].handle);
    }
  }

  /** A dying module takes no counted entry with it. */
  lemma RemovedDeps(ms: seq<Module>, h: Handle, dying: set<Handle>, x: Handle)
    requires FindHandle(ms, h) < |ms|
    requires forall k, l :: 0 <= k < l < |ms| ==> ms[k].handle != ms[l].handle
    ensures Sum(RemoveHandle(ms, h), DepsOn(x, dying)) == Sum(ms, DepsOn(x, dying + {h}))
  {
    var rest := RemoveHandle(ms, h);
    forall k | 0 <= k < |rest| ensures rest[k].handle != h {
      RemovedAt(ms, h, k);
    }
    SumSplit(ms, FindHandle(ms, h), DepsOn(x, dying + {h}));
    SameSum(rest, dying, h, x);
  }

  lemma NoReference(s: State, h: Handle, debts: multiset<Handle>, dying: set<Handle>)
    requires Removable(s, h, debts, dying)
    ensures h !in debts && h !in s.clients
    ensures forall k :: 0 <= k < |s.loaded| && s.loaded[k].handle !in dying + {h} ==> h !in s.loaded[k].deps
  {
    var i := FindHandle(s.loaded, h);
    assert s.loaded[i].useCount == Due(s, debts, dying + {h}, h);
    assert s.loaded[i].handle in dying + {h};
    SumZero(s.loaded, DepsOn(h, dying + {h}));
    forall k | 0 <= k < |s.loaded| && s.loaded[k].handle !in dying + {h} ensures h !in s.loaded[k].deps {
      assert DepsOn(h, dying + {h})(s.loaded[k]) == 0;
      assert h !in multiset(s.loaded[k].deps);
    }
  }

  lemma RemoveDangling(s: State, h: Handle, debts: multiset<Handle>, dying: set<Handle>)
    requires Removable(s, h, debts, dying)
    ensures NoDangling(s.(loaded := RemoveHandle(s.loaded, h)), debts, dying)
  {
    var s' := s.(loaded := RemoveHandle(s.loaded, h));
    NoReference(s, h, debts, dying);
    forall x ensures Loaded(s', x) <==> Loaded(s, x) && x != h {
      RemovedLoaded(s, h, x);
    }
    var i := FindHandle(s.loaded, h);
    forall k | 0 <= k < |s'.loaded| && s'.loaded[k].handle !in dying ensures AllLoaded(s', s'.loaded[k].deps) {
      RemovedAt(s.loaded, h, k);
      var l := if k < i then k else k + 1;
      assert s.loaded[l].handle !in dying + {h};
      assert AllLoaded(s, s.loaded[l].deps) && h !in s.loaded[l].deps;
    }
  }

  lemma RemoveShape(s: State, h: Handle, debts: multiset<Handle>, dying: set<Handle>)
    requires Removable(s, h, debts, dying)
    ensures DistinctHandles(s.(loaded := RemoveHandle(s.loaded, h)))
    ensures LiveCounts(s.(loaded := RemoveHandle(s.loaded, h)), dying)
  {
    var s' := s.(loaded := RemoveHandle(s.loaded, h));
    forall k, l | 0 <= k < l < |s'.loaded| ensures s'.loaded[k].handle != s'.loaded[l].handle {
      RemovedAt(s.loaded, h, k);
      RemovedAt(s.loaded, h, l);
    }
    forall k | 0 <= k < |s'.loaded|
      ensures s'.loaded[k].handle < s.nextHandle
      ensures if s'.loaded[k].handle in dying then s'.loaded[k].useCount == 0 else s'.loaded[k].useCount >= 1
    {
      RemovedAt(s.loaded, h, k);
      var i := FindHandle(s.loaded, h);
      var l := if k < i then k else k + 1;
      assert s.loaded[l].handle != h;
    }
  }

  /** Dying modules stay as they are until their own unload removes them. */
  ghost predicate Untouched(s: State, r: State, dying: set<Handle>) {
    r.clients == s.clients && r.nextHandle == s.nextHandle &&
    forall m :: m in s.loaded && m.handle in dying ==> m in r.loaded
  }

  ghost predicate Released(s: State, r: State, debts: multiset<Handle>, dying: set<Handle>) {
    Exact(r, debts, dying) && Untouched(s, r, dying)
  }

  lemma RemoveReleases(s: State, s2: State, h: Handle, debts: multiset<Handle>, dying: set<Handle>)
    requires Untouched(s, s2, dying) && Removable(s2, h, debts, dying)
    ensures Released(s, s2.(loaded := RemoveHandle(s2.loaded, h), log := s2.log + [Freed(h)]), debts, dying)
  {
    var s3 := s2.(loaded := RemoveHandle(s2.loaded, h));
    var r := s3.(log := s2.log + [Freed(h)]);
    RemoveCounts(s2, h, debts, dying);
    RemoveDangling(s2, h, debts, dying);
    RemoveShape(s2, h, debts, dying);
    LogOnly(s3, r, debts, dying);
    forall m | m in s.loaded && m.handle in dying ensures m in r.loaded {
      OthersRemain(s2.loaded, h, m);
    }
  }

  lemma OthersRemain(ms: seq<Module>, h: Handle, m: Module)
    requires FindHandle(ms, h) < |ms| && m in ms && m.handle != h
    ensures m in RemoveHandle(ms, h)
  {
    var i := FindHandle(ms, h);
    var k :| 0 <= k < |ms| && ms[k] == m;
    if k < i {
      RemovedAt(ms, h, k);
    } else {
      assert k != i;
      RemovedAt(ms, h, k - 1);
    }
  }

  lemma LogOnly(s: State, r: State, debts: multiset<Handle>, dying: set<Handle>)
    requires Exact(s, debts, dying) && r == s.(log := r.log)
    ensures Exact(r, debts, dying)
  {
    assert forall x :: Loaded(r, x) == Loaded(s, x);
    assert forall x :: Due(r, debts, dying, x) == Due(s, debts, dying, x);
    forall k | 0 <= k < |r.loaded| && r.loaded[k].handle !in dying ensures AllLoaded(r, r.loaded[k].deps) {
      assert AllLoaded(s, s.loaded[k].deps);
    }
  }

  lemma DebtorLoaded(s: State, h: Handle, debts: multiset<Handle>, dying: set<Handle>)
    requires Exact(s, debts + multiset{h}, dying)
    ensures Loaded(s, h) && h !in dying && s.loaded[FindHandle(s.loaded, h)].useCount >= 1
  {
    assert h in debts + multiset{h};
    var i := FindHandle(s.loaded, h);
    assert s.loaded[i].useCount == Due(s, debts + multiset{h}, dying, h);
  }

  /** DLOAD_unload drops exactly one reference to h, and frees only what nothing refers to. */
  lemma {:induction false} UnloadExact(s: State, h: Handle, debts: multiset<Handle>, dying: set<Handle>)
    requires Exact(s, debts + multiset{h}, dying)
    ensures Released(s, Unload(s, h), debts, dying)
    decreases Total(s.loaded), 1, 0
  {
    DebtorLoaded(s, h, debts, dying);
    var i := FindHandle(s.loaded, h);
    UseTotal(s.loaded, i);
    if s.loaded[i].useCount >= 2 {
      DropKeeps(s, h, debts, dying);
      UseUntouched(s, i, dying);
    } else {
      UnloadLast(s, h, debts, dying);
    }
  }

  lemma UseUntouched(s: State, i: nat, dying: set<Handle>)
    requires i < |s.loaded| && s.loaded[i].handle !in dying
    ensures Untouched(s, s.(loaded := AddUse(s.loaded, i, -1)), dying)
  {
    var r := s.(loaded := AddUse(s.loaded, i, -1));
    forall m | m in s.loaded && m.handle in dying ensures m in r.loaded {
      var k :| 0 <= k < |s.loaded| && s.loaded[k] == m;
      assert r.loaded[k] == m;
    }
  }

  lemma {:induction false} UnloadLast(s: State, h: Handle, debts: multiset<Handle>, dying: set<Handle>)
    requires LastUse(s, h, debts, dying) && h !in dying
    ensures Released(s, Unload(s, h), debts, dying)
    decreases Total(s.loaded), 0, 0
  {
    var i := FindHandle(s.loaded, h);
    UseTotal(s.loaded, i);
    DyingExact(s, h, debts, dying);
    UseUntouched(s, i, dying);
    var s1 := Dying(s, h);
    UnloadAllExact(s1, s.loaded[i].deps, debts, dying + {h});
    var s2 := UnloadAll(s1, s.loaded[i].deps);
    StillThere(s1, s2, h, i, dying);
    RemoveReleases(s, s2, h, debts, dying);
  }

  lemma StillThere(s1: State, s2: State, h: Handle, i: nat, dying: set<Handle>)
    requires i < |s1.loaded| && s1.loaded[i].handle == h && Untouched(s1, s2, dying + {h})
    ensures Loaded(s2, h) && Untouched(s1, s2, dying)
  {
    assert s1.loaded[i] in s2.loaded;
    FoundIff(s2.loaded, h);
  }

  lemma {:induction false} UnloadAllExact(s: State, deps: seq<Handle>, debts: multiset<Handle>, dying: set<Handle>)
    requires Exact(s, debts + multiset(deps), dying)
    ensures Released(s, UnloadAll(s, deps), debts, dying)
    decreases Total(s.loaded), 2, |deps|
  {
    if deps == [] {
      assert debts + multiset(deps) == debts;
    } else {
      assert deps == [deps[0]] + deps[1..];
      assert debts + multiset(deps) == (debts + multiset(deps[1..])) + multiset{deps[0]};
      UnloadExact(s, deps[0], debts + multiset(deps[1..]), dying);
      UnloadAllExact(Unload(s, deps[0]), deps[1..], debts, dying);
    }
  }
}
