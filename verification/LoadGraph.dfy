/**
  The dependency lists say what the files need: between client calls the list of every loaded
  module names, entry by entry, loaded modules of the files on its DT_NEEDED list.
 */
module LoadGraph {
  import opened Loading
  import opened UseCounts
  import opened LoadRuns

  /** A loaded module has this handle and this name. */
  ghost predicate Named(ms: seq<Module>, h: Handle, name: string) {
    exists j :: 0 <= j < |ms| && ms[j].handle == h && ms[j].name == name
  }

  /** The entries so far are those of the file's first needed names, in their order. */
  ghost predicate Follows(files: Files, ms: seq<Module>, m: Module) {
    && m.name in files && |m.deps| <= |files[m.name]|
    && forall k :: 0 <= k < |m.deps| ==> Named(ms, m.deps[k], files[m.name][k])
  }

  ghost predicate Complete(files: Files, ms: seq<Module>, m: Module) {
    Follows(files, ms, m) && |m.deps| == |files[m.name]|
  }

  ghost predicate AllFollow(files: Files, ms: seq<Module>) {
    forall i :: 0 <= i < |ms| ==> Follows(files, ms, ms[i])
  }

  ghost predicate AllComplete(files: Files, ms: seq<Module>) {
    forall i :: 0 <= i < |ms| ==> Complete(files, ms, ms[i])
  }

  // ---------------------------------------------------------------- loading

  /** Modules stay in their places, and only h gets further entries. */
  ghost predicate Extended(ms: seq<Module>, ns: seq<Module>, h: Handle) {
    && |ms| <= |ns|
    && (forall i :: 0 <= i < |ms| ==> ns[i].handle == ms[i].handle && ns[i].name == ms[i].name)
    && (forall i :: 0 <= i < |ms| && ms[i].handle != h ==> ns[i].deps == ms[i].deps)
  }

  lemma StaysNamed(ms: seq<Module>, ns: seq<Module>, h: Handle, x: Handle, name: string)
    requires Extended(ms, ns, h) && Named(ms, x, name)
    ensures Named(ns, x, name)
  {
    var j :| 0 <= j < |ms| && ms[j].handle == x && ms[j].name == name;
    assert ns[j].handle == x;
  }

  lemma StillFollows(files: Files, ms: seq<Module>, ns: seq<Module>, h: Handle, m: Module, n: Module)
    requires Extended(ms, ns, h) && Follows(files, ms, m) && n.name == m.name && n.deps == m.deps
    ensures Follows(files, ns, n)
  {
    forall k | 0 <= k < |n.deps| ensures Named(ns, n.deps[k], files[n.name][k]) {
      StaysNamed(ms, ns, h, m.deps[k], files[m.name][k]);
    }
  }

  /** Module i is about to get the entries for `needed`. */
  ghost predicate Ready(files: Files, s: State, i: nat, needed: seq<string>) {
    && DistinctHandles(s) && AllFollow(files, s.loaded) && i < |s.loaded|
    && needed == files[s.loaded[i].name][|s.loaded[i].deps|..]
  }

  /** What the load of some names has left behind: module i grown, further modules complete. */
  ghost predicate Done(files: Files, s: State, r: State, i: nat, needed: seq<string>) {
    && i < |s.loaded| && Extended(s.loaded, r.loaded, s.loaded[i].handle)
    && Ready(files, r, i, needed)
    && forall j :: |s.loaded| <= j < |r.loaded| ==> Complete(files, r.loaded, r.loaded[j])
  }

  lemma DoneThen(files: Files, s: State, r: State, t: State, i: nat, rest: seq<string>, needed: seq<string>)
    requires Done(files, s, r, i, rest) && Done(files, r, t, i, needed)
    ensures Done(files, s, t, i, needed)
  {
    forall j | |s.loaded| <= j < |t.loaded| ensures Complete(files, t.loaded, t.loaded[j]) {
      if j < |r.loaded| {
        assert Complete(files, r.loaded, r.loaded[j]);
        assert r.loaded[j].handle != s.loaded[i].handle;
        StillFollows(files, r.loaded, t.loaded, s.loaded[i].handle, r.loaded[j], t.loaded[j]);
      }
    }
  }

  /** An entry for a loaded module of the next needed name. */
  lemma Entered(files: Files, s: State, i: nat, needed: seq<string>, dep: Handle)
    requires Ready(files, s, i, needed) && needed != [] && Named(s.loaded, dep, needed[0])
    ensures Done(files, s, s.(loaded := AddDep(s.loaded, s.loaded[i].handle, dep)), i, needed[1..])
  {
    var ms, h := s.loaded, s.loaded[i].handle;
    var ns := AddDep(ms, h, dep);
    FindIt(ms, i);
    assert ns == ms[i := ms[i].(deps := ms[i].deps + [dep])];
    assert Extended(ms, ns, h);
    forall j | 0 <= j < |ns| ensures Follows(files, ns, ns[j]) {
      assert Follows(files, ms, ms[j]);
      if j == i {
        EntryFollows(files, ms, ns, h, ms[i], dep);
      } else {
        StillFollows(files, ms, ns, h, ms[j], ns[j]);
      }
    }
    assert files[ms[i].name][|ms[i].deps|..][1..] == files[ms[i].name][|ms[i].deps| + 1..];
  }

  lemma EntryFollows(files: Files, ms: seq<Module>, ns: seq<Module>, h: Handle, m: Module, dep: Handle)
    requires Extended(ms, ns, h) && Follows(files, ms, m)
    requires |m.deps| < |files[m.name]| && Named(ms, dep, files[m.name][|m.deps|])
    ensures Follows(files, ns, m.(deps := m.deps + [dep]))
  {
    var n := m.(deps := m.deps + [dep]);
    forall k | 0 <= k < |n.deps| ensures Named(ns, n.deps[k], files[n.name][k]) {
      StaysNamed(ms, ns, h, n.deps[k], files[n.name][k]);
    }
  }

  /** A change of counts only. */
  lemma Bumped(files: Files, s: State, i: nat, j: nat, needed: seq<string>)
    requires Ready(files, s, i, needed) && j < |s.loaded|
    ensures Done(files, s, s.(loaded := AddUse(s.loaded, j, 1)), i, needed)
  {
    var ms, ns := s.loaded, AddUse(s.loaded, j, 1);
    assert Extended(ms, ns, ms[i].handle);
    forall k | 0 <= k < |ns| ensures Follows(files, ns, ns[k]) {
      assert Follows(files, ms, ms[k]);
      StillFollows(files, ms, ns, ms[i].handle, ms[k], ns[k]);
    }
  }

  lemma ReuseDone(files: Files, s: State, i: nat, needed: seq<string>, j: nat)
    requires Ready(files, s, i, needed) && needed != [] && j < |s.loaded| && s.loaded[j].name == needed[0]
    ensures Done(files, s, Reuse(s, s.loaded[i].handle, j), i, needed[1..])
  {
    var s1 := s.(loaded := AddUse(s.loaded, j, 1));
    Bumped(files, s, i, j, needed);
    assert s1.loaded[j].name == needed[0];
    Entered(files, s1, i, needed, s.loaded[j].handle);
    DoneThen(files, s, s1, Reuse(s, s.loaded[i].handle, j), i, needed, needed[1..]);
  }

  /** The new module is in place, and has all its entries to come. */
  lemma BeginReady(files: Files, s: State, name: string)
    requires DistinctHandles(s) && AllFollow(files, s.loaded) && name in files
    ensures Ready(files, Begin(s, name), |s.loaded|, files[name])
    ensures Extended(s.loaded, Begin(s, name).loaded, s.nextHandle)
  {
    var ms, ns := s.loaded, Begin(s, name).loaded;
    forall j | 0 <= j < |ns| ensures Follows(files, ns, ns[j]) {
      if j < |ms| {
        assert Follows(files, ms, ms[j]);
        StillFollows(files, ms, ns, s.nextHandle, ms[j], ns[j]);
      }
    }
  }

  /** A whole load below module i, up to the end of its own needs. */
  lemma NestedDone(files: Files, s: State, r: State, i: nat, needed: seq<string>)
    requires Ready(files, s, i, needed) && needed != [] && needed[0] in files
    requires Done(files, Begin(s, needed[0]), r, |s.loaded|, [])
    ensures Done(files, s, Adopt(r, s.loaded[i].handle, s.nextHandle), i, needed[1..])
  {
    var s1 := Finish(r, s.nextHandle);
    BeginReady(files, s, needed[0]);
    assert Done(files, s, s1, i, needed) by {
      NestedGrows(files, s, r, needed[0]);
    }
    assert r.loaded[|s.loaded|].handle == s.nextHandle && r.loaded[|s.loaded|].name == needed[0];
    Entered(files, s1, i, needed, s.nextHandle);
    DoneThen(files, s, s1, Adopt(r, s.loaded[i].handle, s.nextHandle), i, needed, needed[1..]);
  }

  lemma NestedGrows(files: Files, s: State, r: State, name: string)
    requires name in files && Done(files, Begin(s, name), r, |s.loaded|, [])
    ensures |s.loaded| <= |r.loaded|
    ensures forall j :: 0 <= j < |s.loaded| && s.loaded[j].handle != s.nextHandle ==>
              r.loaded[j].handle == s.loaded[j].handle && r.loaded[j].name == s.loaded[j].name && r.loaded[j].deps == s.loaded[j].deps
    ensures forall j :: |s.loaded| <= j < |r.loaded| ==> Complete(files, r.loaded, r.loaded[j])
  {
    var s0 := Begin(s, name);
    forall j | 0 <= j < |s.loaded| && s.loaded[j].handle != s.nextHandle
      ensures r.loaded[j].handle == s.loaded[j].handle && r.loaded[j].name == s.loaded[j].name && r.loaded[j].deps == s.loaded[j].deps
    {
      assert s0.loaded[j] == s.loaded[j];
    }
    assert Follows(files, r.loaded, r.loaded[|s.loaded|]);
  }

  lemma {:induction false} NeededDone(files: Files, s: State, i: nat, needed: seq<string>)
    requires Closed(files) && (forall k :: 0 <= k < |needed| ==> needed[k] in files) && Ready(files, s, i, needed)
    ensures Done(files, s, LoadNeeded(files, s, s.loaded[i].handle, needed), i, [])
    decreases |Missing(files, s)|, |needed|, 1
  {
    var h := s.loaded[i].handle;
    if needed != [] {
      var s1 := Need(files, s, h, needed[0]);
      NeedDone(files, s, i, needed);
      NeedShrinks(files, s, h, needed[0]);
      NeededDone(files, s1, i, needed[1..]);
      LoadNeededStep(files, s, h, needed);
      DoneThen(files, s, s1, LoadNeeded(files, s, h, needed), i, needed[1..], []);
    }
  }

  lemma {:induction false} NeedDone(files: Files, s: State, i: nat, needed: seq<string>)
    requires Closed(files) && (forall k :: 0 <= k < |needed| ==> needed[k] in files) && Ready(files, s, i, needed)
    requires needed != []
    ensures Done(files, s, Need(files, s, s.loaded[i].handle, needed[0]), i, needed[1..])
    decreases |Missing(files, s)|, |needed|, 0
  {
    var h, name := s.loaded[i].handle, needed[0];
    var j := FindName(s.loaded, name);
    if j < |s.loaded| {
      ReuseDone(files, s, i, needed, j);
    } else {
      NestedShrinks(files, s, h, name);
      BeginReady(files, s, name);
      NeededDone(files, Begin(s, name), |s.loaded|, files[name]);
      NestedDone(files, s, LoadNeeded(files, Begin(s, name), s.nextHandle, files[name]), i, needed);
    }
  }

  /** A client's load leaves every list complete. */
  lemma LoadCompletes(files: Files, s: State, name: string)
    requires Closed(files) && name in files && DistinctHandles(s) && AllComplete(files, s.loaded)
    ensures AllComplete(files, Load(files, s, name).loaded)
  {
    BeginReady(files, s, name);
    NeededDone(files, Begin(s, name), |s.loaded|, files[name]);
    var r := LoadNeeded(files, Begin(s, name), s.nextHandle, files[name]);
    NestedGrows(files, s, r, name);
    forall j | 0 <= j < |r.loaded| ensures Complete(files, r.loaded, r.loaded[j]) {
      if j < |s.loaded| {
        assert Complete(files, s.loaded, s.loaded[j]) && Follows(files, r.loaded, r.loaded[j]);
      }
    }
  }

  // ---------------------------------------------------------------- unloading

  /** What is left was there before, and has kept its name and its list. */
  ghost predicate Left(ms: seq<Module>, ns: seq<Module>) {
    forall i :: 0 <= i < |ns| ==> Was(ms, ns[i])
  }

  ghost predicate Was(ms: seq<Module>, n: Module) {
    exists j :: 0 <= j < |ms| && ms[j].handle == n.handle && ms[j].name == n.name && ms[j].deps == n.deps
  }

  lemma LeftThen(ms: seq<Module>, ns: seq<Module>, os: seq<Module>)
    requires Left(ms, ns) && Left(ns, os)
    ensures Left(ms, os)
  {
    forall i | 0 <= i < |os| ensures Was(ms, os[i]) {
      assert Was(ns, os[i]);
      var j :| 0 <= j < |ns| && ns[j].handle == os[i].handle && ns[j].name == os[i].name && ns[j].deps == os[i].deps;
      assert Was(ms, ns[j]);
    }
  }

  lemma RemoveLeaves(ms: seq<Module>, h: Handle)
    ensures Left(ms, RemoveHandle(ms, h))
  {
    var ns := RemoveHandle(ms, h);
    forall i | 0 <= i < |ns| ensures Was(ms, ns[i]) {
      assert ns[i] in ms;
    }
  }

  lemma UseLeaves(ms: seq<Module>, i: nat)
    requires i < |ms|
    ensures Left(ms, AddUse(ms, i, -1))
  {
    var ns := AddUse(ms, i, -1);
    forall k | 0 <= k < |ns| ensures Was(ms, ns[k]) {
      assert ms[k].handle == ns[k].handle && ms[k].name == ns[k].name && ms[k].deps == ns[k].deps;
    }
  }

  lemma {:induction false} UnloadLeaves(s: State, h: Handle)
    ensures Left(s.loaded, Unload(s, h).loaded)
    decreases Total(s.loaded), 1, 0
  {
    var i := FindHandle(s.loaded, h);
    if i < |s.loaded| {
      UseTotal(s.loaded, i);
      UseLeaves(s.loaded, i);
      if s.loaded[i].useCount == 1 {
        var s1 := Dying(s, h);
        UnloadAllLeaves(s1, s.loaded[i].deps);
        var s2 := UnloadAll(s1, s.loaded[i].deps);
        RemoveLeaves(s2.loaded, h);
        LeftThen(s.loaded, s1.loaded, s2.loaded);
        LeftThen(s.loaded, s2.loaded, RemoveHandle(s2.loaded, h));
      }
    } else {
      AllWere(s.loaded);
    }
  }

  lemma AllWere(ms: seq<Module>)
    ensures Left(ms, ms)
  {
    forall i | 0 <= i < |ms| ensures Was(ms, ms[i]) {
    }
  }

  lemma {:induction false} UnloadAllLeaves(s: State, deps: seq<Handle>)
    ensures Left(s.loaded, UnloadAll(s, deps).loaded)
    decreases Total(s.loaded), 2, |deps|
  {
    if deps == [] {
      AllWere(s.loaded);
    } else {
      var s1 := Unload(s, deps[0]);
      UnloadLeaves(s, deps[0]);
      UnloadAllLeaves(s1, deps[1..]);
      LeftThen(s.loaded, s1.loaded, UnloadAll(s, deps).loaded);
    }
  }

  /** With no dangling entry, what is left is complete. */
  lemma LeftComplete(files: Files, s: State, r: State)
    requires AllComplete(files, s.loaded) && DistinctHandles(s) && Left(s.loaded, r.loaded)
    requires forall i :: 0 <= i < |r.loaded| ==> AllLoaded(r, r.loaded[i].deps)
    ensures AllComplete(files, r.loaded)
  {
    forall i | 0 <= i < |r.loaded| ensures Complete(files, r.loaded, r.loaded[i]) {
      assert Was(s.loaded, r.loaded[i]) && AllLoaded(r, r.loaded[i].deps);
      var j :| 0 <= j < |s.loaded| && s.loaded[j].handle == r.loaded[i].handle
               && s.loaded[j].name == r.loaded[i].name && s.loaded[j].deps == r.loaded[i].deps;
      assert Complete(files, s.loaded, s.loaded[j]);
      var m := r.loaded[i];
      forall k | 0 <= k < |m.deps| ensures Named(r.loaded, m.deps[k], files[m.name][k]) {
        NameStays(s, r, m.deps[k], files[m.name][k]);
      }
    }
  }

  lemma NameStays(s: State, r: State, h: Handle, name: string)
    requires DistinctHandles(s) && Left(s.loaded, r.loaded) && Named(s.loaded, h, name) && Loaded(r, h)
    ensures Named(r.loaded, h, name)
  {
    var i := FindHandle(r.loaded, h);
    assert Was(s.loaded, r.loaded[i]);
  }

  // ---------------------------------------------------------------- runs

  lemma StepCompletes(files: Files, s: State, a: Action)
    requires Exact(s, multiset{}, {}) && AllComplete(files, s.loaded) && Enabled(files, s, a)
    ensures AllComplete(files, Apply(files, s, a).loaded)
  {
    match a
    case ClientLoad(name) => LoadCompletes(files, s, name);
    case ClientUnload(h) =>
      StepExact(files, s, a);
      UnloadLeaves(s.(clients := s.clients - multiset{h}), h);
      LeftComplete(files, s, Apply(files, s, a));
  }

  lemma {:induction false} RunCompletes(files: Files, s: State, acts: seq<Action>, s': State)
    requires Exact(s, multiset{}, {}) && AllComplete(files, s.loaded) && Run(files, s, acts, s')
    ensures AllComplete(files, s'.loaded)
    decreases |acts|
  {
    if acts != [] {
      StepExact(files, s, acts[0]);
      StepCompletes(files, s, acts[0]);
      RunCompletes(files, Apply(files, s, acts[0]), acts[1..], s');
    }
  }

  /**
    After any run of client loads and matching unloads a loaded module's list has one entry for each
    name that its file needs, in that order, and the entry is the handle of a loaded module of that name.
   */
  lemma ListsFollowFiles(files: Files, acts: seq<Action>, s: State, i: nat)
    requires Run(files, INIT, acts, s) && i < |s.loaded|
    ensures var m := s.loaded[i];
            m.name in files && |m.deps| == |files[m.name]| &&
            forall k :: 0 <= k < |m.deps| ==>
              exists j :: 0 <= j < |s.loaded| && s.loaded[j].handle == m.deps[k] && s.loaded[j].name == files[m.name][k]
  {
    RunCompletes(files, INIT, acts, s);
    var m := s.loaded[i];
    assert Complete(files, s.loaded, m);
    forall k | 0 <= k < |m.deps|
      ensures exists j :: 0 <= j < |s.loaded| && s.loaded[j].handle == m.deps[k] && s.loaded[j].name == files[m.name][k]
    {
      assert Named(s.loaded, m.deps[k], files[m.name][k]);
    }
  }

  /** Each name needs the next. */
  ghost predicate Chain(files: Files, path: seq<string>) {
    && (forall k :: 0 <= k < |path| ==> path[k] in files)
    && forall k :: 0 <= k < |path| - 1 ==> path[k + 1] in files[path[k]]
  }

  /** So nothing that a loaded module needs, directly or through others, is ever missing from the list. */
  lemma {:induction false} NeededIsLoaded(files: Files, acts: seq<Action>, s: State, path: seq<string>)
    requires Run(files, INIT, acts, s) && path != [] && Chain(files, path)
    requires exists i :: 0 <= i < |s.loaded| && s.loaded[i].name == path[0]
    ensures exists i :: 0 <= i < |s.loaded| && s.loaded[i].name == path[|path| - 1]
    decreases |path|
  {
    if |path| > 1 {
      var i :| 0 <= i < |s.loaded| && s.loaded[i].name == path[0];
      ListsFollowFiles(files, acts, s, i);
      assert path[0 + 1] in files[path[0]];
      var k :| 0 <= k < |files[path[0]]| && files[path[0]][k] == path[1];
      var j :| 0 <= j < |s.loaded| && s.loaded[j].name == path[1];
      ChainGoesOn(files, path);
      NeededIsLoaded(files, acts, s, path[1..]);
    }
  }

  lemma ChainGoesOn(files: Files, path: seq<string>)
    requires Chain(files, path) && path != []
    ensures Chain(files, path[1..])
  {
    forall k | 0 <= k < |path[1..]| - 1 ensures path[1..][k + 1] in files[path[1..][k]] {
      assert path[(k + 1) + 1] in files[path[k + 1]];
    }
  }
}
