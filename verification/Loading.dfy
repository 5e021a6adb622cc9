/**
  Loading and unloading in the ELF loader (src/utils/elfload/dload.c): dependency loading with
  use counts, the dependency stack that holds relocation back, and recursive unloading.

  The client keeps the contract of src/utils/elfload/dlw_client.c: a request for a dependent file
  loads the file of that name, a request to unload a dependent unloads that handle.
 */
module Loading {
  import opened Sums

  type Handle = nat

  /** A file of the file system: the names on its DT_NEEDED list. */
  type Files = map<string, seq<string>>

  datatype Module = Module(handle: Handle, name: string, useCount: int, deps: seq<Handle>)

  datatype Event = Allocated(h: Handle) | Relocated(h: Handle) | Initialized(h: Handle) | Terminated(h: Handle) | Freed(h: Handle)

  /** `stack` is the dependency stack, top last.  `clients` counts the client's own references. */
  datatype State = State(loaded: seq<Module>, nextHandle: Handle, stack: seq<Handle>, clients: multiset<Handle>, log: seq<Event>)

  const INIT := State([], 1, [], multiset{}, [])

  /** Every file named on a needed list exists: loads are successful. */
  ghost predicate Closed(files: Files) {
    forall name, i :: name in files && 0 <= i < |files[name]| ==> files[name][i] in files
  }

  // ---------------------------------------------------------------- the list of loaded modules

  function FindName(ms: seq<Module>, name: string): (i: nat)
    ensures i <= |ms|
    ensures i < |ms| ==> ms[i].name == name
    ensures forall k :: 0 <= k < i ==> ms[k].name != name
  {
    if ms == [] || ms[0].name == name then 0 else 1 + FindName(ms[1..], name)
  }

  function FindHandle(ms: seq<Module>, h: Handle): (i: nat)
    ensures i <= |ms|
    ensures i < |ms| ==> ms[i].handle == h
    ensures forall k :: 0 <= k < i ==> ms[k].handle != h
  {
    if ms == [] || ms[0].handle == h then 0 else 1 + FindHandle(ms[1..], h)
  }

  function Names(ms: seq<Module>): set<string> {
    set i | 0 <= i < |ms| :: ms[i].name
  }

  function AddDep(ms: seq<Module>, h: Handle, dep: Handle): seq<Module> {
    var i := FindHandle(ms, h);
    if i < |ms| then ms[i := ms[i].(deps := ms[i].deps + [dep])] else ms
  }

  function AddUse(ms: seq<Module>, i: nat, n: int): seq<Module>
    requires i < |ms|
  {
    ms[i := ms[i].(useCount := ms[i].useCount + n)]
  }

  lemma NamesKept(ms: seq<Module>, i: nat, m: Module)
    requires i < |ms| && m.name == ms[i].name
    ensures Names(ms[i := m]) == Names(ms)
  {
    assert forall k :: 0 <= k < |ms| ==> ms[i := m][k].name == ms[k].name;
    forall n | n in Names(ms) ensures n in Names(ms[i := m]) {
      var k :| 0 <= k < |ms| && ms[k].name == n;
      assert ms[i := m][k].name == n;
    }
  }

  // ---------------------------------------------------------------- loading

  /** Names of files not yet loaded; each dependent load takes one away. */
  function Missing(files: Files, s: State): set<string> {
    files.Keys - Names(s.loaded)
  }

  /** initialize_loaded_module, allocation, and the push on the dependency stack. */
  function Begin(s: State, name: string): State {
    var h := s.nextHandle;
    s.(loaded := s.loaded + [Module(h, name, 1, [])], nextHandle := h + 1,
       stack := s.stack + [h], log := s.log + [Allocated(h)])
  }

  /** What the relocation loop does to the modules on the stack, top first. */
  function RelocateAll(stack: seq<Handle>): seq<Event> {
    if stack == [] then []
    else [Relocated(stack[|stack| - 1]), Initialized(stack[|stack| - 1])] + RelocateAll(stack[..|stack| - 1])
  }

  /** relocate_dependency_graph_modules: nothing unless h is at the bottom of the stack. */
  function Finish(s: State, h: Handle): State {
    if s.stack != [] && s.stack[0] != h then s
    else s.(stack := [], log := s.log + RelocateAll(s.stack))
  }

  /** A needed module that is loaded already: bump its count and record the dependency. */
  function Reuse(s: State, h: Handle, i: nat): State
    requires i < |s.loaded|
  {
    s.(loaded := AddDep(AddUse(s.loaded, i, 1), h, s.loaded[i].handle))
  }

  /** The end of a nested load of `dep`, and the record of it on h's list. */
  function Adopt(s: State, h: Handle, dep: Handle): State {
    var s' := Finish(s, dep);
    s'.(loaded := AddDep(s'.loaded, h, dep))
  }

  /** dload_and_allocate_dependencies for module h, with the calls back into DLOAD_load. */
  function LoadNeeded(files: Files, s: State, h: Handle, needed: seq<string>): (r: State)
    requires Closed(files) && forall i :: 0 <= i < |needed| ==> needed[i] in files
    ensures Names(s.loaded) <= Names(r.loaded)
    decreases |Missing(files, s)|, |needed|
  {
    if needed == [] then s
    else
      var i := FindName(s.loaded, needed[0]);
      if i < |s.loaded| then
        ReuseNames(s, i, h);
        LoadNeeded(files, Reuse(s, h, i), h, needed[1..])
      else
        BeginMisses(files, s, needed[0]);
        var s1 := LoadNeeded(files, Begin(s, needed[0]), s.nextHandle, files[needed[0]]);
        AdoptNames(s1, h, s.nextHandle);
        MissingShrinks(files, s, Adopt(s1, h, s.nextHandle));
        LoadNeeded(files, Adopt(s1, h, s.nextHandle), h, needed[1..])
  }

  lemma AddDepOnlyNames(ms: seq<Module>, h: Handle, dep: Handle)
    ensures Names(AddDep(ms, h, dep)) == Names(ms)
  {
    var i := FindHandle(ms, h);
    if i < |ms| {
      NamesKept(ms, i, ms[i].(deps := ms[i].deps + [dep]));
    }
  }

  lemma ReuseNames(s: State, i: nat, h: Handle)
    requires i < |s.loaded|
    ensures Names(Reuse(s, h, i).loaded) == Names(s.loaded)
  {
    NamesKept(s.loaded, i, s.loaded[i].(useCount := s.loaded[i].useCount + 1));
    AddDepOnlyNames(AddUse(s.loaded, i, 1), h, s.loaded[i].handle);
  }

  lemma AdoptNames(s: State, h: Handle, dep: Handle)
    ensures Names(Adopt(s, h, dep).loaded) == Names(s.loaded)
  {
    AddDepOnlyNames(s.loaded, h, dep);
  }

  lemma BeginMisses(files: Files, s: State, name: string)
    requires name in files && FindName(s.loaded, name) == |s.loaded|
    ensures |Missing(files, Begin(s, name))| < |Missing(files, s)|
    ensures Names(s.loaded) <= Names(Begin(s, name).loaded)
  {
    var s' := Begin(s, name);
    assert s'.loaded[|s.loaded|].name == name;
    forall n | n in Names(s.loaded) ensures n in Names(s'.loaded) {
      var k :| 0 <= k < |s.loaded| && s.loaded[k].name == n;
      assert s'.loaded[k].name == n;
    }
    assert name in Missing(files, s) && name !in Missing(files, s');
    assert Missing(files, s') <= Missing(files, s) - {name};
    Smaller(Missing(files, s'), Missing(files, s) - {name});
  }

  lemma Smaller<T>(a: set<T>, b: set<T>)
    requires a <= b
    ensures |a| <= |b|
  {
    if a != {} {
      var x :| x in a;
      Smaller(a - {x}, b - {x});
    }
  }

  lemma MissingShrinks(files: Files, s: State, s': State)
    requires Names(s.loaded) <= Names(s'.loaded)
    ensures |Missing(files, s')| <= |Missing(files, s)|
  {
    Smaller(Missing(files, s'), Missing(files, s));
  }

  /** The state after a needed file has been loaded by a nested DLOAD_load and recorded. */
  function Nested(files: Files, s: State, h: Handle, name: string): State
    requires Closed(files) && name in files
  {
    Adopt(LoadNeeded(files, Begin(s, name), s.nextHandle, files[name]), h, s.nextHandle)
  }

  lemma NestedShrinks(files: Files, s: State, h: Handle, name: string)
    requires Closed(files) && name in files && FindName(s.loaded, name) == |s.loaded|
    ensures |Missing(files, Begin(s, name))| < |Missing(files, s)|
    ensures |Missing(files, Nested(files, s, h, name))| <= |Missing(files, s)|
  {
    BeginMisses(files, s, name);
    var s1 := LoadNeeded(files, Begin(s, name), s.nextHandle, files[name]);
    AdoptNames(s1, h, s.nextHandle);
    MissingShrinks(files, s, Adopt(s1, h, s.nextHandle));
  }

  /** The treatment of one DT_NEEDED entry. */
  function Need(files: Files, s: State, h: Handle, name: string): State
    requires Closed(files) && name in files
  {
    var i := FindName(s.loaded, name);
    if i < |s.loaded| then Reuse(s, h, i) else Nested(files, s, h, name)
  }

  lemma NeedShrinks(files: Files, s: State, h: Handle, name: string)
    requires Closed(files) && name in files
    ensures |Missing(files, Need(files, s, h, name))| <= |Missing(files, s)|
  {
    var i := FindName(s.loaded, name);
    if i < |s.loaded| {
      ReuseNames(s, i, h);
    } else {
      NestedShrinks(files, s, h, name);
    }
  }

  /** How LoadNeeded goes on after its first name. */
  lemma LoadNeededStep(files: Files, s: State, h: Handle, needed: seq<string>)
    requires Closed(files) && forall i :: 0 <= i < |needed| ==> needed[i] in files
    requires needed != []
    ensures LoadNeeded(files, s, h, needed) == LoadNeeded(files, Need(files, s, h, needed[0]), h, needed[1..])
  {
  }

  /** DLOAD_load, as the client and the loader itself call it. */
  function Load(files: Files, s: State, name: string): State
    requires Closed(files) && name in files
  {
    Finish(LoadNeeded(files, Begin(s, name), s.nextHandle, files[name]), s.nextHandle)
  }

  // ---------------------------------------------------------------- unloading

  function Uses(): Module -> nat {
    (m: Module) => if m.useCount > 0 then m.useCount else 0
  }

  function Total(ms: seq<Module>): nat {
    Sum(ms, Uses())
  }

  function RemoveHandle(ms: seq<Module>, h: Handle): seq<Module> {
    var i := FindHandle(ms, h);
    if i < |ms| then ms[..i] + ms[i + 1..] else ms
  }

  lemma RemoveTotal(ms: seq<Module>, h: Handle)
    ensures Total(RemoveHandle(ms, h)) <= Total(ms)
  {
    var i := FindHandle(ms, h);
    if i < |ms| {
      SumSplit(ms, i, Uses());
    }
  }

  lemma UseTotal(ms: seq<Module>, i: nat)
    requires i < |ms|
    ensures Total(AddUse(ms, i, -1)) <= Total(ms)
    ensures ms[i].useCount == 1 ==> Total(AddUse(ms, i, -1)) < Total(ms)
  {
    SumUpdate(ms, i, ms[i].(useCount := ms[i].useCount - 1), Uses());
  }

  /** DLOAD_unload.  A module whose last use goes away unloads its dependents, then itself. */
  function Unload(s: State, h: Handle): (r: State)
    ensures Total(r.loaded) <= Total(s.loaded)
    decreases Total(s.loaded), 1, 0
  {
    var i := FindHandle(s.loaded, h);
    if i == |s.loaded| then s
    else
      UseTotal(s.loaded, i);
      var s1 := s.(loaded := AddUse(s.loaded, i, -1));
      if s1.loaded[i].useCount != 0 then s1
      else
        var s2 := UnloadAll(s1.(log := s1.log + [Terminated(h)]), s.loaded[i].deps);
        RemoveTotal(s2.loaded, h);
        s2.(loaded := RemoveHandle(s2.loaded, h), log := s2.log + [Freed(h)])
  }

  function UnloadAll(s: State, deps: seq<Handle>): (r: State)
    ensures Total(r.loaded) <= Total(s.loaded)
    decreases Total(s.loaded), 2, |deps|
  {
    if deps == [] then s else UnloadAll(Unload(s, deps[0]), deps[1..])
  }

  // ---------------------------------------------------------------- runs

  datatype Action = ClientLoad(name: string) | ClientUnload(h: Handle)

  ghost predicate Enabled(files: Files, s: State, a: Action) {
    Closed(files) &&
    match a
    case ClientLoad(name) => name in files
    case ClientUnload(h) => s.clients[h] > 0
  }

  ghost function Apply(files: Files, s: State, a: Action): State
    requires Enabled(files, s, a)
  {
    match a
    case ClientLoad(name) =>
      var r := Load(files, s, name);
      r.(clients := r.clients + multiset{s.nextHandle})
    case ClientUnload(h) => Unload(s.(clients := s.clients - multiset{h}), h)
  }

  ghost predicate Run(files: Files, s: State, acts: seq<Action>, s': State)
    decreases |acts|
  {
    if acts == [] then s == s'
    else Enabled(files, s, acts[0]) && Run(files, Apply(files, s, acts[0]), acts[1..], s')
  }
}
