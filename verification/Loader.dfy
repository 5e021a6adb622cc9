/**
  The loader object of src/utils/elfload/dload.c.  Its methods change the list of loaded modules,
  the dependency stack and the log in place, and are proved equal to the functions of Loading.
 */
module Loader {
  import opened Loading

  lemma NeededFrom(files: Files, s: State, h: Handle, needed: seq<string>, k: nat)
    requires Closed(files) && forall i :: 0 <= i < |needed| ==> needed[i] in files
    requires k < |needed|
    ensures LoadNeeded(files, s, h, needed[k..]) == LoadNeeded(files, Loading.Need(files, s, h, needed[k]), h, needed[k + 1..])
    ensures |Missing(files, Loading.Need(files, s, h, needed[k]))| <= |Missing(files, s)|
  {
    LoadNeededStep(files, s, h, needed[k..]);
    NeedShrinks(files, s, h, needed[k]);
    assert needed[k..][1..] == needed[k + 1..];
  }

  lemma UnloadAllStep(s: State, deps: seq<Handle>, k: nat)
    requires k < |deps|
    ensures UnloadAll(s, deps[k..]) == UnloadAll(Unload(s, deps[k]), deps[k + 1..])
  {
    assert deps[k..][1..] == deps[k + 1..];
  }

  class Loader {
    var loaded: seq<Module>
    var nextHandle: Handle
    var stack: seq<Handle>
    ghost var clients: multiset<Handle>
    var log: seq<Event>

    ghost function View(): State
      reads this
    {
      State(loaded, nextHandle, stack, clients, log)
    }

    /** DLOAD_create */
    constructor ()
      ensures View() == INIT
    {
      loaded, nextHandle, stack, clients, log := [], 1, [], multiset{}, [];
    }

    method LocateName(name: string) returns (i: nat)
      ensures i == FindName(loaded, name)
    {
      i := 0;
      while i < |loaded| && loaded[i].name != name
        invariant i <= |loaded|
        invariant forall k :: 0 <= k < i ==> loaded[k].name != name
      {
        i := i + 1;
      }
    }

    method LocateHandle(h: Handle) returns (i: nat)
      ensures i == FindHandle(loaded, h)
    {
      i := 0;
      while i < |loaded| && loaded[i].handle != h
        invariant i <= |loaded|
        invariant forall k :: 0 <= k < i ==> loaded[k].handle != h
      {
        i := i + 1;
      }
    }

    /** AL_append on the dependency list of module h. */
    method Record(h: Handle, dep: Handle)
      modifies this`loaded
      ensures loaded == AddDep(old(loaded), h, dep)
    {
      var i := LocateHandle(h);
      if i < |loaded| {
        loaded := loaded[i := loaded[i].(deps := loaded[i].deps + [dep])];
      }
    }

    /** DLOAD_load: returns the new module's handle. */
    method Load(files: Files, name: string) returns (h: Handle)
      requires Closed(files) && name in files
      modifies this
      ensures View() == Loading.Load(files, old(View()), name) && h == old(nextHandle)
      decreases |Missing(files, Begin(View(), name))|, 2
    {
      h := Initialize(name);
      LoadDependencies(files, h, files[name]);
      RelocateGraph(h);
    }

    /** The new module: its handle, its place on the list and on the stack, its memory. */
    method Initialize(name: string) returns (h: Handle)
      modifies this
      ensures View() == Begin(old(View()), name) && h == old(nextHandle)
    {
      h := nextHandle;
      nextHandle := nextHandle + 1;
      loaded := loaded + [Module(h, name, 1, [])];
      log := log + [Allocated(h)];
      stack := stack + [h];
    }

    /** One DT_NEEDED entry: bump a loaded module, or have the client load the file. */
    method Need(files: Files, h: Handle, name: string)
      requires Closed(files) && name in files
      modifies this
      ensures View() == Loading.Need(files, old(View()), h, name)
      decreases |Missing(files, View())|, 0
    {
      var i := LocateName(name);
      if i < |loaded| {
        loaded := loaded[i := loaded[i].(useCount := loaded[i].useCount + 1)];
        Record(h, loaded[i].handle);
      } else {
        BeginMisses(files, View(), name);
        var dep := Load(files, name);
        Record(h, dep);
      }
    }

    /** dload_and_allocate_dependencies */
    method LoadDependencies(files: Files, h: Handle, needed: seq<string>)
      requires Closed(files) && forall i :: 0 <= i < |needed| ==> needed[i] in files
      modifies this
      ensures View() == LoadNeeded(files, old(View()), h, needed)
      decreases |Missing(files, View())|, 1
    {
      var k := 0;
      assert needed[0..] == needed;
      while k < |needed|
        invariant k <= |needed|
        invariant LoadNeeded(files, View(), h, needed[k..]) == LoadNeeded(files, old(View()), h, needed)
        invariant |Missing(files, View())| <= |Missing(files, old(View()))|
      {
        NeededFrom(files, View(), h, needed, k);
        Need(files, h, needed[k]);
        k := k + 1;
      }
    }

    /** relocate_dependency_graph_modules */
    method RelocateGraph(h: Handle)
      modifies this`stack, this`log
      ensures View() == Finish(old(View()), h)
    {
      if stack != [] && stack[0] != h {
        return;
      }
      assert log + RelocateAll([]) == log;
      while stack != []
        invariant log + RelocateAll(stack) == old(log) + RelocateAll(old(stack))
        decreases |stack|
      {
        var top := stack[|stack| - 1];
        stack := stack[..|stack| - 1];
        log := log + [Relocated(top)];
        log := log + [Initialized(top)];
      }
    }

    /** DLOAD_unload: true if the module itself went away. */
    method Unload(h: Handle) returns (gone: bool)
      modifies this
      ensures View() == Loading.Unload(old(View()), h)
      ensures gone == (var i := FindHandle(old(loaded), h); i < |old(loaded)| && old(loaded)[i].useCount == 1)
      decreases Total(loaded), 1
    {
      var i := LocateHandle(h);
      if i == |loaded| {
        return false;
      }
      var deps := loaded[i].deps;
      UseTotal(loaded, i);
      loaded := loaded[i := loaded[i].(useCount := loaded[i].useCount - 1)];
      if loaded[i].useCount != 0 {
        return false;
      }
      log := log + [Terminated(h)];
      UnloadDependencies(deps);
      Remove(h);
      log := log + [Freed(h)];
      gone := true;
    }

    /** The loop over a dying module's dependencies. */
    method UnloadDependencies(deps: seq<Handle>)
      modifies this
      ensures View() == UnloadAll(old(View()), deps)
      decreases Total(loaded), 2
    {
      var j := 0;
      assert deps[0..] == deps;
      while j < |deps|
        invariant j <= |deps| && Total(loaded) <= Total(old(loaded))
        invariant UnloadAll(View(), deps[j..]) == UnloadAll(old(View()), deps)
      {
        UnloadAllStep(View(), deps, j);
        var _ := Unload(deps[j]);
        j := j + 1;
      }
    }

    method Remove(h: Handle)
      modifies this`loaded
      ensures loaded == RemoveHandle(old(loaded), h)
    {
      var i := LocateHandle(h);
      if i < |loaded| {
        loaded := loaded[..i] + loaded[i + 1..];
      }
    }

    /** A reference that the client itself takes and gives back. */
    method ClientLoad(files: Files, name: string) returns (h: Handle)
      requires Enabled(files, View(), Action.ClientLoad(name))
      modifies this
      ensures View() == Apply(files, old(View()), Action.ClientLoad(name)) && h == old(nextHandle)
    {
      h := Load(files, name);
      clients := clients + multiset{h};
    }

    method ClientUnload(h: Handle, ghost files: Files) returns (gone: bool)
      requires Enabled(files, View(), Action.ClientUnload(h))
      modifies this
      ensures View() == Apply(files, old(View()), Action.ClientUnload(h))
    {
      clients := clients - multiset{h};
      gone := Unload(h);
    }
  }
}
