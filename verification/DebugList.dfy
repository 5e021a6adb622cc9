/**
  The debug list in place: host records that are linked and relinked by their fields, and the
  records in target memory (src/utils/elfload/dlw_debug.c).
 */
module DebugList {
  import opened DebugChain

  class HostRecord {
    var handle: int
    var name: string
    var segments: seq<nat>
    var addr: nat
    var nextPtr: nat
    var nextSize: nat

    constructor (name: string)
      ensures View() == Host(0, name, [], 0, 0, 0)
    {
      this.name := name;
      handle, segments, addr, nextPtr, nextSize := 0, [], 0, 0, 0;
    }

    function View(): Host
      reads this
    {
      Host(handle, name, segments, addr, nextPtr, nextSize)
    }
  }

  function Views(rs: seq<HostRecord>): (r: seq<Host>)
    reads rs
    ensures |r| == |rs| && forall i :: 0 <= i < |r| ==> r[i] == rs[i].View()
  {
    seq(|rs|, i requires 0 <= i < |rs| reads rs => rs[i].View())
  }

  lemma ViewsAppend(rs: seq<HostRecord>, h: HostRecord)
    ensures Views(rs + [h]) == Views(rs) + [h.View()]
  {
  }

  lemma ViewsWithout(rs: seq<HostRecord>, i: nat)
    requires i < |rs|
    ensures Views(rs[..i] + rs[i + 1..]) == Without(Views(rs), i)
  {
    var w := rs[..i] + rs[i + 1..];
    assert forall k :: 0 <= k < |w| ==> w[k] == if k < i then rs[k] else rs[k + 1];
  }

  class List {
    var stack: seq<HostRecord>
    var mirror: seq<HostRecord>
    var memory: map<nat, Target>
    var first: nat
    var firstSize: nat

    /** No record is on both lists or twice on one. */
    ghost predicate Separate()
      reads this
    {
      (forall i, k :: 0 <= i < k < |stack| ==> stack[i] != stack[k]) &&
      (forall i, k :: 0 <= i < k < |mirror| ==> mirror[i] != mirror[k]) &&
      forall i, k :: 0 <= i < |stack| && 0 <= k < |mirror| ==> stack[i] != mirror[k]
    }

    function View(): State
      reads this, stack, mirror
    {
      State(Views(stack), Views(mirror), memory, first, firstSize)
    }

    constructor ()
      ensures Separate() && View() == Empty()
    {
      stack, mirror, memory, first, firstSize := [], [], map[], 0, 0;
    }

    method AddHostRecord(name: string)
      requires Separate()
      modifies this`stack
      ensures Separate() && View() == AfterAddHost(old(View()), name)
    {
      var h := new HostRecord(name);
      stack := stack + [h];
    }

    method AddSegmentRecord(load: nat)
      requires Separate() && stack != []
      modifies stack
      ensures Separate() && View() == AfterAddSegment(old(View()), load)
    {
      var h := stack[|stack| - 1];
      h.segments := h.segments + [load];
    }

    /** The tail record and its target copy get a new link. */
    method Link(h: HostRecord, ghost i: nat, ptr: nat, size: nat)
      requires Separate() && i < |mirror| && h == mirror[i] && h.addr in memory
      modifies this`memory, h`nextPtr, h`nextSize
      ensures Separate() && View() == Linked(old(View()), i, ptr, size)
    {
      h.nextPtr, h.nextSize := ptr, size;
      memory := memory[h.addr := memory[h.addr].(nextPtr := ptr, nextSize := size)];
    }

    /** The module that has been loaded leaves the stack and gets its handle and address. */
    method Complete(handle: int, addr: nat) returns (h: HostRecord)
      requires Separate() && stack != []
      modifies this`stack, stack
      ensures Separate() && h !in stack && h !in mirror
      ensures h.View() == Completed(old(View()), handle, addr)
      ensures View() == old(View()).(stack := old(View()).stack[..|old(stack)| - 1])
      ensures mirror == old(mirror)
    {
      h := stack[|stack| - 1];
      stack := stack[..|stack| - 1];
      h.handle := handle;
      h.addr, h.nextPtr, h.nextSize := addr, 0, 0;
    }

    method Write(handle: int, addr: nat, oldPtr: nat, oldSize: nat) returns (h: HostRecord)
      requires Separate() && stack != []
      modifies this`stack, this`memory, stack
      ensures Separate() && h !in stack && h !in mirror && mirror == old(mirror)
      ensures h.View() == Completed(old(View()), handle, addr)
      ensures View() == Written(old(View()), handle, addr, oldPtr, oldSize)
    {
      h := Complete(handle, addr);
      memory := memory[addr := Image(h.View(), oldPtr, oldSize)];
    }

    method Enqueue(h: HostRecord)
      requires Separate() && h !in stack && h !in mirror
      modifies this`mirror
      ensures Separate() && View() == old(View()).(mirror := old(View()).mirror + [old(h.View())])
    {
      ViewsAppend(mirror, h);
      mirror := mirror + [h];
    }

    /** The header or the last record is made to lead to the new one. */
    method Attach(ghost h: HostRecord, addr: nat, size: nat)
      requires Separate() && Backed(View()) && h !in mirror
      modifies this`first, this`firstSize, this`memory, mirror
      ensures Separate() && View() == Attached(old(View()), addr, size) && h.View() == old(h.View())
    {
      ghost var s := View();
      if mirror == [] {
        first, firstSize := addr, size;
      } else {
        assert mirror[|mirror| - 1].addr == s.mirror[|mirror| - 1].addr;
        Link(mirror[|mirror| - 1], |mirror| - 1, addr, size);
      }
    }

    /** DLDBG_add_target_record; the allocated memory holds an old link. */
    method AddTargetRecord(handle: int, addr: nat, oldPtr: nat, oldSize: nat)
      requires Separate() && stack != [] && Backed(View())
      modifies this, stack, mirror
      ensures Separate() && View() == AfterAddTarget(old(View()), handle, addr, oldPtr, oldSize)
    {
      var h := Write(handle, addr, oldPtr, oldSize);
      Attach(h, addr, LinkSize(h.View()));
      Enqueue(h);
    }

    method Locate(handle: int) returns (i: nat)
      ensures i == Find(Views(mirror), handle)
    {
      i := 0;
      while i < |mirror| && mirror[i].handle != handle
        invariant i <= Find(Views(mirror), handle)
      {
        i := i + 1;
      }
    }

    /** Record i is bypassed. */
    method Detach(i: nat)
      requires Separate() && i < |mirror| && Backed(View())
      modifies this`first, this`firstSize, this`memory, mirror
      ensures Separate() && View() == Detached(old(View()), i) && mirror[i].addr == old(mirror[i].addr)
    {
      ghost var s := View();
      var h := mirror[i];
      assert h.View() == s.mirror[i];
      if i > 0 {
        assert mirror[i - 1].addr == s.mirror[i - 1].addr;
        Link(mirror[i - 1], i - 1, h.nextPtr, h.nextSize);
      } else {
        first, firstSize := h.nextPtr, h.nextSize;
      }
    }

    method Dequeue(i: nat)
      requires Separate() && i < |mirror|
      modifies this`mirror
      ensures Separate() && View() == old(View()).(mirror := Without(old(View()).mirror, i))
    {
      ViewsWithout(mirror, i);
      mirror := mirror[..i] + mirror[i + 1..];
    }

    method Remove(i: nat)
      requires Separate() && i < |mirror| && Backed(View())
      modifies this, mirror
      ensures Separate() && View() == Removed(old(View()), i)
    {
      Detach(i);
      memory := memory - {mirror[i].addr};
      Dequeue(i);
    }

    /** DLDBG_rm_target_record */
    method RemoveTargetRecord(handle: int)
      requires Separate() && mirror != [] && Backed(View())
      modifies this, mirror
      ensures Separate() && View() == AfterRemove(old(View()), handle)
    {
      if handle <= 1 {
        return;
      }
      var i := Locate(handle);
      if i < |mirror| {
        Remove(i);
      }
    }
  }
}
