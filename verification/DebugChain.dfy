/**
  The list of debug records that the loader keeps twice, as links in target memory and as a mirror
  on the host (src/utils/elfload/dlw_debug.c), as a state machine over its four operations.
 */
module DebugChain {

  const HALF: nat := 0x1_0000     // sizes are uint16_t in every link

  /** The host's record; `addr` and the links are meaningful once it is on the mirror list. */
  datatype Host = Host(handle: int, name: string, segments: seq<nat>, addr: nat, nextPtr: nat, nextSize: nat)

  /** The record in target memory: the link, the segment count, load and run addresses, the name. */
  datatype Target = Target(nextPtr: nat, nextSize: nat, count: nat, segments: seq<(nat, nat)>, name: string)

  /** `stack` holds the modules that are being loaded, the innermost last. */
  datatype State = State(stack: seq<Host>, mirror: seq<Host>, memory: map<nat, Target>, first: nat, firstSize: nat)

  /** A host record's size in target memory: a 24-byte structure with room for one segment. */
  function Size(h: Host): nat {
    24 + 8 * |h.segments| - 8 + |h.name| + 1
  }

  function LinkSize(h: Host): nat {
    Size(h) % HALF
  }

  function Doubled(segments: seq<nat>): (r: seq<(nat, nat)>)
    ensures |r| == |segments| && forall i :: 0 <= i < |r| ==> r[i] == (segments[i], segments[i])
  {
    seq(|segments|, i requires 0 <= i < |segments| => (segments[i], segments[i]))
  }

  /** What is written for a record; the link is whatever the memory held before. */
  function Image(h: Host, oldPtr: nat, oldSize: nat): Target {
    Target(oldPtr, oldSize, |h.segments| % HALF, Doubled(h.segments), h.name)
  }

  function Empty(): State {
    State([], [], map[], 0, 0)
  }

  // ---------------------------------------------------------------- the operations

  datatype Op =
    | AddHost(name: string)
    | AddSegment(load: nat)
    | AddTarget(handle: int, addr: nat, oldPtr: nat, oldSize: nat)
    | RemoveTarget(handle: int)

  /** DLDBG_add_host_record */
  function AfterAddHost(s: State, name: string): State {
    s.(stack := s.stack + [Host(0, name, [], 0, 0, 0)])
  }

  /** DLDBG_add_segment_record */
  function AfterAddSegment(s: State, load: nat): State
    requires s.stack != []
  {
    var n := |s.stack| - 1;
    s.(stack := s.stack[n := s.stack[n].(segments := s.stack[n].segments + [load])])
  }

  function Linked(s: State, i: nat, ptr: nat, size: nat): State
    requires i < |s.mirror| && s.mirror[i].addr in s.memory
  {
    var h := s.mirror[i];
    s.(mirror := s.mirror[i := h.(nextPtr := ptr, nextSize := size)],
       memory := s.memory[h.addr := s.memory[h.addr].(nextPtr := ptr, nextSize := size)])
  }

  predicate Backed(s: State) {
    forall i :: 0 <= i < |s.mirror| ==> s.mirror[i].addr in s.memory
  }

  /** The innermost load is complete: its record, and the state with its target copy written. */
  function Completed(s: State, handle: int, addr: nat): Host
    requires s.stack != []
  {
    s.stack[|s.stack| - 1].(handle := handle, addr := addr, nextPtr := 0, nextSize := 0)
  }

  function Written(s: State, handle: int, addr: nat, oldPtr: nat, oldSize: nat): State
    requires s.stack != []
  {
    s.(stack := s.stack[..|s.stack| - 1],
       memory := s.memory[addr := Image(Completed(s, handle, addr), oldPtr, oldSize)])
  }

  /** A new record at the end of the list: the header or the last record now leads to it. */
  function Attached(s: State, addr: nat, size: nat): State
    requires Backed(s)
  {
    if s.mirror == [] then s.(first := addr, firstSize := size)
    else Linked(s, |s.mirror| - 1, addr, size)
  }

  /** DLDBG_add_target_record, with the address that the client allocates. */
  function AfterAddTarget(s: State, handle: int, addr: nat, oldPtr: nat, oldSize: nat): State
    requires s.stack != [] && Backed(s)
  {
    var h := Completed(s, handle, addr);
    var u := Attached(Written(s, handle, addr, oldPtr, oldSize), addr, LinkSize(h));
    u.(mirror := u.mirror + [h])
  }

  /** The first record with the handle; |m| if there is none. */
  function Find(m: seq<Host>, handle: int): (i: nat)
    ensures i <= |m| && (i < |m| ==> m[i].handle == handle)
    ensures forall k :: 0 <= k < i ==> m[k].handle != handle
  {
    if m == [] || m[0].handle == handle then 0 else 1 + Find(m[1..], handle)
  }

  function Without(m: seq<Host>, i: nat): (r: seq<Host>)
    requires i < |m|
    ensures |r| == |m| - 1
    ensures forall k :: 0 <= k < |r| ==> r[k] == if k < i then m[k] else m[k + 1]
  {
    m[..i] + m[i + 1..]
  }

  /** Record i leaves the list: what led to it leads to its successor. */
  function Detached(s: State, i: nat): State
    requires i < |s.mirror| && Backed(s)
  {
    if i > 0 then Linked(s, i - 1, s.mirror[i].nextPtr, s.mirror[i].nextSize)
    else s.(first := s.mirror[i].nextPtr, firstSize := s.mirror[i].nextSize)
  }

  /** Record i is unlinked and freed. */
  function Removed(s: State, i: nat): State
    requires i < |s.mirror| && Backed(s)
  {
    var t := Detached(s, i);
    t.(mirror := Without(t.mirror, i), memory := t.memory - {s.mirror[i].addr})
  }

  /** DLDBG_rm_target_record */
  function AfterRemove(s: State, handle: int): State
    requires Backed(s)
  {
    var i := Find(s.mirror, handle);
    if handle <= 1 || i == |s.mirror| then s else Removed(s, i)
  }

  // ---------------------------------------------------------------- the invariant

  predicate DistinctAddresses(m: seq<Host>) {
    forall i, k :: 0 <= i < k < |m| ==> m[i].addr != m[k].addr
  }

  predicate DistinctHandles(m: seq<Host>) {
    forall i, k :: 0 <= i < k < |m| ==> m[i].handle != m[k].handle
  }

  /** The target's copy has the host's segments and name. */
  predicate SameContent(h: Host, t: Target) {
    t.count == |h.segments| % HALF && t.segments == Doubled(h.segments) && t.name == h.name
  }

  predicate LinksTo(h: Host, next: Host) {
    h.nextPtr == next.addr && h.nextSize == LinkSize(next)
  }

  predicate SameLink(h: Host, t: Target) {
    t.nextPtr == h.nextPtr && t.nextSize == h.nextSize
  }

  /** Host links: each record to its successor, the last one to nothing. */
  predicate HostLinks(m: seq<Host>) {
    (forall i :: 0 <= i < |m| - 1 ==> LinksTo(m[i], m[i + 1])) &&
    (m != [] ==> m[|m| - 1].nextPtr == 0 && m[|m| - 1].nextSize == 0)
  }

  /** Target links agree with the host's, except the last, which is never initialised. */
  predicate TargetLinks(s: State) {
    Backed(s) &&
    (forall i :: 0 <= i < |s.mirror| ==> SameContent(s.mirror[i], s.memory[s.mirror[i].addr])) &&
    forall i :: 0 <= i < |s.mirror| - 1 ==> SameLink(s.mirror[i], s.memory[s.mirror[i].addr])
  }

  predicate Header(s: State) {
    s.mirror != [] ==> s.first == s.mirror[0].addr && s.firstSize == LinkSize(s.mirror[0])
  }

  predicate Inv(s: State) {
    DistinctAddresses(s.mirror) && DistinctHandles(s.mirror) && HostLinks(s.mirror) && TargetLinks(s) && Header(s)
  }

  predicate Listed(m: seq<Host>, a: nat) {
    exists k :: 0 <= k < |m| && m[k].addr == a
  }

  /** Only records that the mirror lists are held in target memory. */
  predicate NothingElse(s: State) {
    forall a :: a in s.memory ==> Listed(s.mirror, a)
  }

  // ---------------------------------------------------------------- runs

  /** Loads nest properly, fresh addresses, handles not in use; removal looks at a list with records. */
  predicate Enabled(s: State, op: Op) {
    match op
    case AddHost(_) => true
    case AddSegment(_) => s.stack != []
    case AddTarget(handle, addr, _, _) =>
      s.stack != [] && Backed(s) && addr !in s.memory && forall i :: 0 <= i < |s.mirror| ==> s.mirror[i].handle != handle
    case RemoveTarget(_) => s.mirror != [] && Backed(s)
  }

  function After(s: State, op: Op): State
    requires Enabled(s, op)
  {
    match op
    case AddHost(name) => AfterAddHost(s, name)
    case AddSegment(load) => AfterAddSegment(s, load)
    case AddTarget(handle, addr, oldPtr, oldSize) => AfterAddTarget(s, handle, addr, oldPtr, oldSize)
    case RemoveTarget(handle) => AfterRemove(s, handle)
  }

  predicate IsRun(run: seq<State>, ops: seq<Op>) {
    |run| == |ops| + 1 && run[0] == Empty() &&
    forall i :: 0 <= i < |ops| ==> Enabled(run[i], ops[i]) && run[i + 1] == After(run[i], ops[i])
  }

  // ---------------------------------------------------------------- every operation keeps the invariant

  /** The list whose last record leads to h, and then h. */
  function Extended(m: seq<Host>, h: Host): (r: seq<Host>)
    ensures |r| == |m| + 1 && r[|m|] == h
    ensures forall i :: 0 <= i < |m| - 1 ==> r[i] == m[i]
    ensures m != [] ==> r[|m| - 1] == m[|m| - 1].(nextPtr := h.addr, nextSize := LinkSize(h))
  {
    (if m == [] then [] else m[|m| - 1 := m[|m| - 1].(nextPtr := h.addr, nextSize := LinkSize(h))]) + [h]
  }

  lemma AddLinks(m: seq<Host>, h: Host)
    requires HostLinks(m) && h.nextPtr == 0 && h.nextSize == 0
    ensures HostLinks(Extended(m, h))
  {
  }

  lemma AddDistinct(m: seq<Host>, h: Host)
    requires DistinctAddresses(m) && DistinctHandles(m)
    requires forall i :: 0 <= i < |m| ==> m[i].addr != h.addr && m[i].handle != h.handle
    ensures DistinctAddresses(Extended(m, h)) && DistinctHandles(Extended(m, h))
  {
  }

  lemma AddTargetLinks(s: State, handle: int, addr: nat, oldPtr: nat, oldSize: nat)
    requires Inv(s) && Enabled(s, AddTarget(handle, addr, oldPtr, oldSize))
    ensures AfterAddTarget(s, handle, addr, oldPtr, oldSize).mirror == Extended(s.mirror, Completed(s, handle, addr))
    ensures TargetLinks(AfterAddTarget(s, handle, addr, oldPtr, oldSize))
  {
  }

  lemma AddTargetKeeps(s: State, handle: int, addr: nat, oldPtr: nat, oldSize: nat)
    requires Inv(s) && Enabled(s, AddTarget(handle, addr, oldPtr, oldSize))
    ensures Inv(AfterAddTarget(s, handle, addr, oldPtr, oldSize))
  {
    AddTargetLinks(s, handle, addr, oldPtr, oldSize);
    AddLinks(s.mirror, Completed(s, handle, addr));
    AddDistinct(s.mirror, Completed(s, handle, addr));
  }

  /** The list after the record before i, if there is one, has taken over the link of record i. */
  function Bypassed(m: seq<Host>, i: nat): (r: seq<Host>)
    requires i < |m|
    ensures |r| == |m|
    ensures forall k :: 0 <= k < |m| && k + 1 != i ==> r[k] == m[k]
    ensures i > 0 ==> r[i - 1] == m[i - 1].(nextPtr := m[i].nextPtr, nextSize := m[i].nextSize)
  {
    if i > 0 then m[i - 1 := m[i - 1].(nextPtr := m[i].nextPtr, nextSize := m[i].nextSize)] else m
  }

  lemma RemoveHostLinks(m: seq<Host>, i: nat)
    requires HostLinks(m) && i < |m|
    ensures HostLinks(Without(Bypassed(m, i), i))
  {
    var b := Bypassed(m, i);
    var w := Without(b, i);
    forall k | 0 <= k < |w| - 1
      ensures LinksTo(w[k], w[k + 1])
    {
      if k + 1 < i {
        assert LinksTo(m[k], m[k + 1]);
      } else if k + 1 == i {
        assert LinksTo(m[i], m[i + 1]);
      } else {
        assert LinksTo(m[k + 1], m[k + 2]);
      }
    }
  }

  lemma RemoveDistinct(m: seq<Host>, i: nat)
    requires DistinctAddresses(m) && DistinctHandles(m) && i < |m|
    ensures DistinctAddresses(Without(Bypassed(m, i), i)) && DistinctHandles(Without(Bypassed(m, i), i))
  {
  }

  /** What a removal that finds its record at i does to the two lists. */
  lemma RemoveAt(s: State, handle: int, i: nat)
    requires Inv(s) && handle > 1 && i == Find(s.mirror, handle) && i < |s.mirror|
    ensures var t := AfterRemove(s, handle);
            var h := s.mirror[i];
            && t.mirror == Without(Bypassed(s.mirror, i), i) && t.stack == s.stack
            && t.memory == (if i > 0
                            then s.memory[s.mirror[i - 1].addr :=
                                   s.memory[s.mirror[i - 1].addr].(nextPtr := h.nextPtr, nextSize := h.nextSize)]
                            else s.memory) - {h.addr}
            && t.first == (if i > 0 then s.first else h.nextPtr)
            && t.firstSize == (if i > 0 then s.firstSize else h.nextSize)
  {
  }

  /** A record that stays keeps its content, and its link agrees with the host's if it did before. */
  lemma StaysLinked(s: State, t: State, i: nat, k: nat)
    requires Inv(s) && i < |s.mirror| && k < |s.mirror| && k != i
    requires t.memory == (if i > 0
                          then s.memory[s.mirror[i - 1].addr :=
                                 s.memory[s.mirror[i - 1].addr].(nextPtr := s.mirror[i].nextPtr, nextSize := s.mirror[i].nextSize)]
                          else s.memory) - {s.mirror[i].addr}
    ensures var h := Bypassed(s.mirror, i)[k];
            && h.addr in t.memory && SameContent(h, t.memory[h.addr])
            && (k < |s.mirror| - 1 ==> SameLink(h, t.memory[h.addr]))
  {
    assert s.mirror[k].addr != s.mirror[i].addr;
    assert i > 0 && k != i - 1 ==> s.mirror[k].addr != s.mirror[i - 1].addr;
  }

  lemma RemoveTargetLinks(s: State, handle: int, i: nat)
    requires Inv(s) && handle > 1 && i == Find(s.mirror, handle) && i < |s.mirror|
    ensures TargetLinks(AfterRemove(s, handle))
  {
    var t := AfterRemove(s, handle);
    RemoveAt(s, handle, i);
    forall k | 0 <= k < |t.mirror|
      ensures var h := t.mirror[k];
              && h.addr in t.memory && SameContent(h, t.memory[h.addr])
              && (k < |t.mirror| - 1 ==> SameLink(h, t.memory[h.addr]))
    {
      StaysLinked(s, t, i, if k < i then k else k + 1);
    }
  }

  lemma RemoveHeader(s: State, handle: int, i: nat)
    requires Inv(s) && handle > 1 && i == Find(s.mirror, handle) && i < |s.mirror|
    ensures Header(AfterRemove(s, handle))
  {
    RemoveAt(s, handle, i);
    if i == 0 && |s.mirror| > 1 {
      assert LinksTo(s.mirror[0], s.mirror[1]);
    }
  }

  lemma RemoveKeeps(s: State, handle: int)
    requires Inv(s)
    ensures Inv(AfterRemove(s, handle))
  {
    var i := Find(s.mirror, handle);
    if handle > 1 && i < |s.mirror| {
      RemoveAt(s, handle, i);
      RemoveHostLinks(s.mirror, i);
      RemoveDistinct(s.mirror, i);
      RemoveTargetLinks(s, handle, i);
      RemoveHeader(s, handle, i);
    }
  }

  lemma StepKeeps(s: State, op: Op)
    requires Inv(s) && Enabled(s, op)
    ensures Inv(After(s, op))
  {
    match op
    case AddHost(_) =>
    case AddSegment(_) =>
    case AddTarget(handle, addr, oldPtr, oldSize) => AddTargetKeeps(s, handle, addr, oldPtr, oldSize);
    case RemoveTarget(handle) => RemoveKeeps(s, handle);
  }

  lemma {:induction false} RunKeeps(run: seq<State>, ops: seq<Op>, k: nat)
    requires IsRun(run, ops) && k < |run|
    ensures Inv(run[k])
  {
    if k > 0 {
      RunKeeps(run, ops, k - 1);
      StepKeeps(run[k - 1], ops[k - 1]);
    }
  }

  // ---------------------------------------------------------------- following the links

  /** The addresses and announced sizes met by following `n` links from a link in the list. */
  function Follow(memory: map<nat, Target>, ptr: nat, size: nat, n: nat): seq<(nat, nat)>
    decreases n
  {
    if n == 0 then []
    else if ptr !in memory then [(ptr, size)]
    else [(ptr, size)] + Follow(memory, memory[ptr].nextPtr, memory[ptr].nextSize, n - 1)
  }

  function Records(m: seq<Host>): (r: seq<(nat, nat)>)
    ensures |r| == |m| && forall i :: 0 <= i < |m| ==> r[i] == (m[i].addr, LinkSize(m[i]))
  {
    seq(|m|, i requires 0 <= i < |m| => (m[i].addr, LinkSize(m[i])))
  }

  lemma {:induction false} FollowFrom(s: State, k: nat)
    requires TargetLinks(s) && HostLinks(s.mirror) && k < |s.mirror|
    ensures Follow(s.memory, s.mirror[k].addr, LinkSize(s.mirror[k]), |s.mirror| - k) == Records(s.mirror)[k..]
    decreases |s.mirror| - k
  {
    var h := s.mirror[k];
    if k < |s.mirror| - 1 {
      FollowFrom(s, k + 1);
      assert SameLink(h, s.memory[h.addr]) && LinksTo(h, s.mirror[k + 1]);
    }
    assert Records(s.mirror)[k..] == [(h.addr, LinkSize(h))] + Records(s.mirror)[k + 1..];
  }

  /**
    Following the links in target memory from the header, for as many records as the mirror lists,
    visits the mirror's records in the mirror's order, and each link announces the size of the
    record it leads to.
   */
  lemma ChainIsMirror(s: State)
    requires Inv(s)
    ensures Follow(s.memory, s.first, s.firstSize, |s.mirror|) == Records(s.mirror)
  {
    if s.mirror != [] {
      FollowFrom(s, 0);
    }
  }

  lemma StaysListed(m: seq<Host>, i: nat, a: nat)
    requires i < |m| && Listed(m, a) && a != m[i].addr
    ensures Listed(Without(Bypassed(m, i), i), a)
  {
    var k :| 0 <= k < |m| && m[k].addr == a;
    var w := Without(Bypassed(m, i), i);
    assert w[if k < i then k else k - 1].addr == a;
  }

  lemma RemoveFrees(s: State, handle: int)
    requires Inv(s) && NothingElse(s)
    ensures NothingElse(AfterRemove(s, handle))
  {
    var i := Find(s.mirror, handle);
    if handle > 1 && i < |s.mirror| {
      var t := AfterRemove(s, handle);
      RemoveAt(s, handle, i);
      forall a | a in t.memory
        ensures Listed(t.mirror, a)
      {
        assert a in s.memory && a != s.mirror[i].addr;
        StaysListed(s.mirror, i, a);
      }
    }
  }

  lemma AddTargetListed(s: State, handle: int, addr: nat, oldPtr: nat, oldSize: nat)
    requires Inv(s) && NothingElse(s) && Enabled(s, AddTarget(handle, addr, oldPtr, oldSize))
    ensures NothingElse(AfterAddTarget(s, handle, addr, oldPtr, oldSize))
  {
    var t := AfterAddTarget(s, handle, addr, oldPtr, oldSize);
    assert t.mirror[|s.mirror|].addr == addr;
    forall a | a in t.memory && a != addr
      ensures Listed(t.mirror, a)
    {
      var k :| 0 <= k < |s.mirror| && s.mirror[k].addr == a;
      assert t.mirror[k].addr == a;
    }
  }

  /** Target memory holds the mirror's records and nothing else: removal frees what it unlinks. */
  lemma {:induction false} NothingLeaks(run: seq<State>, ops: seq<Op>, k: nat)
    requires IsRun(run, ops) && k < |run|
    ensures NothingElse(run[k])
  {
    if k > 0 {
      RunKeeps(run, ops, k - 1);
      NothingLeaks(run, ops, k - 1);
      match ops[k - 1]
      case AddHost(_) =>
      case AddSegment(_) =>
      case AddTarget(handle, addr, oldPtr, oldSize) => AddTargetListed(run[k - 1], handle, addr, oldPtr, oldSize);
      case RemoveTarget(handle) => RemoveFrees(run[k - 1], handle);
    }
  }

  /** A link tells the record's size exactly if that is below 2^16. */
  lemma {:induction false} LinkSizeCondition(h: Host)
    ensures LinkSize(h) == Size(h) <==> Size(h) < HALF
  {
  }

  /** So the sizes met along the chain are the records' sizes exactly if all are below 2^16. */
  lemma ChainSizes(s: State)
    requires Inv(s)
    ensures |Follow(s.memory, s.first, s.firstSize, |s.mirror|)| == |s.mirror|
    ensures (forall i :: 0 <= i < |s.mirror| ==>
               Follow(s.memory, s.first, s.firstSize, |s.mirror|)[i] == (s.mirror[i].addr, Size(s.mirror[i])))
            <==> forall i :: 0 <= i < |s.mirror| ==> Size(s.mirror[i]) < HALF
  {
    ChainIsMirror(s);
    forall i | 0 <= i < |s.mirror| ensures LinkSize(s.mirror[i]) == Size(s.mirror[i]) <==> Size(s.mirror[i]) < HALF {
      LinkSizeCondition(s.mirror[i]);
    }
  }

  /** In every state of every run. */
  lemma ReachableChain(run: seq<State>, ops: seq<Op>, k: nat)
    requires IsRun(run, ops) && k < |run|
    ensures var s := run[k]; Follow(s.memory, s.first, s.firstSize, |s.mirror|) == Records(s.mirror)
  {
    RunKeeps(run, ops, k);
    ChainIsMirror(run[k]);
  }

  // ---------------------------------------------------------------- the simple list that both copies hold

  datatype Module = Module(handle: int, name: string, segments: seq<nat>)

  function Plain(m: seq<Host>): (r: seq<Module>)
    ensures |r| == |m| && forall i :: 0 <= i < |m| ==> r[i] == Module(m[i].handle, m[i].name, m[i].segments)
  {
    seq(|m|, i requires 0 <= i < |m| => Module(m[i].handle, m[i].name, m[i].segments))
  }

  predicate OtherHandles(m: seq<Module>, handle: int) {
    forall i :: 0 <= i < |m| ==> m[i].handle != handle
  }

  /** A finished load appends its module; nothing else in the list changes. */
  lemma AddAppends(s: State, handle: int, addr: nat, oldPtr: nat, oldSize: nat)
    requires Inv(s) && Enabled(s, AddTarget(handle, addr, oldPtr, oldSize))
    ensures var top := s.stack[|s.stack| - 1];
            Plain(AfterAddTarget(s, handle, addr, oldPtr, oldSize).mirror) ==
            Plain(s.mirror) + [Module(handle, top.name, top.segments)]
  {
  }

  lemma PlainWithout(m: seq<Host>, i: nat)
    requires i < |m|
    ensures Plain(Without(Bypassed(m, i), i)) == Plain(m)[..i] + Plain(m)[i + 1..]
  {
    var b := Bypassed(m, i);
    var left, right := Plain(Without(b, i)), Plain(m)[..i] + Plain(m)[i + 1..];
    assert forall k :: 0 <= k < |left| ==> left[k] == right[k];
  }

  lemma RemoveAtPlain(s: State, handle: int, i: nat)
    requires Inv(s) && handle > 1 && i == Find(s.mirror, handle) && i < |s.mirror|
    ensures Plain(AfterRemove(s, handle).mirror) == Plain(s.mirror)[..i] + Plain(s.mirror)[i + 1..]
  {
    RemoveAt(s, handle, i);
    PlainWithout(s.mirror, i);
  }

  /** A removal takes out the module with the handle, if it is listed and not the base image. */
  lemma RemoveTakesOut(s: State, handle: int)
    requires Inv(s)
    ensures var before, now := Plain(s.mirror), Plain(AfterRemove(s, handle).mirror);
            if handle <= 1 || OtherHandles(before, handle) then now == before
            else OtherHandles(now, handle) &&
                 exists i :: 0 <= i < |before| && before[i].handle == handle && now == before[..i] + before[i + 1..]
  {
    var i := Find(s.mirror, handle);
    if i == |s.mirror| {
      assert OtherHandles(Plain(s.mirror), handle);
    } else {
      assert Plain(s.mirror)[i].handle == handle;
      if handle > 1 {
        RemoveAtPlain(s, handle, i);
      }
    }
  }
}
