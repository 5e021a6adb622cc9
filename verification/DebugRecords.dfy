/**
  What a debug record holds (src/utils/elfload/dlw_debug.c): the segments that were added while its
  module was the innermost one being loaded, in as many bytes as its size says.
 */
module DebugRecords {
  import opened Bytes
  import opened DebugChain

  // ---------------------------------------------------------------- nested loads

  /** How many more loads than at step i are under way before step k. */
  function Depth(ops: seq<Op>, i: nat, k: nat): int
    requires k <= |ops|
    decreases k
  {
    if k <= i then 0
    else
      Depth(ops, i, k - 1) + match ops[k - 1] case AddHost(_) => 1 case AddTarget(_, _, _, _) => -1 case _ => 0
  }

  /** The segments reported from step i on, before step k, outside the loads that begin after step i. */
  function Loads(ops: seq<Op>, i: nat, k: nat): seq<nat>
    requires k <= |ops|
    decreases k
  {
    if k <= i then []
    else
      Loads(ops, i, k - 1) +
      if ops[k - 1].AddSegment? && Depth(ops, i, k - 1) == 1 then [ops[k - 1].load] else []
  }

  /** The load that begins at step i goes on up to step j. */
  predicate GoesOn(ops: seq<Op>, i: nat, j: nat) {
    i < j <= |ops| && ops[i].AddHost? && forall k :: i < k <= j ==> Depth(ops, i, k) >= 1
  }

  /** The record of the load that begins at step i, in its place on the stack. */
  predicate Grows(s: State, base: nat, name: string, segments: seq<nat>, depth: int) {
    |s.stack| == base + depth && depth >= 1 && s.stack[base].name == name && s.stack[base].segments == segments
  }

  lemma HostGrows(s: State, base: nat, name: string, segments: seq<nat>, depth: int, op: Op)
    requires Grows(s, base, name, segments, depth) && op.AddHost?
    ensures Grows(AfterAddHost(s, op.name), base, name, segments, depth + 1)
  {
  }

  lemma SegmentGrows(s: State, base: nat, name: string, segments: seq<nat>, depth: int, load: nat)
    requires Grows(s, base, name, segments, depth) && s.stack != []
    ensures Grows(AfterAddSegment(s, load), base, name, if depth == 1 then segments + [load] else segments, depth)
  {
  }

  lemma TargetGrows(s: State, base: nat, name: string, segments: seq<nat>, depth: int, op: Op)
    requires Grows(s, base, name, segments, depth) && op.AddTarget? && Enabled(s, op) && depth > 1
    ensures Grows(After(s, op), base, name, segments, depth - 1)
  {
  }

  lemma {:induction false} Gathers(run: seq<State>, ops: seq<Op>, i: nat, k: nat)
    requires IsRun(run, ops) && GoesOn(ops, i, k)
    ensures Grows(run[k], |run[i].stack|, ops[i].name, Loads(ops, i, k), Depth(ops, i, k))
    decreases k
  {
    assert Enabled(run[k - 1], ops[k - 1]) && run[k] == After(run[k - 1], ops[k - 1]);
    if k == i + 1 {
      FirstDepth(ops, i);
      HostStarts(run[i], ops[i].name);
    } else {
      Gathers(run, ops, i, k - 1);
      GathersStep(run[k - 1], ops, i, k, |run[i].stack|);
    }
  }

  lemma FirstDepth(ops: seq<Op>, i: nat)
    requires i < |ops| && ops[i].AddHost?
    ensures Depth(ops, i, i + 1) == 1 && Loads(ops, i, i + 1) == []
  {
    assert Depth(ops, i, i) == 0 && Loads(ops, i, i) == [];
  }

  lemma HostStarts(s: State, name: string)
    ensures Grows(AfterAddHost(s, name), |s.stack|, name, [], 1)
  {
  }

  lemma GathersStep(s: State, ops: seq<Op>, i: nat, k: nat, base: nat)
    requires i + 1 < k && GoesOn(ops, i, k) && Enabled(s, ops[k - 1])
    requires Grows(s, base, ops[i].name, Loads(ops, i, k - 1), Depth(ops, i, k - 1))
    ensures Grows(After(s, ops[k - 1]), base, ops[i].name, Loads(ops, i, k), Depth(ops, i, k))
  {
    var segments, depth := Loads(ops, i, k - 1), Depth(ops, i, k - 1);
    assert Depth(ops, i, k) >= 1;
    match ops[k - 1]
    case AddHost(_) => HostGrows(s, base, ops[i].name, segments, depth, ops[k - 1]);
    case AddSegment(load) => SegmentGrows(s, base, ops[i].name, segments, depth, load);
    case AddTarget(_, _, _, _) => TargetGrows(s, base, ops[i].name, segments, depth, ops[k - 1]);
    case RemoveTarget(handle) => StackStays(s, handle);
  }

  lemma StackStays(s: State, handle: int)
    requires Backed(s)
    ensures AfterRemove(s, handle).stack == s.stack
  {
  }

  /**
    In any run, when the load that began at step i is finished at step j, the list grows by its
    module, with the name given then and exactly the segments reported while it was the innermost.
   */
  lemma RecordsOwnSegments(run: seq<State>, ops: seq<Op>, i: nat, j: nat)
    requires IsRun(run, ops) && j < |ops| && GoesOn(ops, i, j) && Depth(ops, i, j) == 1 && ops[j].AddTarget?
    ensures Plain(run[j + 1].mirror) == Plain(run[j].mirror) + [Module(ops[j].handle, ops[i].name, Loads(ops, i, j))]
  {
    Gathers(run, ops, i, j);
    RunKeeps(run, ops, j);
    assert Enabled(run[j], ops[j]) && run[j + 1] == After(run[j], ops[j]);
    AddAppends(run[j], ops[j].handle, ops[j].addr, ops[j].oldPtr, ops[j].oldSize);
  }

  // ---------------------------------------------------------------- the bytes of a record

  function Le16(n: nat): (s: seq<Byte>)
    ensures |s| == 2
  {
    [n % 0x100, n / 0x100 % 0x100]
  }

  function SegmentBytes(segments: seq<(nat, nat)>): (s: seq<Byte>)
    ensures |s| == 8 * |segments|
  {
    if segments == [] then []
    else Le32(segments[0].0) + Le32(segments[0].1) + SegmentBytes(segments[1..])
  }

  function NameBytes(name: string): (s: seq<Byte>)
    ensures |s| == |name|
  {
    seq(|name|, i requires 0 <= i < |name| => name[i] as int % 0x100)
  }

  /** DL_Target_Module_Debug with all its segments, then the name and its end. */
  function RecordBytes(t: Target, version: nat, verification: nat, timestamp: nat): seq<Byte> {
    Le32(t.nextPtr) + Le16(t.nextSize) + Le16(version) + Le16(verification) + Le16(t.count) + Le32(timestamp) +
    SegmentBytes(t.segments) + NameBytes(t.name) + [0]
  }

  /** The memory asked for a record, and the size that links announce, is what is written there. */
  lemma SizeIsWritten(h: Host, oldPtr: nat, oldSize: nat, version: nat, verification: nat, timestamp: nat)
    ensures |RecordBytes(Image(h, oldPtr, oldSize), version, verification, timestamp)| == Size(h)
  {
  }
}
