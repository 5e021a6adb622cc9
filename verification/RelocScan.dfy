/**
  The resumable scan of a relocation table (src/utils/elfload/arm_reloc.c): one pass per segment,
  each starting where the one before it stopped and leaving at the first entry past its group.
 */
module RelocScan {
  import P = Placement

  /** A segment and whether it has bytes in the file (a nonzero p_filesz). */
  datatype Loaded = Loaded(seg: P.Segment, filled: bool)

  /** r_offset, and whether the lookup of the entry's symbol succeeds. */
  datatype Rel = Rel(offset: nat, resolves: bool)

  /** Entry `rid` was applied at its place in segment `seg`. */
  datatype Applied = Applied(rid: nat, seg: nat)

  datatype Scanned = Scanned(log: seq<Applied>, next: nat, found: bool)

  /** The test in the code; the end of the segment is computed in 32 bits. */
  predicate Inside(g: P.Segment, v: nat) {
    g.vaddr <= v < P.Wrap(g.vaddr + g.memsz)
  }

  predicate Well(gs: seq<Loaded>) {
    forall i :: 0 <= i < |gs| ==> gs[i].seg.vaddr + gs[i].seg.memsz < P.WORD
  }

  function Segments(gs: seq<Loaded>): (r: seq<P.Segment>)
    ensures |r| == |gs| && forall i :: 0 <= i < |gs| ==> r[i] == gs[i].seg
  {
    seq(|gs|, i requires 0 <= i < |gs| => gs[i].seg)
  }

  // ---------------------------------------------------------------- what the code does

  /** Where an entry of a segment is applied, in target addresses. */
  function PatchedAt(g: P.Segment, e: Rel): int {
    g.target + e.offset - g.vaddr
  }

  /** The loop of process_rel_table for segment number s, from entry rid on. */
  function Scan(g: P.Segment, s: nat, table: seq<Rel>, rid: nat, found: bool): Scanned
    decreases |table| - rid
  {
    if rid >= |table| then Scanned([], rid, found)
    else if Inside(g, table[rid].offset) then
      var r := Scan(g, s, table, rid + 1, true);
      Scanned((if table[rid].resolves then [Applied(rid, s)] else []) + r.log, r.next, r.found)
    else if found then Scanned([], rid, true)
    else Scan(g, s, table, rid + 1, false)
  }

  function First(table: seq<Rel>, start: nat): nat {
    if start >= |table| then 0 else start
  }

  function Pass(gs: seq<Loaded>, s: nat, table: seq<Rel>, start: nat): Scanned
    requires s < |gs|
  {
    if gs[s].filled then Scan(gs[s].seg, s, table, First(table, start), false) else Scanned([], start, false)
  }

  /** The position that segment s starts from. */
  function StartOf(gs: seq<Loaded>, s: nat, table: seq<Rel>): nat
    requires s <= |gs|
  {
    if s == 0 then 0 else Pass(gs, s - 1, table, StartOf(gs, s - 1, table)).next
  }

  /** Everything that the first s segments apply, in order. */
  function Run(gs: seq<Loaded>, s: nat, table: seq<Rel>): seq<Applied>
    requires s <= |gs|
  {
    if s == 0 then [] else Run(gs, s - 1, table) + Pass(gs, s - 1, table, StartOf(gs, s - 1, table)).log
  }

  // ---------------------------------------------------------------- one pass

  predicate Own(g: P.Segment, table: seq<Rel>, rid: nat) {
    rid < |table| && Inside(g, table[rid].offset)
  }

  /** Every entry of the segment between an entry at or after `start` and c is the segment's too. */
  predicate Unbroken(g: P.Segment, table: seq<Rel>, start: nat, c: nat) {
    forall a: nat, b: nat :: start <= a < b < c && Own(g, table, a) ==> Own(g, table, b)
  }

  lemma {:induction false} ScanFound(g: P.Segment, s: nat, table: seq<Rel>, rid: nat, c: nat)
    requires rid <= |table|
    ensures Applied(c, s) in Scan(g, s, table, rid, true).log <==>
      Own(g, table, c) && table[c].resolves && rid <= c && forall b: nat :: rid <= b < c ==> Own(g, table, b)
    decreases |table| - rid
  {
    if Own(g, table, rid) {
      ScanFound(g, s, table, rid + 1, c);
    }
  }

  /** Exactly what one pass applies. */
  lemma {:induction false} ScanApplies(g: P.Segment, s: nat, table: seq<Rel>, rid: nat, c: nat)
    requires rid <= |table|
    ensures Applied(c, s) in Scan(g, s, table, rid, false).log <==>
      Own(g, table, c) && table[c].resolves && rid <= c && Unbroken(g, table, rid, c)
    decreases |table| - rid
  {
    if Own(g, table, rid) {
      ScanFound(g, s, table, rid + 1, c);
    } else if rid < |table| {
      ScanApplies(g, s, table, rid + 1, c);
    }
  }

  predicate Increasing(log: seq<Applied>) {
    forall i, k :: 0 <= i < k < |log| ==>
      log[i].seg < log[k].seg || (log[i].seg == log[k].seg && log[i].rid < log[k].rid)
  }

  /** A pass applies entries of its own segment only, each once, and in the table's order. */
  lemma {:induction false} ScanOrder(g: P.Segment, s: nat, table: seq<Rel>, rid: nat, found: bool)
    ensures var log := Scan(g, s, table, rid, found).log;
            && Increasing(log)
            && forall i :: 0 <= i < |log| ==> log[i].seg == s && rid <= log[i].rid && Own(g, table, log[i].rid)
    decreases |table| - rid
  {
    if Own(g, table, rid) {
      ScanOrder(g, s, table, rid + 1, true);
    } else if rid < |table| && !found {
      ScanOrder(g, s, table, rid + 1, false);
    }
  }

  /** Where a pass stops: past the segment's group, or at the end if it has none. */
  lemma {:induction false} ScanStops(g: P.Segment, s: nat, table: seq<Rel>, rid: nat, found: bool)
    requires rid <= |table|
    ensures var r := Scan(g, s, table, rid, found);
            && rid <= r.next <= |table|
            && (found ==> r.found && forall b: nat :: rid <= b < r.next ==> Own(g, table, b))
            && (r.found && !found ==> rid < r.next && Own(g, table, r.next - 1))
            && (!r.found ==> r.next == |table|)
    decreases |table| - rid
  {
    if Own(g, table, rid) {
      ScanStops(g, s, table, rid + 1, true);
    } else if rid < |table| && !found {
      ScanStops(g, s, table, rid + 1, false);
    }
  }

  // ---------------------------------------------------------------- the whole run, any table

  lemma {:induction false} StartInRange(gs: seq<Loaded>, s: nat, table: seq<Rel>)
    requires s <= |gs|
    ensures StartOf(gs, s, table) <= |table|
  {
    if s > 0 {
      StartInRange(gs, s - 1, table);
      if gs[s - 1].filled {
        ScanStops(gs[s - 1].seg, s - 1, table, First(table, StartOf(gs, s - 1, table)), false);
      }
    }
  }

  /** Every entry applied lies in its segment, and nothing is applied twice under one segment. */
  lemma {:induction false} RunOrder(gs: seq<Loaded>, s: nat, table: seq<Rel>)
    requires s <= |gs|
    ensures Increasing(Run(gs, s, table))
    ensures forall i :: 0 <= i < |Run(gs, s, table)| ==>
      var e := Run(gs, s, table)[i]; e.seg < s && gs[e.seg].filled && Own(gs[e.seg].seg, table, e.rid)
  {
    if s > 0 {
      RunOrder(gs, s - 1, table);
      if gs[s - 1].filled {
        ScanOrder(gs[s - 1].seg, s - 1, table, First(table, StartOf(gs, s - 1, table)), false);
      }
    }
  }

  lemma OwnHome(gs: seq<Loaded>, s: nat, v: nat)
    requires Well(gs) && P.DisjointSegments(Segments(gs)) && s < |gs|
    ensures Inside(gs[s].seg, v) <==> P.Home(Segments(gs), v) == s
  {
    var g := gs[s].seg;
    P.WrapSmall(g.vaddr + g.memsz);
    assert Inside(g, v) <==> P.Holds(Segments(gs)[s], v);
    if P.Holds(Segments(gs)[s], v) {
      assert P.Home(Segments(gs), v) <= s;
    }
  }

  /** For disjoint segments and any table at all, no entry is applied twice. */
  lemma AtMostOnce(gs: seq<Loaded>, table: seq<Rel>, i: nat, k: nat)
    requires Well(gs) && P.DisjointSegments(Segments(gs))
    requires i < k < |Run(gs, |gs|, table)|
    ensures Run(gs, |gs|, table)[i].rid != Run(gs, |gs|, table)[k].rid
  {
    var log := Run(gs, |gs|, table);
    RunOrder(gs, |gs|, table);
    OwnHome(gs, log[i].seg, table[log[i].rid].offset);
    OwnHome(gs, log[k].seg, table[log[k].rid].offset);
  }

  /** What the whole run applies, for any table. */
  lemma {:induction false} RunApplies(gs: seq<Loaded>, s: nat, table: seq<Rel>, c: nat, t: nat)
    requires s <= |gs|
    ensures Applied(c, t) in Run(gs, s, table) <==>
      t < s && gs[t].filled && Own(gs[t].seg, table, c) && table[c].resolves &&
      var start := First(table, StartOf(gs, t, table));
      start <= c && Unbroken(gs[t].seg, table, start, c)
  {
    if s > 0 {
      RunApplies(gs, s - 1, table, c, t);
      if gs[s - 1].filled {
        var first := First(table, StartOf(gs, s - 1, table));
        ScanOrder(gs[s - 1].seg, s - 1, table, first, false);
        ScanApplies(gs[s - 1].seg, s - 1, table, first, c);
      }
    }
  }

  // ---------------------------------------------------------------- tables of which nothing is skipped

  /** The pass of segment t comes by entry c. */
  predicate Met(gs: seq<Loaded>, table: seq<Rel>, t: nat, c: nat)
    requires t < |gs|
  {
    var start := First(table, StartOf(gs, t, table));
    start <= c && Unbroken(gs[t].seg, table, start, c)
  }

  /** Every entry of a segment that has bytes is met by that segment's pass. */
  ghost predicate NothingSkipped(gs: seq<Loaded>, table: seq<Rel>) {
    forall t: nat, c: nat :: t < |gs| && gs[t].filled && Own(gs[t].seg, table, c) ==> Met(gs, table, t, c)
  }

  /** The segment's entries stand together. */
  ghost predicate OneBlock(g: P.Segment, table: seq<Rel>) {
    forall c: nat :: Own(g, table, c) ==> Unbroken(g, table, 0, c)
  }

  ghost predicate LastOwn(g: P.Segment, table: seq<Rel>, a: nat) {
    Own(g, table, a) && forall b: nat :: Own(g, table, b) ==> b <= a
  }

  /** t is the next segment after p that has bytes; p has bytes too. */
  ghost predicate NextFilled(gs: seq<Loaded>, p: nat, t: nat) {
    p < t < |gs| && gs[p].filled && gs[t].filled && forall u :: p < u < t ==> !gs[u].filled
  }

  /** Segment t's entries come after segment p's, unless p's are the last of the table. */
  ghost predicate FollowsOn(gs: seq<Loaded>, table: seq<Rel>, p: nat, t: nat)
    requires p < |gs| && t < |gs|
  {
    forall a: nat, c: nat :: LastOwn(gs[p].seg, table, a) && a + 1 < |table| && Own(gs[t].seg, table, c) ==> a < c
  }

  /** Blocks, each after that of the segment before it unless that one ends the table. */
  ghost predicate InTurn(gs: seq<Loaded>, table: seq<Rel>) {
    (forall t: nat :: t < |gs| && gs[t].filled ==> OneBlock(gs[t].seg, table)) &&
    forall p: nat, t: nat :: NextFilled(gs, p, t) ==> FollowsOn(gs, table, p, t)
  }

  /** A pass that comes by an entry goes past it. */
  lemma {:induction false} ScanPasses(g: P.Segment, s: nat, table: seq<Rel>, rid: nat, found: bool, c: nat)
    requires rid <= c && Own(g, table, c) && Unbroken(g, table, rid, c)
    requires found ==> forall b: nat :: rid <= b < c ==> Own(g, table, b)
    ensures c < Scan(g, s, table, rid, found).next && Scan(g, s, table, rid, found).found
    decreases |table| - rid
  {
    if rid == c {
      ScanStops(g, s, table, rid + 1, true);
    } else if Own(g, table, rid) {
      ScanPasses(g, s, table, rid + 1, true, c);
    } else {
      ScanPasses(g, s, table, rid + 1, false, c);
    }
  }

  /** Where the pass of a block stops. */
  lemma BlockEnds(g: P.Segment, s: nat, table: seq<Rel>, start: nat, a: nat)
    requires OneBlock(g, table) && LastOwn(g, table, a) && start <= a
    ensures Scan(g, s, table, start, false).next == a + 1
  {
    assert Unbroken(g, table, start, a);
    ScanPasses(g, s, table, start, false, a);
    ScanStops(g, s, table, start, false);
  }

  /** No entry of the segment: the pass runs to the end. */
  lemma {:induction false} EmptyPass(g: P.Segment, s: nat, table: seq<Rel>, rid: nat)
    requires rid <= |table| && forall b: nat :: !Own(g, table, b)
    ensures Scan(g, s, table, rid, false).next == |table|
    decreases |table| - rid
  {
    if rid < |table| {
      assert !Own(g, table, rid);
      EmptyPass(g, s, table, rid + 1);
    }
  }

  /** The position is handed on unchanged by segments without bytes. */
  lemma {:induction false} StartAfter(gs: seq<Loaded>, p: nat, t: nat, table: seq<Rel>)
    requires p < t <= |gs| && forall u :: p < u < t ==> !gs[u].filled
    ensures StartOf(gs, t, table) == Pass(gs, p, table, StartOf(gs, p, table)).next
    decreases t
  {
    if p + 1 < t {
      StartAfter(gs, p, t - 1, table);
    }
  }

  lemma {:induction false} StartAtZero(gs: seq<Loaded>, t: nat, table: seq<Rel>)
    requires t <= |gs| && forall u :: 0 <= u < t ==> !gs[u].filled
    ensures StartOf(gs, t, table) == 0
  {
    if t > 0 {
      StartAtZero(gs, t - 1, table);
    }
  }

  /** The last segment with bytes before t, if there is one. */
  lemma {:induction false} FilledBefore(gs: seq<Loaded>, t: nat) returns (p: nat)
    requires t <= |gs| && exists u :: 0 <= u < t && gs[u].filled
    ensures p < t && gs[p].filled && forall u :: p < u < t ==> !gs[u].filled
  {
    if gs[t - 1].filled {
      p := t - 1;
    } else {
      p := FilledBefore(gs, t - 1);
    }
  }

  lemma {:induction false} LastOf(g: P.Segment, table: seq<Rel>, n: nat) returns (a: nat)
    requires n <= |table| && (exists b: nat :: b < n && Own(g, table, b)) && forall b: nat :: n <= b ==> !Own(g, table, b)
    ensures LastOwn(g, table, a)
  {
    if Own(g, table, n - 1) {
      a := n - 1;
    } else {
      a := LastOf(g, table, n - 1);
    }
  }

  /** In a table in turn no segment starts past any of its entries. */
  lemma {:induction false} StartsInTime(gs: seq<Loaded>, table: seq<Rel>, t: nat, c: nat)
    requires InTurn(gs, table) && t < |gs| && gs[t].filled && Own(gs[t].seg, table, c)
    ensures First(table, StartOf(gs, t, table)) <= c
    decreases t
  {
    if exists u :: 0 <= u < t && gs[u].filled {
      var p := FilledBefore(gs, t);
      StartAfter(gs, p, t, table);
      StartInRange(gs, p, table);
      var g, first := gs[p].seg, First(table, StartOf(gs, p, table));
      if b: nat :| Own(g, table, b) {
        var a := LastOf(g, table, |table|);
        StartsInTime(gs, table, p, a);
        BlockEnds(g, p, table, first, a);
        assert NextFilled(gs, p, t) && FollowsOn(gs, table, p, t);
      } else {
        EmptyPass(g, p, table, first);
      }
    } else {
      StartAtZero(gs, t, table);
    }
  }

  lemma TurnSkipsNothing(gs: seq<Loaded>, table: seq<Rel>)
    requires InTurn(gs, table)
    ensures NothingSkipped(gs, table)
  {
    forall t: nat, c: nat | t < |gs| && gs[t].filled && Own(gs[t].seg, table, c) ensures Met(gs, table, t, c) {
      StartsInTime(gs, table, t, c);
      assert Unbroken(gs[t].seg, table, 0, c);
    }
  }

  lemma SkippedBlock(gs: seq<Loaded>, table: seq<Rel>, t: nat)
    requires NothingSkipped(gs, table) && t < |gs| && gs[t].filled
    ensures OneBlock(gs[t].seg, table)
  {
    var g := gs[t].seg;
    forall c: nat | Own(g, table, c) ensures Unbroken(g, table, 0, c) {
      assert Met(gs, table, t, c);
      forall a: nat, b: nat | a < b < c && Own(g, table, a) ensures Own(g, table, b) {
        assert Met(gs, table, t, a);
      }
    }
  }

  lemma SkippedTurn(gs: seq<Loaded>, table: seq<Rel>, p: nat, t: nat)
    requires NothingSkipped(gs, table) && NextFilled(gs, p, t)
    ensures FollowsOn(gs, table, p, t)
  {
    forall a: nat, c: nat | LastOwn(gs[p].seg, table, a) && a + 1 < |table| && Own(gs[t].seg, table, c) ensures a < c {
      StartAfter(gs, p, t, table);
      SkippedBlock(gs, table, p);
      assert Met(gs, table, p, a) && Met(gs, table, t, c);
      BlockEnds(gs[p].seg, p, table, First(table, StartOf(gs, p, table)), a);
    }
  }

  /**
    Exactly when nothing is skipped, for any segments and any table: each segment's entries stand
    together, and after those of the segment before it unless these end the table.
   */
  lemma SkipCondition(gs: seq<Loaded>, table: seq<Rel>)
    ensures NothingSkipped(gs, table) <==> InTurn(gs, table)
  {
    if NothingSkipped(gs, table) {
      forall t: nat | t < |gs| && gs[t].filled ensures OneBlock(gs[t].seg, table) {
        SkippedBlock(gs, table, t);
      }
      forall p: nat, t: nat | NextFilled(gs, p, t) ensures FollowsOn(gs, table, p, t) {
        SkippedTurn(gs, table, p, t);
      }
    }
    if InTurn(gs, table) {
      TurnSkipsNothing(gs, table);
    }
  }

  /** So if all symbols are found, every entry of a segment with bytes is applied exactly for such tables. */
  lemma AllAppliedCondition(gs: seq<Loaded>, table: seq<Rel>)
    requires forall c :: 0 <= c < |table| ==> table[c].resolves
    ensures InTurn(gs, table) <==>
      forall t: nat, c: nat :: t < |gs| && gs[t].filled && Own(gs[t].seg, table, c) ==> Applied(c, t) in Run(gs, |gs|, table)
  {
    SkipCondition(gs, table);
    forall t: nat, c: nat | t < |gs| && gs[t].filled && Own(gs[t].seg, table, c)
      ensures Applied(c, t) in Run(gs, |gs|, table) <==> Met(gs, table, t, c)
    {
      RunApplies(gs, |gs|, table, c, t);
    }
  }

  // ---------------------------------------------------------------- grouped tables

  /** The entries come in the order of their segments; those of no segment are last. */
  predicate Grouped(gs: seq<Loaded>, table: seq<Rel>) {
    forall a, b :: 0 <= a < b < |table| ==>
      P.Home(Segments(gs), table[a].offset) <= P.Home(Segments(gs), table[b].offset)
  }

  lemma OwnIsHome(gs: seq<Loaded>, table: seq<Rel>, t: nat, c: nat)
    requires Well(gs) && P.DisjointSegments(Segments(gs)) && t < |gs|
    ensures Own(gs[t].seg, table, c) <==> c < |table| && P.Home(Segments(gs), table[c].offset) == t
  {
    if c < |table| {
      OwnHome(gs, t, table[c].offset);
    }
  }

  lemma GroupedBlock(gs: seq<Loaded>, table: seq<Rel>, t: nat)
    requires Well(gs) && P.DisjointSegments(Segments(gs)) && Grouped(gs, table) && t < |gs|
    ensures OneBlock(gs[t].seg, table)
  {
    var g := gs[t].seg;
    forall a: nat, b: nat, c: nat | a < b < c && Own(g, table, a) && Own(g, table, c) ensures Own(g, table, b) {
      OwnIsHome(gs, table, t, a);
      OwnIsHome(gs, table, t, b);
      OwnIsHome(gs, table, t, c);
    }
  }

  lemma HomesInOrder(gs: seq<Loaded>, table: seq<Rel>, a: nat, c: nat)
    requires Grouped(gs, table) && a < |table| && c < |table|
    requires P.Home(Segments(gs), table[a].offset) < P.Home(Segments(gs), table[c].offset)
    ensures a < c
  {
  }

  lemma GroupedFollows(gs: seq<Loaded>, table: seq<Rel>, p: nat, t: nat)
    requires Well(gs) && P.DisjointSegments(Segments(gs)) && Grouped(gs, table) && p < t < |gs|
    ensures FollowsOn(gs, table, p, t)
  {
    forall a: nat, c: nat | Own(gs[p].seg, table, a) && Own(gs[t].seg, table, c) ensures a < c {
      OwnIsHome(gs, table, p, a);
      OwnIsHome(gs, table, t, c);
      HomesInOrder(gs, table, a, c);
    }
  }

  /** A grouped table of disjoint segments is in turn. */
  lemma GroupedInTurn(gs: seq<Loaded>, table: seq<Rel>)
    requires Well(gs) && P.DisjointSegments(Segments(gs)) && Grouped(gs, table)
    ensures InTurn(gs, table)
  {
    forall t: nat | t < |gs| && gs[t].filled ensures OneBlock(gs[t].seg, table) {
      GroupedBlock(gs, table, t);
    }
    forall p: nat, t: nat | NextFilled(gs, p, t) ensures FollowsOn(gs, table, p, t) {
      GroupedFollows(gs, table, p, t);
    }
  }

  /**
    Disjoint segments and a table in turn: the run applies exactly the entries whose symbol is
    found and whose segment has bytes, each under its own segment; with AtMostOnce, each once.
   */
  lemma AppliedInTurn(gs: seq<Loaded>, table: seq<Rel>, c: nat, t: nat)
    requires Well(gs) && P.DisjointSegments(Segments(gs)) && InTurn(gs, table) && c < |table|
    ensures Applied(c, t) in Run(gs, |gs|, table) <==>
      t < |gs| && t == P.Home(Segments(gs), table[c].offset) && gs[t].filled && table[c].resolves
  {
    RunApplies(gs, |gs|, table, c, t);
    if t < |gs| {
      OwnIsHome(gs, table, t, c);
      TurnSkipsNothing(gs, table);
      assert gs[t].filled && Own(gs[t].seg, table, c) ==> Met(gs, table, t, c);
    }
  }

  /** A grouped table is applied like that and in order. */
  lemma AppliedExactlyOnce(gs: seq<Loaded>, table: seq<Rel>, c: nat, t: nat)
    requires Well(gs) && P.DisjointSegments(Segments(gs)) && Grouped(gs, table) && c < |table|
    ensures Applied(c, t) in Run(gs, |gs|, table) <==>
      t < |gs| && t == P.Home(Segments(gs), table[c].offset) && gs[t].filled && table[c].resolves
    ensures forall i, k :: 0 <= i < k < |Run(gs, |gs|, table)| ==>
      Run(gs, |gs|, table)[i].rid < Run(gs, |gs|, table)[k].rid
  {
    GroupedInTurn(gs, table);
    AppliedInTurn(gs, table, c, t);
    var log := Run(gs, |gs|, table);
    forall i, k | 0 <= i < k < |log|
      ensures log[i].rid < log[k].rid
    {
      RunOrder(gs, |gs|, table);
      OwnHome(gs, log[i].seg, table[log[i].rid].offset);
      OwnHome(gs, log[k].seg, table[log[k].rid].offset);
    }
  }

  /** An entry is applied at the address that the map of symbols and tags gives to its offset. */
  lemma {:induction false} AppliedWhereMoved(gs: seq<Loaded>, table: seq<Rel>, c: nat, t: nat)
    requires Well(gs) && P.DisjointSegments(Segments(gs)) && t < |gs| && c < |table|
    requires Applied(c, t) in Run(gs, |gs|, table)
    ensures PatchedAt(gs[t].seg, table[c]) == P.Shift(Segments(gs), table[c].offset)
  {
    RunApplies(gs, |gs|, table, c, t);
    OwnHome(gs, t, table[c].offset);
  }

  /** Two segments of four bytes, and a table with an entry of each, crossed, and one of neither. */
  const PAIR := [Loaded(P.Segment(0, 4, 0), true), Loaded(P.Segment(4, 4, 4), true)]

  const CROSSED := [Rel(4, true), Rel(0, true), Rel(9, true)]

  /** Out of turn, entries are lost: the scan for segment 1 starts past its only entry. */
  lemma UngroupedLoses()
    ensures Well(PAIR) && P.DisjointSegments(Segments(PAIR))
    ensures Applied(1, 0) in Run(PAIR, 2, CROSSED) && Applied(0, 1) !in Run(PAIR, 2, CROSSED)
  {
    CrossedIsOutOfTurn();
    AllAppliedCondition(PAIR, CROSSED);
    FirstIsApplied();
    forall t: nat, c: nat | t < 2 && Own(PAIR[t].seg, CROSSED, c) ensures c == 1 - t {
      CrossedOwn(t, c);
    }
  }

  lemma CrossedOwn(t: nat, c: nat)
    requires t < 2 && Own(PAIR[t].seg, CROSSED, c)
    ensures c == 1 - t
  {
  }

  lemma CrossedIsOutOfTurn()
    ensures !InTurn(PAIR, CROSSED)
  {
    assert LastOwn(PAIR[0].seg, CROSSED, 1) && Own(PAIR[1].seg, CROSSED, 0);
    assert NextFilled(PAIR, 0, 1) && !FollowsOn(PAIR, CROSSED, 0, 1);
  }

  lemma FirstIsApplied()
    ensures Applied(1, 0) in Run(PAIR, 2, CROSSED)
  {
    RunApplies(PAIR, 2, CROSSED, 1, 0);
    StartAtZero(PAIR, 0, CROSSED);
  }

  /** Grouping is not needed: what ends the table sends the scan back to its start. */
  lemma SwappedLosesNothing()
    ensures var table := [Rel(4, true), Rel(0, true)];
            !Grouped(PAIR, table) && InTurn(PAIR, table) && NothingSkipped(PAIR, table)
  {
    var table := [Rel(4, true), Rel(0, true)];
    OwnIsHome(PAIR, table, 1, 0);
    OwnIsHome(PAIR, table, 0, 1);
    assert Own(PAIR[1].seg, table, 0) && Own(PAIR[0].seg, table, 1);
    SkipCondition(PAIR, table);
  }

  // ---------------------------------------------------------------- the code's loops

  /** `log` followed by what the scan does from `rid` on. */
  function After(log: seq<Applied>, g: P.Segment, s: nat, table: seq<Rel>, rid: nat, found: bool): Scanned {
    var r := Scan(g, s, table, rid, found);
    Scanned(log + r.log, r.next, r.found)
  }

  lemma ScanStep(log: seq<Applied>, g: P.Segment, s: nat, table: seq<Rel>, rid: nat, found: bool)
    requires rid < |table|
    ensures After(log, g, s, table, rid, found) ==
      if Inside(g, table[rid].offset)
      then After(log + if table[rid].resolves then [Applied(rid, s)] else [], g, s, table, rid + 1, true)
      else if found then Scanned(log, rid, true)
      else After(log, g, s, table, rid + 1, false)
  {
    var more := if table[rid].resolves then [Applied(rid, s)] else [];
    var r := Scan(g, s, table, rid + 1, true);
    assert log + (more + r.log) == log + more + r.log;
  }

  /** process_rel_table, and process_rela_table, which differs only in where the addend comes from. */
  method ProcessTable(g: P.Segment, s: nat, table: array<Rel>, start: nat) returns (log: seq<Applied>, next: nat, found: bool)
    ensures Scanned(log, next, found) == Scan(g, s, table[..], First(table[..], start), false)
  {
    var from, to := g.vaddr, P.Wrap(g.vaddr + g.memsz);
    var rid := start;
    found := false;
    log := [];
    if rid >= table.Length {
      rid := 0;
    }
    ghost var t := table[..];
    ghost var all := After(log, g, s, t, rid, found);
    assert all == Scan(g, s, t, rid, found);
    while rid < table.Length
      invariant rid <= |t| && t == table[..] && all == After(log, g, s, t, rid, found)
    {
      ScanStep(log, g, s, t, rid, found);
      if from <= table[rid].offset < to {
        found := true;
        if table[rid].resolves {
          log := log + [Applied(rid, s)];
        }
      } else if found {
        break;
      }
      rid := rid + 1;
    }
    assert all == Scanned(log, rid, found);
    next := rid;
  }

  /** One table's share of a log in which both tables' entries are mixed. */
  function Only(log: seq<(bool, Applied)>, rela: bool): seq<Applied> {
    if log == [] then []
    else Only(log[..|log| - 1], rela) + if log[|log| - 1].0 == rela then [log[|log| - 1].1] else []
  }

  function Tagged(log: seq<Applied>, rela: bool): (r: seq<(bool, Applied)>)
    ensures |r| == |log| && forall i :: 0 <= i < |r| ==> r[i] == (rela, log[i])
  {
    seq(|log|, i requires 0 <= i < |log| => (rela, log[i]))
  }

  lemma {:induction false} OnlyAppend(log: seq<(bool, Applied)>, more: seq<Applied>, kind: bool, rela: bool)
    ensures Only(log + Tagged(more, kind), rela) == Only(log, rela) + if kind == rela then more else []
    decreases |more|
  {
    if more == [] {
      assert log + Tagged(more, kind) == log;
    } else {
      var init := more[..|more| - 1];
      var all := log + Tagged(more, kind);
      assert all[..|all| - 1] == log + Tagged(init, kind);
      assert all[|all| - 1] == (kind, more[|more| - 1]);
      assert more == init + [more[|more| - 1]];
      OnlyAppend(log, init, kind, rela);
    }
  }

  /** One turn of the segment loop: the RELA table first, then the REL table. */
  method ProcessSegment(g: P.Segment, s: nat, rela: array<Rel>, rel: array<Rel>, relaStart: nat, relStart: nat,
                        before: seq<(bool, Applied)>) returns (log: seq<(bool, Applied)>, relaRid: nat, relRid: nat)
    ensures var r := Scan(g, s, rela[..], First(rela[..], relaStart), false);
            relaRid == r.next && Only(log, true) == Only(before, true) + r.log
    ensures var r := Scan(g, s, rel[..], First(rel[..], relStart), false);
            relRid == r.next && Only(log, false) == Only(before, false) + r.log
  {
    var relaLog, relaNext, relaFound := ProcessTable(g, s, rela, relaStart);
    var relLog, relNext, relFound := ProcessTable(g, s, rel, relStart);
    relaRid, relRid := relaNext, relNext;
    log := before + Tagged(relaLog, true);
    OnlyAppend(before, relaLog, true, true);
    OnlyAppend(before, relaLog, true, false);
    OnlyAppend(log, relLog, false, true);
    OnlyAppend(log, relLog, false, false);
    log := log + Tagged(relLog, false);
  }

  /** process_got_relocs */
  method ProcessGotRelocs(segments: array<Loaded>, rela: array<Rel>, rel: array<Rel>) returns (log: seq<(bool, Applied)>)
    ensures Only(log, true) == Run(segments[..], segments.Length, rela[..])
    ensures Only(log, false) == Run(segments[..], segments.Length, rel[..])
  {
    var relRid, relaRid, s := 0, 0, 0;
    ghost var gs := segments[..];
    log := [];
    while s < segments.Length
      invariant s <= |gs| && gs == segments[..] && relaRid == StartOf(gs, s, rela[..]) && relRid == StartOf(gs, s, rel[..])
      invariant Only(log, true) == Run(gs, s, rela[..])
      invariant Only(log, false) == Run(gs, s, rel[..])
    {
      if segments[s].filled {
        log, relaRid, relRid := ProcessSegment(segments[s].seg, s, rela, rel, relaRid, relRid, log);
      }
      s := s + 1;
    }
  }
}
