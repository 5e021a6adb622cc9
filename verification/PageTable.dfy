/**
  The first-level page table that the firmware post-processor builds from the list of memory
  regions (src/utils/genextbin.c), against the list itself and the hardware's table walk.
  `a | b` of words without a common bit is written a + b, and `a & ~(n - 1)` is written a / n * n.
 */
module PageTable {
  import opened Types

  const M16: nat := 0x100_0000
  const M1: nat := 0x10_0000
  const K64: nat := 0x1_0000
  const K4: nat := 0x1000
  const WORD: nat := 0x1_0000_0000
  const ENTRIES: nat := 4096

  datatype Region = Region(va: nat, pa: nat, len: nat)

  /** Addresses and lengths in multiples of 4K, both ranges below 4 GB: what create_ttb can divide up. */
  predicate Fits(r: Region) {
    r.va % K4 == 0 && r.pa % K4 == 0 && r.len % K4 == 0 && r.pa > 0 && r.len > 0 &&
    r.va + r.len <= WORD && r.pa + r.len <= WORD
  }

  predicate AllFit(rs: seq<Region>) {
    forall i :: 0 <= i < |rs| ==> Fits(rs[i])
  }

  predicate Disjoint(rs: seq<Region>) {
    forall i, j :: 0 <= i < j < |rs| ==> rs[i].va + rs[i].len <= rs[j].va || rs[j].va + rs[j].len <= rs[i].va
  }

  predicate In(r: Region, va: nat) {
    r.va <= va < r.va + r.len
  }

  /** va_to_pa: the first region that holds the address. */
  function VaToPa(rs: seq<Region>, va: nat): Option<nat> {
    if rs == [] then None
    else if In(rs[0], va) then Some(rs[0].pa + (va - rs[0].va))
    else VaToPa(rs[1..], va)
  }

  // ---------------------------------------------------------------- entries and the walk

  function Section(pa: nat): nat {
    pa / M1 * M1 + 0x2
  }

  function Supersection(pa: nat): nat {
    pa / M16 * M16 + 0x4_0002
  }

  /**
    The short-descriptor walk of section B3.5.1 of the ARM Architecture Reference Manual ARMv7-A:
    bit 1 marks a section, bit 18 a supersection, whose bits 23:20 and 8:5 extend the address.
   */
  function WalkEntry(e: nat, va: nat): Option<nat> {
    if e / 2 % 2 == 0 then None
    else if e / 0x4_0000 % 2 == 0 then Some(e / M1 * M1 + va % M1)
    else Some(e / M16 * M16 + va % M16 + (e / M1 % 16) * WORD + (e / 32 % 16) * 0x10_0000_0000)
  }

  function Walk(t: seq<nat>, va: nat): Option<nat>
    requires |t| == ENTRIES && va < WORD
  {
    WalkEntry(t[va / M1], va)
  }

  // ---------------------------------------------------------------- what create_ttb does

  /** The largest unit that the rest of a region allows. */
  function Unit(va: nat, pa: nat, size: nat): (u: nat)
    requires va % K4 == 0 && pa % K4 == 0 && size % K4 == 0 && size > 0
    ensures 0 < u <= size && (u == M16 || u == M1 || u == K64 || u == K4)
    ensures va % u == 0 && pa % u == 0
    ensures u < M16 ==> size < M16 || va % M16 != 0 || pa % M16 != 0
    ensures u < M1 ==> size < M1 || va % M1 != 0 || pa % M1 != 0
  {
    if size >= M16 && va % M16 == 0 && pa % M16 == 0 then M16
    else if size >= M1 && va % M1 == 0 && pa % M1 == 0 then M1
    else if size >= K64 && va % K64 == 0 && pa % K64 == 0 then K64
    else K4
  }

  /** Entry k after one unit: 16 entries for 16M, one for 1M, none for less. */
  function AfterUnit(u: nat, va: nat, pa: nat, k: nat, e: nat): nat {
    if u == M16 && va / M1 <= k < va / M1 + 16 then Supersection(pa)
    else if u == M1 && k == va / M1 then Section(pa)
    else e
  }

  lemma UnitKeepsAlignment(va: nat, pa: nat, size: nat)
    requires va % K4 == 0 && pa % K4 == 0 && size % K4 == 0 && size > 0
    ensures var u := Unit(va, pa, size); (va + u) % K4 == 0 && (pa + u) % K4 == 0 && (size - u) % K4 == 0
  {
    var u := Unit(va, pa, size);
    StaysAligned(va, u);
    StaysAligned(pa, u);
    StaysAligned(size, u);
  }

  predicate IsUnit(u: nat) {
    u == M16 || u == M1 || u == K64 || u == K4
  }

  lemma StaysAligned(a: nat, u: nat)
    requires a % K4 == 0 && IsUnit(u)
    ensures (a + u) % K4 == 0 && (a - u) % K4 == 0
  {
    var q := a / K4;
    assert a == q * K4;
  }

  /** Entry k after the rest of a region. */
  function AfterRegion(va: nat, pa: nat, size: nat, k: nat, e: nat): nat
    requires va % K4 == 0 && pa % K4 == 0 && size % K4 == 0
    decreases size
  {
    if size == 0 then e
    else
      var u := Unit(va, pa, size);
      UnitKeepsAlignment(va, pa, size);
      AfterRegion(va + u, pa + u, size - u, k, AfterUnit(u, va, pa, k, e))
  }

  function AfterRegions(rs: seq<Region>, k: nat): nat
    requires AllFit(rs)
  {
    if rs == [] then 0
    else
      var r := rs[|rs| - 1];
      AfterRegion(r.va, r.pa, r.len, k, AfterRegions(rs[..|rs| - 1], k))
  }

  // ---------------------------------------------------------------- closed form

  /** The unit-aligned block around x lies in [lo, hi). */
  predicate Whole(lo: nat, hi: nat, unit: nat, x: nat)
    requires unit > 0
  {
    lo <= x / unit * unit && x / unit * unit + unit <= hi
  }

  /** What [lo, hi), mapped d below its addresses, makes of entry k. */
  function Closed(lo: nat, hi: nat, d: int, k: nat, e: nat): nat
    requires d <= lo
  {
    var x := k * M1;
    if d % M16 == 0 && Whole(lo, hi, M16, x) then Supersection(x - d)
    else if d % M1 == 0 && Whole(lo, hi, M1, x) then Section(x - d)
    else e
  }

  lemma SameOffset(va: nat, pa: nat, u: nat, d: int)
    requires IsUnit(u) && va % u == 0 && d == va - pa
    ensures pa % u == 0 <==> d % u == 0
  {
  }

  lemma UnitStart(lo: nat, unit: nat, x: nat)
    requires (unit == M16 || unit == M1) && x / unit * unit == lo
    ensures lo % unit == 0
  {
  }

  /** A unit that is done leaves every block whole unless a block starts and fits where the unit starts. */
  lemma KeptBlock(lo: nat, hi: nat, u: nat, unit: nat, x: nat)
    requires IsUnit(u) && (unit == M16 || unit == M1)
    requires lo % u == 0 && u <= unit && !(lo % unit == 0 && hi - lo >= unit)
    ensures Whole(lo, hi, unit, x) == Whole(lo + u, hi, unit, x)
  {
    if Whole(lo, hi, unit, x) && !Whole(lo + u, hi, unit, x) {
      LostBlock(lo, hi, u, unit, x);
      UnitStart(lo, unit, x);
    }
  }

  lemma LostBlock(lo: nat, hi: nat, u: nat, unit: nat, x: nat)
    requires IsUnit(u) && (unit == M16 || unit == M1)
    requires lo % u == 0 && u <= unit && Whole(lo, hi, unit, x) && !Whole(lo + u, hi, unit, x)
    ensures x / unit * unit == lo
  {
    var b := x / unit * unit;
    MultipleOfUnit(x / unit, unit, u);
    SameMultiple(lo, b, u);
  }

  lemma MultipleOfUnit(q: nat, unit: nat, u: nat)
    requires IsUnit(u) && (unit == M16 || unit == M1) && u <= unit
    ensures (q * unit) % u == 0
  {
    if unit == M16 {
      Sixteenths(q, u);
    } else {
      Megabytes(q, u);
    }
  }

  lemma Sixteenths(q: nat, u: nat)
    requires IsUnit(u)
    ensures (q * M16) % u == 0
  {
    if u == M1 {
      Megabytes(q * 16, M1);
    } else if u < M1 {
      assert q * M16 == (q * 16) * M1;
      Megabytes(q * 16, u);
    }
  }

  lemma Megabytes(q: nat, u: nat)
    requires u == M1 || u == K64 || u == K4
    ensures (q * M1) % u == 0
  {
    if u == K64 {
      assert q * M1 == (q * 16) * K64;
    } else if u == K4 {
      assert q * M1 == (q * 256) * K4;
    }
  }

  lemma SameMultiple(lo: nat, b: nat, u: nat)
    requires IsUnit(u) && lo % u == 0 && b % u == 0 && lo <= b < lo + u
    ensures b == lo
  {
  }

  lemma StepSmall(lo: nat, hi: nat, d: int, u: nat, k: nat, e: nat)
    requires 0 <= lo - d && (u == K64 || u == K4) && lo % u == 0
    requires !(lo % M16 == 0 && d % M16 == 0 && hi - lo >= M16)
    requires !(lo % M1 == 0 && d % M1 == 0 && hi - lo >= M1)
    ensures Closed(lo, hi, d, k, e) == Closed(lo + u, hi, d, k, e)
  {
    if d % M16 == 0 {
      KeptBlock(lo, hi, u, M16, k * M1);
    }
    if d % M1 == 0 {
      KeptBlock(lo, hi, u, M1, k * M1);
    }
  }

  /** One megabyte block is dropped: the one that starts at lo. */
  lemma DroppedSection(lo: nat, hi: nat, k: nat)
    requires lo % M1 == 0 && lo + M1 <= hi
    ensures k != lo / M1 ==> Whole(lo, hi, M1, k * M1) == Whole(lo + M1, hi, M1, k * M1)
    ensures k == lo / M1 ==> k * M1 == lo && Whole(lo, hi, M1, lo) && !Whole(lo + M1, hi, M1, lo)
  {
  }

  lemma StepSection(lo: nat, hi: nat, d: int, k: nat, e: nat)
    requires 0 <= lo - d && lo % M1 == 0 && d % M1 == 0 && lo + M1 <= hi
    requires !(lo % M16 == 0 && d % M16 == 0 && hi - lo >= M16)
    ensures Closed(lo, hi, d, k, e) == Closed(lo + M1, hi, d, k, if k == lo / M1 then Section(lo - d) else e)
  {
    DroppedSection(lo, hi, k);
    if d % M16 == 0 {
      KeptBlock(lo, hi, M1, M16, k * M1);
      if k == lo / M1 {
        assert !Whole(lo + M1, hi, M16, lo);
      }
    }
  }

  /** One 16 MB block is dropped, and the 16 megabytes in it: those that start at lo. */
  lemma DroppedBlock(lo: nat, hi: nat, k: nat)
    requires lo % M16 == 0 && lo + M16 <= hi
    ensures lo / M1 <= k < lo / M1 + 16 ==> lo <= k * M1 < lo + M16 && k * M1 / M16 * M16 == lo
    ensures !(lo / M1 <= k < lo / M1 + 16) ==> k * M1 < lo || lo + M16 <= k * M1
  {
    var q := lo / M16;
    assert lo == q * M16 && lo / M1 == q * 16;
  }

  lemma OtherBlocks(lo: nat, hi: nat, x: nat)
    requires lo % M16 == 0 && (x < lo || lo + M16 <= x)
    ensures Whole(lo, hi, M16, x) == Whole(lo + M16, hi, M16, x)
  {
    var q := lo / M16;
    assert lo == q * M16;
  }

  lemma OtherMegabytes(lo: nat, hi: nat, k: nat)
    requires lo % M16 == 0 && (k * M1 < lo || lo + M16 <= k * M1)
    ensures Whole(lo, hi, M1, k * M1) == Whole(lo + M16, hi, M1, k * M1)
  {
    assert k * M1 / M1 * M1 == k * M1;
  }

  lemma StepSupersection(lo: nat, hi: nat, d: int, k: nat, e: nat)
    requires 0 <= lo - d && lo % M16 == 0 && d % M16 == 0 && lo + M16 <= hi
    ensures Closed(lo, hi, d, k, e) ==
      Closed(lo + M16, hi, d, k, if lo / M1 <= k < lo / M1 + 16 then Supersection(lo - d) else e)
  {
    DroppedBlock(lo, hi, k);
    if lo / M1 <= k < lo / M1 + 16 {
      InBlock(lo, hi, d, k);
    } else {
      OtherBlocks(lo, hi, k * M1);
      OtherMegabytes(lo, hi, k);
    }
  }

  lemma InBlock(lo: nat, hi: nat, d: int, k: nat)
    requires 0 <= lo - d && lo % M16 == 0 && d % M16 == 0 && lo + M16 <= hi
    requires lo <= k * M1 < lo + M16 && k * M1 / M16 * M16 == lo
    ensures Whole(lo, hi, M16, k * M1) && Supersection(k * M1 - d) == Supersection(lo - d)
    ensures !Whole(lo + M16, hi, M16, k * M1) && !Whole(lo + M16, hi, M1, k * M1)
  {
    SameBlock(lo, d, k * M1);
  }

  lemma SameBlock(lo: nat, d: int, x: nat)
    requires lo % M16 == 0 && d % M16 == 0 && d <= lo <= x < lo + M16
    ensures Supersection(x - d) == Supersection(lo - d)
  {
    SameOffset(lo, lo - d, M16, d);
    var q := (lo - d) / M16;
    assert lo - d == q * M16;
    assert q * M16 <= x - d < (q + 1) * M16;
  }

  /** The unit in terms of the region's offset d. */
  lemma UnitChoice(va: nat, pa: nat, size: nat, d: int)
    requires va % K4 == 0 && pa % K4 == 0 && size % K4 == 0 && size > 0 && d == va - pa
    ensures var u := Unit(va, pa, size);
            && (u == M16 ==> d % M16 == 0)
            && (u < M16 ==> !(va % M16 == 0 && d % M16 == 0 && size >= M16))
            && (u == M1 ==> d % M1 == 0)
            && (u < M1 ==> !(va % M1 == 0 && d % M1 == 0 && size >= M1))
  {
    if va % M16 == 0 {
      SameOffset(va, pa, M16, d);
    }
    if va % M1 == 0 {
      SameOffset(va, pa, M1, d);
    }
  }

  /** One unit keeps the closed form of what is left. */
  lemma StepClosed(va: nat, pa: nat, size: nat, u: nat, k: nat, e: nat)
    requires va % K4 == 0 && pa % K4 == 0 && size % K4 == 0 && size > 0 && u == Unit(va, pa, size)
    ensures Closed(va, va + size, va - pa, k, e) == Closed(va + u, va + size, va - pa, k, AfterUnit(u, va, pa, k, e))
  {
    UnitChoice(va, pa, size, va - pa);
    if u == M16 {
      StepSupersection(va, va + size, va - pa, k, e);
    } else if u == M1 {
      StepSection(va, va + size, va - pa, k, e);
    } else {
      StepSmall(va, va + size, va - pa, u, k, e);
    }
  }

  lemma NothingLeft(va: nat, d: int, k: nat, e: nat)
    requires d <= va
    ensures Closed(va, va, d, k, e) == e
  {
  }

  /** One region: the greedy division gives the closed form. */
  lemma {:induction false} RegionClosed(va: nat, pa: nat, size: nat, k: nat, e: nat)
    requires va % K4 == 0 && pa % K4 == 0 && size % K4 == 0
    ensures AfterRegion(va, pa, size, k, e) == Closed(va, va + size, va - pa, k, e)
    decreases size
  {
    if size > 0 {
      var u := Unit(va, pa, size);
      UnitKeepsAlignment(va, pa, size);
      StepClosed(va, pa, size, u, k, e);
      RegionClosed(va + u, pa + u, size - u, k, AfterUnit(u, va, pa, k, e));
    } else {
      NothingLeft(va, va - pa, k, e);
    }
  }

  // ---------------------------------------------------------------- the table and the list

  /** Region r maps entry k: it holds the whole megabyte, and both sides agree on alignment. */
  predicate Maps(r: Region, k: nat) {
    (r.va - r.pa) % M1 == 0 && r.va <= k * M1 && (k + 1) * M1 <= r.va + r.len
  }

  /** Division by its definition. */
  lemma Quotient(e: nat, n: nat, a: nat, r: nat)
    requires n > 0 && e == a * n + r && r < n
    ensures e / n == a
  {
    var k := e / n - a;
    assert k * n == r - e % n;
    assert k >= 1 ==> k * n >= n;
    assert k <= -1 ==> k * n + n <= 0;
  }

  lemma SectionWalk(p: nat, va: nat)
    requires p % M1 == 0
    ensures WalkEntry(Section(p), va) == Some(p + va % M1)
  {
    var q := p / M1;
    Quotient(Section(p), 2, q * 0x8_0000 + 1, 0);
    Quotient(Section(p), 0x4_0000, q * 4, 2);
    Quotient(Section(p), M1, q, 2);
  }

  lemma SupersectionIsMapped(q: nat, e: nat, m: nat)
    requires e == q * M16 + 0x4_0002 && m == q * 0x40_0000 + 0x1_0000
    ensures e / 2 % 2 == 1
  {
    Quotient(e, 2, 2 * m + 1, 0);
  }

  lemma SupersectionIsMarked(q: nat, e: nat, m: nat)
    requires e == q * M16 + 0x4_0002 && m == q * 32
    ensures e / 0x4_0000 % 2 == 1
  {
    Quotient(e, 0x4_0000, 2 * m + 1, 2);
  }

  lemma SupersectionBase(q: nat, e: nat)
    requires e == q * M16 + 0x4_0002
    ensures e / M16 == q && e / M1 % 16 == 0
  {
    Quotient(e, M16, q, 0x4_0002);
    Quotient(e, M1, q * 16, 0x4_0002);
  }

  lemma SupersectionExtension(q: nat, e: nat, m: nat)
    requires e == q * M16 + 0x4_0002 && m == q * 0x8000 + 0x200
    ensures e / 32 % 16 == 0
  {
    Quotient(e, 32, 16 * m, 2);
  }

  lemma SupersectionWalk(p: nat, va: nat)
    requires p % M16 == 0
    ensures WalkEntry(Supersection(p), va) == Some(p + va % M16)
  {
    var q, e := p / M16, Supersection(p);
    SupersectionIsMapped(q, e, q * 0x40_0000 + 0x1_0000);
    SupersectionIsMarked(q, e, q * 32);
    SupersectionBase(q, e);
    SupersectionExtension(q, e, q * 0x8000 + 0x200);
  }

  lemma SectionTranslates(d: int, k: nat, va: nat)
    requires d % M1 == 0 && d <= k * M1 && va / M1 == k
    ensures WalkEntry(Section(k * M1 - d), va) == Some(va - d)
  {
    SectionWalk(k * M1 - d, va);
  }

  lemma BlockOffset(k: nat, va: nat, base: nat)
    requires base == k * M1 / M16 * M16 && va / M1 == k
    ensures va % M16 == va - base
  {
    var q := k * M1 / M16;
    assert q * M16 <= k * M1 && k * M1 + M1 <= q * M16 + M16;
    Quotient(va, M16, q, va - q * M16);
  }

  lemma SupersectionTranslates(d: int, k: nat, va: nat, base: nat)
    requires d % M16 == 0 && base == k * M1 / M16 * M16 && d <= base && va / M1 == k
    ensures WalkEntry(Supersection(k * M1 - d), va) == Some(va - d)
  {
    SuperBase(base, d, k * M1);
    SupersectionWalk(base - d, va);
    BlockOffset(k, va, base);
  }

  /** An entry that a region sets translates every address of its megabyte by the region's offset. */
  lemma EntryTranslates(r: Region, k: nat, e: nat, va: nat)
    requires Fits(r) && Maps(r, k) && va / M1 == k
    ensures WalkEntry(Closed(r.va, r.va + r.len, r.va - r.pa, k, e), va) == Some(r.pa + (va - r.va))
  {
    var d, x := r.va - r.pa, k * M1;
    assert x / M1 * M1 == x;
    if d % M16 == 0 && Whole(r.va, r.va + r.len, M16, x) {
      SupersectionTranslates(d, k, va, x / M16 * M16);
    } else {
      SectionTranslates(d, k, va);
    }
  }

  lemma SuperBase(base: nat, d: int, x: nat)
    requires base == x / M16 * M16 && d % M16 == 0 && d <= base
    ensures (base - d) % M16 == 0 && Supersection(x - d) == Supersection(base - d)
  {
    SameBlock(base, d, x);
  }

  lemma EntryUnchanged(r: Region, k: nat, e: nat)
    requires Fits(r) && !Maps(r, k)
    ensures Closed(r.va, r.va + r.len, r.va - r.pa, k, e) == e
  {
    var x := k * M1;
    assert x / M1 * M1 == x;
    assert x / M16 * M16 <= x && x + M1 <= x / M16 * M16 + M16;
    assert (r.va - r.pa) % M16 == 0 ==> (r.va - r.pa) % M1 == 0;
  }

  /** What one region does to entry k. */
  lemma RegionEntry(r: Region, k: nat, e: nat, va: nat)
    requires Fits(r) && va / M1 == k
    ensures Maps(r, k) ==> WalkEntry(AfterRegion(r.va, r.pa, r.len, k, e), va) == Some(r.pa + (va - r.va))
    ensures !Maps(r, k) ==> AfterRegion(r.va, r.pa, r.len, k, e) == e
  {
    RegionClosed(r.va, r.pa, r.len, k, e);
    if Maps(r, k) {
      EntryTranslates(r, k, e, va);
    } else {
      EntryUnchanged(r, k, e);
    }
  }

  lemma DescriptorFits(pa: nat)
    requires pa < WORD
    ensures Section(pa) < WORD && Supersection(pa) < WORD
  {
  }

  lemma EntryFits(r: Region, k: nat, e: nat)
    requires Fits(r) && e < WORD
    ensures AfterRegion(r.va, r.pa, r.len, k, e) < WORD
  {
    RegionClosed(r.va, r.pa, r.len, k, e);
    if Maps(r, k) {
      DescriptorFits(k * M1 - (r.va - r.pa));
    } else {
      EntryUnchanged(r, k, e);
    }
  }

  /** Every entry is a 32-bit word. */
  lemma {:induction false} EntriesFit(rs: seq<Region>, k: nat)
    requires AllFit(rs)
    ensures AfterRegions(rs, k) < WORD
  {
    if rs != [] {
      var r := rs[|rs| - 1];
      EntriesFit(rs[..|rs| - 1], k);
      EntryFits(r, k, AfterRegions(rs[..|rs| - 1], k));
    }
  }

  /** Only address, type and, for supersections, bit 18 are set: domain 0, no access bits, no cache bits. */
  predicate PlainEntry(e: nat) {
    e == 0 || e % M1 == 0x2 || e % M16 == 0x4_0002
  }

  lemma DescriptorPlain(pa: nat)
    ensures PlainEntry(Section(pa)) && PlainEntry(Supersection(pa))
  {
    assert Section(pa) % M1 == 0x2;
    assert Supersection(pa) % M16 == 0x4_0002;
  }

  lemma EntryPlain(r: Region, k: nat, e: nat)
    requires Fits(r) && PlainEntry(e)
    ensures PlainEntry(AfterRegion(r.va, r.pa, r.len, k, e))
  {
    RegionClosed(r.va, r.pa, r.len, k, e);
    if Maps(r, k) {
      DescriptorPlain(k * M1 - (r.va - r.pa));
    } else {
      EntryUnchanged(r, k, e);
    }
  }

  /** Every entry is plain. */
  lemma {:induction false} EntriesPlain(rs: seq<Region>, k: nat)
    requires AllFit(rs)
    ensures PlainEntry(AfterRegions(rs, k))
  {
    if rs != [] {
      var r := rs[|rs| - 1];
      EntriesPlain(rs[..|rs| - 1], k);
      EntryPlain(r, k, AfterRegions(rs[..|rs| - 1], k));
    }
  }

  lemma NoEntryFaults(va: nat)
    ensures WalkEntry(0, va) == None
  {
  }

  /** Which region the entry comes from. */
  lemma {:induction false} Source(rs: seq<Region>, va: nat) returns (i: nat)
    requires AllFit(rs) && AfterRegions(rs, va / M1) != 0
    ensures i < |rs| && Maps(rs[i], va / M1)
    ensures WalkEntry(AfterRegions(rs, va / M1), va) == Some(rs[i].pa + (va - rs[i].va))
  {
    var n := |rs| - 1;
    RegionEntry(rs[n], va / M1, AfterRegions(rs[..n], va / M1), va);
    if Maps(rs[n], va / M1) {
      i := n;
    } else {
      i := Source(rs[..n], va);
    }
  }

  lemma {:induction false} Mapped(rs: seq<Region>, va: nat, i: nat)
    requires AllFit(rs) && i < |rs| && Maps(rs[i], va / M1)
    ensures AfterRegions(rs, va / M1) != 0
  {
    var n := |rs| - 1;
    RegionEntry(rs[n], va / M1, AfterRegions(rs[..n], va / M1), va);
    if Maps(rs[n], va / M1) {
      NoEntryFaults(va);
    } else {
      Mapped(rs[..n], va, i);
    }
  }

  /** Exactly the megabytes that lie in a region with equal alignment on both sides are mapped. */
  lemma MappedExactly(rs: seq<Region>, k: nat)
    requires AllFit(rs)
    ensures AfterRegions(rs, k) != 0 <==> exists i :: 0 <= i < |rs| && Maps(rs[i], k)
  {
    if AfterRegions(rs, k) != 0 {
      assert k * M1 / M1 == k;
      var i := Source(rs, k * M1);
    }
    if i :| 0 <= i < |rs| && Maps(rs[i], k) {
      assert k * M1 / M1 == k;
      Mapped(rs, k * M1, i);
    }
  }

  lemma {:induction false} VaToPaIs(rs: seq<Region>, va: nat, i: nat)
    requires AllFit(rs) && Disjoint(rs) && i < |rs| && In(rs[i], va)
    ensures VaToPa(rs, va) == Some(rs[i].pa + (va - rs[i].va))
    decreases |rs|
  {
    if i > 0 {
      assert !In(rs[0], va);
      VaToPaIs(rs[1..], va, i - 1);
    }
  }

  predicate IsTable(t: seq<nat>, rs: seq<Region>)
    requires AllFit(rs)
  {
    |t| == ENTRIES && forall k :: 0 <= k < ENTRIES ==> t[k] == AfterRegions(rs, k)
  }

  /** The walk through any nonzero entry agrees with va_to_pa; an unmapped address faults. */
  lemma WalkAgrees(t: seq<nat>, rs: seq<Region>, va: nat)
    requires AllFit(rs) && Disjoint(rs) && IsTable(t, rs) && va < WORD
    ensures t[va / M1] != 0 ==> Walk(t, va).Some? && Walk(t, va) == VaToPa(rs, va)
    ensures t[va / M1] == 0 ==> Walk(t, va) == None
  {
    if t[va / M1] != 0 {
      var i := Source(rs, va);
      assert In(rs[i], va);
      VaToPaIs(rs, va, i);
    }
  }

  /** With whole megabytes everywhere, the table is the list: same addresses, same translation. */
  lemma WholeMegabytes(t: seq<nat>, rs: seq<Region>, va: nat)
    requires AllFit(rs) && Disjoint(rs) && IsTable(t, rs) && va < WORD
    requires forall i :: 0 <= i < |rs| ==> rs[i].va % M1 == 0 && rs[i].pa % M1 == 0 && rs[i].len % M1 == 0
    ensures Walk(t, va) == VaToPa(rs, va)
  {
    WalkAgrees(t, rs, va);
    if VaToPa(rs, va).Some? {
      var i := HolderOf(rs, va);
      WholeRegion(rs[i], va);
      Mapped(rs, va, i);
    }
  }

  lemma {:induction false} HolderOf(rs: seq<Region>, va: nat) returns (i: nat)
    requires VaToPa(rs, va).Some?
    ensures i < |rs| && In(rs[i], va)
    decreases |rs|
  {
    if In(rs[0], va) {
      i := 0;
    } else {
      i := HolderOf(rs[1..], va);
      i := i + 1;
    }
  }

  lemma WholeRegion(r: Region, va: nat)
    requires r.va % M1 == 0 && r.pa % M1 == 0 && r.len % M1 == 0 && In(r, va)
    ensures Maps(r, va / M1)
  {
  }

  /** Otherwise an address of a region can be unmapped: here its megabyte is not all in the region. */
  lemma PartialMegabyteUnmapped()
    ensures var rs := [Region(0x1000, 0x1000, 0x1000)];
            AllFit(rs) && VaToPa(rs, 0x1000) == Some(0x1000) && AfterRegions(rs, 0) == 0
  {
    var rs := [Region(0x1000, 0x1000, 0x1000)];
    MappedExactly(rs, 0);
  }
}
