/**
  The post-processor's two tables, filled in place (src/utils/genextbin.c): the list of regions and
  the first-level page table.
 */
module FirmwareMmu {
  import opened Types
  import opened PageTable

  const SLOTS: nat := 20

  const BLANK := Region(0, 0, 0)

  /** What a search of the table sees: the entries before the first of length zero. */
  function Used(t: seq<Region>): (rs: seq<Region>)
    ensures |rs| <= |t| && rs == t[..|rs|] && (|rs| < |t| ==> t[|rs|].len == 0)
    ensures forall i :: 0 <= i < |rs| ==> rs[i].len > 0
  {
    if t == [] || t[0].len == 0 then []
    else
      var rest := Used(t[1..]);
      assert t[..|rest| + 1] == [t[0]] + t[1..][..|rest|];
      [t[0]] + rest
  }

  /** The table's 20 slots: the entries added so far, then blank ones. */
  predicate Slots(t: seq<Region>, added: seq<Region>) {
    |t| == SLOTS && |added| <= SLOTS && t[..|added|] == added &&
    (forall i :: 0 <= i < |added| ==> added[i] != BLANK) &&
    forall i :: |added| <= i < SLOTS ==> t[i] == BLANK
  }

  /** The entry that is added, unless the table is full. */
  function Added(added: seq<Region>, r: Region): seq<Region> {
    if |added| < SLOTS then added + [r] else added
  }

  /** The blank slots do not show. */
  lemma {:induction false} UsedSlots(t: seq<Region>, n: nat)
    requires n <= |t| && (n < |t| ==> t[n].len == 0)
    ensures Used(t) == Used(t[..n])
    decreases n
  {
    if n > 0 && t[0].len > 0 {
      UsedSlots(t[1..], n - 1);
      assert t[..n][1..] == t[1..][..n - 1];
    }
  }

  lemma {:induction false} PrefixMisses(rs: seq<Region>, n: nat, va: nat)
    requires n <= |rs| && forall i :: 0 <= i < n ==> !In(rs[i], va)
    ensures VaToPa(rs, va) == VaToPa(rs[n..], va)
    decreases n
  {
    if n == 0 {
      assert rs[0..] == rs;
    } else {
      PrefixMisses(rs[1..], n - 1, va);
      assert rs[1..][n - 1..] == rs[n..];
    }
  }

  class Mmu {
    var regions: array<Region>
    var l1: array<nat>
    ghost var added: seq<Region>

    ghost predicate Valid()
      reads this, regions
    {
      Slots(regions[..], added) && l1.Length == ENTRIES
    }

    constructor ()
      ensures Valid() && fresh(regions) && fresh(l1) && added == []
      ensures forall k :: 0 <= k < ENTRIES ==> l1[k] == 0
    {
      regions := new Region[SLOTS](_ => BLANK);
      l1 := new nat[ENTRIES](_ => 0);
      added := [];
    }

    /** add_mem_entry: fails exactly when all slots are taken. */
    method AddMemEntry(r: Region) returns (ok: bool)
      requires Valid() && r != BLANK
      modifies regions, this`added
      ensures Valid() && ok == (|old(added)| < SLOTS) && added == Added(old(added), r)
    {
      assert forall k :: 0 <= k < |added| ==> regions[k] == added[k];
      var i := 0;
      while i < SLOTS && (regions[i].va > 0 || regions[i].pa > 0 || regions[i].len > 0)
        invariant i <= |added|
      {
        i := i + 1;
      }
      ok := i < SLOTS;
      if ok {
        regions[i] := r;
        added := added + [r];
        assert regions[..][..i + 1] == old(regions[..])[..i] + [r];
      }
    }

    /** va_to_pa; a full list would not end. */
    method Translate(va: nat) returns (pa: Option<nat>)
      requires Valid() && |Used(added)| < SLOTS
      ensures pa == VaToPa(Used(added), va)
    {
      ghost var rs := Used(regions[..]);
      UsedSlots(regions[..], |added|);
      var i := 0;
      while regions[i].len > 0
        invariant i <= |rs| && forall k :: 0 <= k < i ==> !In(rs[k], va)
        decreases |rs| - i
      {
        PrefixMisses(rs, i, va);
        if regions[i].va <= va < regions[i].va + regions[i].len {
          return Some(regions[i].pa + (va - regions[i].va));
        }
        i := i + 1;
      }
      PrefixMisses(rs, i, va);
      pa := None;
    }

    /** One unit of a region: 16 equal entries, one entry, or only a message. */
    method MapUnit(u: nat, va: nat, pa: nat)
      requires l1.Length == ENTRIES && (u == M16 || u == M1 || u == K64 || u == K4) && va % u == 0 && va + u <= WORD
      modifies l1
      ensures forall k :: 0 <= k < ENTRIES ==> l1[k] == AfterUnit(u, va, pa, k, old(l1[k]))
    {
      var index := va / M1;
      if u == M16 {
        var j := 0;
        while j < 16
          invariant j <= 16
          invariant forall k :: 0 <= k < ENTRIES ==>
            l1[k] == if index <= k < index + j then Supersection(pa) else old(l1[k])
        {
          l1[index + j] := Supersection(pa);
          j := j + 1;
        }
      } else if u == M1 {
        l1[index] := Section(pa);
      }
    }

    /** The inner loop of create_ttb. */
    method MapRegion(r: Region)
      requires l1.Length == ENTRIES && Fits(r)
      modifies l1
      ensures forall k :: 0 <= k < ENTRIES ==> l1[k] == AfterRegion(r.va, r.pa, r.len, k, old(l1[k]))
    {
      var va: nat, pa: nat, size: nat := r.va, r.pa, r.len;
      while size > 0
        invariant va % K4 == 0 && pa % K4 == 0 && size % K4 == 0
        invariant va + size == r.va + r.len && pa + size == r.pa + r.len
        invariant forall k :: 0 <= k < ENTRIES ==>
          AfterRegion(va, pa, size, k, l1[k]) == AfterRegion(r.va, r.pa, r.len, k, old(l1[k]))
        decreases size
      {
        var u := Unit(va, pa, size);
        UnitKeepsAlignment(va, pa, size);
        MapUnit(u, va, pa);
        va, pa, size := va + u, pa + u, size - u;
      }
    }

    /** One turn of the outer loop of create_ttb. */
    method MapOne(r: Region, ghost done: seq<Region>)
      requires Fits(r) && AllFit(done) && IsTable(l1[..], done)
      modifies l1
      ensures AllFit(done + [r]) && IsTable(l1[..], done + [r])
    {
      MapRegion(r);
      assert (done + [r])[..|done|] == done;
    }

    /** The slots up to the first blank one are the list. */
    lemma UsedOnly() returns (rs: seq<Region>)
      requires Valid() && |Used(added)| < SLOTS && AllFit(Used(added))
      ensures rs == Used(regions[..]) == Used(added) && |rs| < SLOTS
      ensures rs == regions[..|rs|] && regions[|rs|].len == 0
    {
      UsedSlots(regions[..], |added|);
      rs := Used(regions[..]);
    }

    /** create_ttb, on the table that process_image has cleared. */
    method CreateTtb()
      requires Valid() && |Used(added)| < SLOTS && AllFit(Used(added))
      requires forall k :: 0 <= k < ENTRIES ==> l1[k] == 0
      modifies l1
      ensures Valid() && IsTable(l1[..], Used(added))
    {
      ghost var t := regions[..];
      ghost var rs := UsedOnly();
      var i := 0;
      while regions[i].pa > 0 && regions[i].len > 0
        invariant i <= |rs| && AllFit(rs[..i]) && IsTable(l1[..], rs[..i])
        decreases |rs| - i
      {
        assert regions[i] == t[i] == rs[i];
        assert rs[..i + 1] == rs[..i] + [rs[i]];
        MapOne(regions[i], rs[..i]);
        i := i + 1;
      }
      assert regions[i] == t[i];
      assert rs[..i] == rs;
    }
  }
}
