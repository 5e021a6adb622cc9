/**
  How addresses move when the loader places a module's segments (src/utils/elfload/dload.c):
  symbols, the entry point and the dynamic tags are each moved by their own piece of code, all
  in 32-bit arithmetic.  One piecewise map describes all three.
 */
module Placement {
  import opened Types

  const WORD: nat := 0x1_0000_0000
  const MARK: nat := 0x7FFF    // INT16_MAX in st_shndx: symbol already moved

  /** Original address, size in memory, and the address the client allocated. */
  datatype Segment = Segment(vaddr: nat, memsz: nat, target: nat)

  datatype Symbol = Symbol(value: nat, shndx: nat)

  datatype Entry = Entry(value: nat, pending: bool)

  /**
    Plain         tags whose value is not an address, DT_JMPREL, and the target's known tags
    Section       DT_PREINIT_ARRAY, DT_INIT, DT_INIT_ARRAY
    Fini, FiniArray   addresses that are also kept in the loaded module
    FiniArraySize     a size that is kept in the loaded module
    Unknown       tags that the target does not know
   */
  datatype Kind = Plain | Section | Fini | FiniArray | FiniArraySize | Unknown

  datatype Tag = Tag(kind: Kind, value: nat)

  function Wrap(x: int): nat {
    x % WORD
  }

  predicate Fits(g: Segment) {
    g.vaddr < WORD && g.memsz < WORD && g.target < WORD
  }

  /** Neither the old nor the new range reaches the end of the address space. */
  predicate NoWrap(g: Segment) {
    g.vaddr + g.memsz < WORD && g.target + g.memsz < WORD
  }

  // ---------------------------------------------------------------- the code's three ways

  /** The body of the symbol loop for one segment. */
  function PlaceSymbol(g: Segment, s: Symbol): Symbol {
    var adjusted := Wrap(s.value + g.target - g.vaddr);
    if g.target <= adjusted < Wrap(g.target + g.memsz) && s.shndx != MARK
    then Symbol(adjusted, MARK) else s
  }

  /** The entry point test for one segment. */
  function PlaceEntry(g: Segment, e: Entry): Entry {
    if e.pending && g.vaddr <= e.value < Wrap(g.vaddr + g.memsz)
    then Entry(Wrap(e.value + g.target - g.vaddr), false) else e
  }

  function Symbols(gs: seq<Segment>, s: Symbol): Symbol {
    if gs == [] then s else PlaceSymbol(gs[|gs| - 1], Symbols(gs[..|gs| - 1], s))
  }

  function EntryPoint(gs: seq<Segment>, e: Entry): Entry {
    if gs == [] then e else PlaceEntry(gs[|gs| - 1], EntryPoint(gs[..|gs| - 1], e))
  }

  /** DLIMP_update_dyntag_section_address: None if no segment holds the address. */
  function TagAddress(gs: seq<Segment>, v: nat): Option<nat> {
    if gs == [] then None
    else if gs[0].vaddr <= v < Wrap(gs[0].vaddr + gs[0].memsz) then Some(Wrap(v + gs[0].target - gs[0].vaddr))
    else TagAddress(gs[1..], v)
  }

  // ---------------------------------------------------------------- the one map

  predicate Holds(g: Segment, v: nat) {
    g.vaddr <= v < g.vaddr + g.memsz
  }

  /** The first segment that holds v; the number of segments if there is none. */
  function Home(gs: seq<Segment>, v: nat): (i: nat)
    ensures i <= |gs|
    ensures i < |gs| ==> Holds(gs[i], v)
    ensures forall k :: 0 <= k < i ==> !Holds(gs[k], v)
  {
    if gs == [] || Holds(gs[0], v) then 0 else 1 + Home(gs[1..], v)
  }

  /** An address moves with the segment that holds it, and stays if there is none. */
  function Shift(gs: seq<Segment>, v: nat): int {
    var i := Home(gs, v);
    if i < |gs| then v + gs[i].target - gs[i].vaddr else v
  }

  lemma WrapSmall(x: int)
    requires 0 <= x < WORD
    ensures Wrap(x) == x
  {
  }

  /** The new-range test of the symbol loop is the old-range test. */
  lemma NewRangeIsOld(g: Segment, v: nat)
    requires NoWrap(g) && v < WORD
    ensures g.target <= Wrap(v + g.target - g.vaddr) < Wrap(g.target + g.memsz) <==> Holds(g, v)
    ensures Holds(g, v) ==> Wrap(v + g.target - g.vaddr) == v + g.target - g.vaddr
  {
    WrapSmall(g.target + g.memsz);
    var x := v + g.target - g.vaddr;
    assert 0 < x + WORD < 3 * WORD;
    if x < 0 {
      assert Wrap(x) == x + WORD;
    } else if x >= WORD {
      assert Wrap(x) == x - WORD;
    }
  }

  lemma HomeAppend(gs: seq<Segment>, v: nat)
    requires gs != []
    ensures var i := Home(gs[..|gs| - 1], v);
            Home(gs, v) == if i < |gs| - 1 then i else if Holds(gs[|gs| - 1], v) then i else i + 1
  {
    var i := Home(gs, v);
    var k := Home(gs[..|gs| - 1], v);
    assert forall l :: 0 <= l < |gs| - 1 ==> gs[..|gs| - 1][l] == gs[l];
  }

  /** Every symbol that was not marked before ends at Shift of its value, moved once if at all. */
  lemma {:induction false} SymbolsShift(gs: seq<Segment>, s: Symbol)
    requires (forall i :: 0 <= i < |gs| ==> NoWrap(gs[i])) && s.value < WORD && s.shndx != MARK
    ensures Symbols(gs, s).value == Shift(gs, s.value)
    ensures Symbols(gs, s).shndx == if Home(gs, s.value) < |gs| then MARK else s.shndx
  {
    if gs != [] {
      SymbolsShift(gs[..|gs| - 1], s);
      HomeAppend(gs, s.value);
      NewRangeIsOld(gs[|gs| - 1], s.value);
    }
  }

  /** A symbol that carries the mark from the start is never moved. */
  lemma {:induction false} MarkedStays(gs: seq<Segment>, s: Symbol)
    requires s.shndx == MARK
    ensures Symbols(gs, s) == s
  {
    if gs != [] {
      MarkedStays(gs[..|gs| - 1], s);
    }
  }

  lemma {:induction false} EntryShift(gs: seq<Segment>, v: nat)
    requires (forall i :: 0 <= i < |gs| ==> NoWrap(gs[i])) && v < WORD
    ensures EntryPoint(gs, Entry(v, true)).value == Shift(gs, v)
    ensures EntryPoint(gs, Entry(v, true)).pending <==> Home(gs, v) == |gs|
  {
    if gs != [] {
      var g := gs[|gs| - 1];
      EntryShift(gs[..|gs| - 1], v);
      HomeAppend(gs, v);
      NewRangeIsOld(g, v);
      WrapSmall(g.vaddr + g.memsz);
    }
  }

  lemma {:induction false} TagShift(gs: seq<Segment>, v: nat)
    requires (forall i :: 0 <= i < |gs| ==> NoWrap(gs[i])) && v < WORD
    ensures Home(gs, v) < |gs| ==> Shift(gs, v) >= 0 && TagAddress(gs, v) == Some(Shift(gs, v))
    ensures Home(gs, v) == |gs| ==> TagAddress(gs, v) == None
  {
    if gs != [] {
      WrapSmall(gs[0].vaddr + gs[0].memsz);
      NewRangeIsOld(gs[0], v);
      if !Holds(gs[0], v) {
        TagShift(gs[1..], v);
        assert Home(gs, v) == 1 + Home(gs[1..], v);
      }
    }
  }

  /**
    One map for everything: with ranges that do not wrap, and wherever the segments are placed, a
    symbol, the entry point and a tag with the same address end at the same address.
   */
  lemma OneMap(gs: seq<Segment>, v: nat, shndx: nat)
    requires (forall i :: 0 <= i < |gs| ==> NoWrap(gs[i])) && v < WORD && shndx != MARK
    ensures Symbols(gs, Symbol(v, shndx)).value == EntryPoint(gs, Entry(v, true)).value == Shift(gs, v)
    ensures TagAddress(gs, v).Some? <==> Home(gs, v) < |gs|
    ensures TagAddress(gs, v).Some? ==> TagAddress(gs, v).value == Shift(gs, v)
  {
    SymbolsShift(gs, Symbol(v, shndx));
    EntryShift(gs, v);
    TagShift(gs, v);
  }

  predicate DisjointSegments(gs: seq<Segment>) {
    forall i, k :: 0 <= i < k < |gs| ==>
      gs[i].vaddr + gs[i].memsz <= gs[k].vaddr || gs[k].vaddr + gs[k].memsz <= gs[i].vaddr ||
      gs[i].memsz == 0 || gs[k].memsz == 0
  }

  /** With disjoint originals the map is each segment's own offset on its own addresses. */
  lemma OwnOffset(gs: seq<Segment>, i: nat, v: nat)
    requires DisjointSegments(gs) && i < |gs| && Holds(gs[i], v)
    ensures Shift(gs, v) == v + gs[i].target - gs[i].vaddr
  {
    var k := Home(gs, v);
    assert k <= i;
  }

  // ---------------------------------------------------------------- when the one map is right

  /** The segment's test moves a symbol at v. */
  predicate SymbolMoves(g: Segment, v: nat) {
    PlaceSymbol(g, Symbol(v, 0)).shndx == MARK
  }

  predicate EntryMoves(g: Segment, v: nat) {
    !PlaceEntry(g, Entry(v, true)).pending
  }

  lemma WrapBig(x: int)
    requires WORD <= x < 2 * WORD
    ensures Wrap(x) == x - WORD
  {
  }

  /** A range that reaches the end of the address space has an empty test. */
  lemma NothingInside(start: nat, memsz: nat, x: nat)
    requires start < WORD && memsz < WORD && start + memsz >= WORD
    ensures !(start <= x < Wrap(start + memsz))
  {
    WrapBig(start + memsz);
  }

  lemma WrappedSymbolStays(g: Segment, v: nat)
    requires Fits(g) && g.target + g.memsz >= WORD
    ensures !SymbolMoves(g, v)
  {
    NothingInside(g.target, g.memsz, Wrap(v + g.target - g.vaddr));
  }

  lemma WrappedEntryStays(g: Segment, v: nat)
    requires Fits(g) && g.vaddr + g.memsz >= WORD
    ensures !EntryMoves(g, v) && TagAddress([g], v).None?
  {
    NothingInside(g.vaddr, g.memsz, v);
    assert [g][1..] == [];
  }

  /** With an old range that does not wrap, a segment's entry test is exactly that it holds the address. */
  lemma EntryMovesIff(g: Segment, v: nat)
    requires g.vaddr + g.memsz < WORD
    ensures EntryMoves(g, v) <==> Holds(g, v)
    ensures TagAddress([g], v).Some? <==> Holds(g, v)
  {
    WrapSmall(g.vaddr + g.memsz);
    assert [g][1..] == [];
  }

  lemma SymbolMovesIff(g: Segment, v: nat)
    requires NoWrap(g) && v < WORD
    ensures SymbolMoves(g, v) <==> Holds(g, v)
  {
    NewRangeIsOld(g, v);
  }

  /** Of one segment: entry points and tags move exactly if the old range ends below 2^32. */
  lemma EntryCondition(g: Segment)
    requires Fits(g)
    ensures (forall v: nat :: Holds(g, v) && v < WORD ==> EntryMoves(g, v)) <==> g.vaddr + g.memsz < WORD
    ensures (forall v: nat :: Holds(g, v) && v < WORD ==> TagAddress([g], v).Some?) <==> g.vaddr + g.memsz < WORD
  {
    if g.vaddr + g.memsz < WORD {
      forall v: nat | Holds(g, v) ensures EntryMoves(g, v) && TagAddress([g], v).Some? {
        EntryMovesIff(g, v);
      }
    } else {
      assert Holds(g, g.vaddr);
      WrappedEntryStays(g, g.vaddr);
    }
  }

  /** Symbols move exactly if the new range ends below 2^32. */
  lemma SymbolCondition(g: Segment)
    requires Fits(g)
    ensures (forall v: nat :: Holds(g, v) && v < WORD ==> SymbolMoves(g, v)) <==> g.target + g.memsz < WORD
  {
    if g.target + g.memsz < WORD {
      forall v: nat | Holds(g, v) && v < WORD ensures SymbolMoves(g, v) {
        WrapSmall(g.target + g.memsz);
        WrapSmall(v + g.target - g.vaddr);
      }
    } else {
      assert Holds(g, g.vaddr);
      WrappedSymbolStays(g, g.vaddr);
    }
  }

  /** Symbol, entry point and tag at v are all moved, and to one place. */
  predicate MovedTogether(gs: seq<Segment>, v: nat) {
    Shift(gs, v) >= 0 &&
    Symbols(gs, Symbol(v, 0)) == Symbol(Shift(gs, v), MARK) &&
    EntryPoint(gs, Entry(v, true)) == Entry(Shift(gs, v), false) &&
    TagAddress(gs, v) == Some(Shift(gs, v))
  }

  lemma {:induction false} EntryUnmoved(gs: seq<Segment>, v: nat)
    requires forall i :: 0 <= i < |gs| ==> !EntryMoves(gs[i], v)
    ensures EntryPoint(gs, Entry(v, true)) == Entry(v, true)
  {
    if gs != [] {
      EntryUnmoved(gs[..|gs| - 1], v);
      assert !EntryMoves(gs[|gs| - 1], v);
    }
  }

  lemma {:induction false} SymbolUnmoved(gs: seq<Segment>, v: nat)
    requires forall i :: 0 <= i < |gs| ==> !SymbolMoves(gs[i], v)
    ensures Symbols(gs, Symbol(v, 0)) == Symbol(v, 0)
  {
    if gs != [] {
      SymbolUnmoved(gs[..|gs| - 1], v);
      assert !SymbolMoves(gs[|gs| - 1], v);
    }
  }

  /** A segment whose old range wraps leaves the entry point at its start behind. */
  lemma OldWrapBreaks(gs: seq<Segment>, i: nat)
    requires DisjointSegments(gs) && (forall k :: 0 <= k < |gs| ==> Fits(gs[k])) && i < |gs|
    requires gs[i].vaddr + gs[i].memsz >= WORD
    ensures Holds(gs[i], gs[i].vaddr) && !MovedTogether(gs, gs[i].vaddr)
  {
    var v := gs[i].vaddr;
    forall k | 0 <= k < |gs| ensures !EntryMoves(gs[k], v) {
      if gs[k].vaddr + gs[k].memsz >= WORD {
        WrappedEntryStays(gs[k], v);
      } else {
        EntryMovesIff(gs[k], v);
      }
    }
    EntryUnmoved(gs, v);
  }

  /** If only new ranges wrap, such a segment leaves the symbol at its start behind. */
  lemma NewWrapBreaks(gs: seq<Segment>, i: nat)
    requires DisjointSegments(gs) && (forall k :: 0 <= k < |gs| ==> Fits(gs[k])) && i < |gs|
    requires forall k :: 0 <= k < |gs| ==> gs[k].vaddr + gs[k].memsz < WORD
    requires gs[i].target + gs[i].memsz >= WORD
    ensures Holds(gs[i], gs[i].vaddr) && !MovedTogether(gs, gs[i].vaddr)
  {
    var v := gs[i].vaddr;
    forall k | 0 <= k < |gs| ensures !SymbolMoves(gs[k], v) {
      if gs[k].target + gs[k].memsz >= WORD {
        WrappedSymbolStays(gs[k], v);
      } else {
        SymbolMovesIff(gs[k], v);
      }
    }
    SymbolUnmoved(gs, v);
  }

  lemma NoWrapMoves(gs: seq<Segment>, v: nat, i: nat)
    requires (forall k :: 0 <= k < |gs| ==> NoWrap(gs[k])) && v < WORD && i < |gs| && Holds(gs[i], v)
    ensures MovedTogether(gs, v)
  {
    assert Home(gs, v) <= i;
    SymbolsShift(gs, Symbol(v, 0));
    EntryShift(gs, v);
    TagShift(gs, v);
  }

  predicate Held(gs: seq<Segment>, v: nat) {
    exists i :: 0 <= i < |gs| && Holds(gs[i], v)
  }

  /**
    The exact condition, for disjoint segments wherever they are placed: every symbol, entry point
    and tag that a segment holds is moved, and all to one place, if and only if no segment's old
    or new range reaches the end of the address space.
   */
  lemma OneMapCondition(gs: seq<Segment>)
    requires DisjointSegments(gs) && forall k :: 0 <= k < |gs| ==> Fits(gs[k])
    ensures (forall v: nat :: v < WORD && Held(gs, v) ==> MovedTogether(gs, v)) <==> forall k :: 0 <= k < |gs| ==> NoWrap(gs[k])
  {
    if forall k :: 0 <= k < |gs| ==> NoWrap(gs[k]) {
      forall v: nat | v < WORD && Held(gs, v) ensures MovedTogether(gs, v) {
        var i :| 0 <= i < |gs| && Holds(gs[i], v);
        NoWrapMoves(gs, v, i);
      }
    } else if i :| 0 <= i < |gs| && gs[i].vaddr + gs[i].memsz >= WORD {
      OldWrapBreaks(gs, i);
      assert Held(gs, gs[i].vaddr);
    } else {
      var i :| 0 <= i < |gs| && !NoWrap(gs[i]);
      NewWrapBreaks(gs, i);
      assert Held(gs, gs[i].vaddr);
    }
  }

  /** For instance, a segment that ends at the top moves its symbols but no entry point or tag. */
  lemma WrapSplitsTheMap()
    ensures var g := Segment(0xFFFF_F000, 0x1000, 0x1000);
            && Fits(g) && SymbolMoves(g, 0xFFFF_F800)
            && !EntryMoves(g, 0xFFFF_F800) && TagAddress([g], 0xFFFF_F800) == None
  {
    WrappedEntryStays(Segment(0xFFFF_F000, 0x1000, 0x1000), 0xFFFF_F800);
  }

  // ---------------------------------------------------------------- the dynamic table

  predicate IsAddress(k: Kind) {
    k == Section || k == Fini || k == FiniArray
  }

  /** What relocate_dynamic_tag_info does to one tag; None is its failure. */
  function PlaceTag(gs: seq<Segment>, t: Tag): Option<Tag> {
    if t.kind == Unknown then None
    else if IsAddress(t.kind) then
      match TagAddress(gs, t.value)
      case None => None
      case Some(v) => Some(Tag(t.kind, v))
    else Some(t)
  }

  lemma AllSymbolsShift(gs: seq<Segment>, symbols: seq<Symbol>)
    requires forall i :: 0 <= i < |gs| ==> NoWrap(gs[i])
    requires forall j :: 0 <= j < |symbols| ==> symbols[j].value < WORD
    ensures forall j :: 0 <= j < |symbols| && symbols[j].shndx != MARK ==>
              Symbols(gs, symbols[j]).value == Shift(gs, symbols[j].value)
  {
    forall j | 0 <= j < |symbols| && symbols[j].shndx != MARK
      ensures Symbols(gs, symbols[j]).value == Shift(gs, symbols[j].value)
    {
      SymbolsShift(gs, symbols[j]);
    }
  }

  lemma AllTagsShift(gs: seq<Segment>, tags: seq<Tag>)
    requires forall i :: 0 <= i < |gs| ==> NoWrap(gs[i])
    requires forall j :: 0 <= j < |tags| ==> tags[j].value < WORD
    ensures forall j :: 0 <= j < |tags| && PlaceTag(gs, tags[j]).Some? ==>
              var t := PlaceTag(gs, tags[j]).value;
              t.kind == tags[j].kind && t.value == if IsAddress(t.kind) then Shift(gs, tags[j].value) else tags[j].value
  {
    forall j | 0 <= j < |tags| && PlaceTag(gs, tags[j]).Some? && IsAddress(tags[j].kind)
      ensures PlaceTag(gs, tags[j]).value.value == Shift(gs, tags[j].value)
    {
      TagShift(gs, tags[j].value);
    }
  }

  /** The value kept in the loaded module for a kind of tag: that of the last such tag. */
  function Kept(tags: seq<Tag>, k: Kind, before: nat): nat {
    if tags == [] then before
    else if tags[|tags| - 1].kind == k then tags[|tags| - 1].value
    else Kept(tags[..|tags| - 1], k, before)
  }

  lemma {:induction false} KeptNone(tags: seq<Tag>, k: Kind, before: nat)
    requires forall j :: 0 <= j < |tags| ==> tags[j].kind != k
    ensures Kept(tags, k, before) == before
  {
    if tags != [] {
      KeptNone(tags[..|tags| - 1], k, before);
    }
  }

  lemma {:induction false} KeptLast(tags: seq<Tag>, k: Kind, before: nat, j: nat)
    requires IsLast(tags, k, j)
    ensures Kept(tags, k, before) == tags[j].value
  {
    if j < |tags| - 1 {
      KeptLast(tags[..|tags| - 1], k, before, j);
    }
  }

  /** Tag j is the last of its kind. */
  predicate IsLast(tags: seq<Tag>, k: Kind, j: nat) {
    j < |tags| && tags[j].kind == k && forall l :: j < l < |tags| ==> tags[l].kind != k
  }

  /** The value that the loaded module keeps: the placed one of the last tag of the kind, if there is one. */
  ghost predicate Keeps(gs: seq<Segment>, tags: seq<Tag>, k: Kind, before: nat, after: nat) {
    && ((forall j :: 0 <= j < |tags| ==> tags[j].kind != k) ==> after == before)
    && forall j :: 0 <= j < |tags| && IsLast(tags, k, j) ==>
         after == if k == FiniArraySize then tags[j].value else Shift(gs, tags[j].value)
  }

  /** A tag is refused if the target does not know it, or if it is an address that no segment holds. */
  ghost predicate Refused(gs: seq<Segment>, t: Tag) {
    t.kind == Unknown || (t.kind in {Section, Fini, FiniArray} && forall i :: 0 <= i < |gs| ==> !Holds(gs[i], t.value))
  }

  lemma RefusedIff(gs: seq<Segment>, t: Tag)
    requires (forall i :: 0 <= i < |gs| ==> NoWrap(gs[i])) && t.value < WORD
    ensures PlaceTag(gs, t).None? <==> Refused(gs, t)
  {
    TagShift(gs, t.value);
  }

  lemma KeepsPlaced(gs: seq<Segment>, tags: seq<Tag>, placed: seq<Tag>, k: Kind, before: nat)
    requires |placed| == |tags| && (k == Fini || k == FiniArray || k == FiniArraySize)
    requires forall j :: 0 <= j < |tags| ==> placed[j].kind == tags[j].kind
    requires forall j :: 0 <= j < |tags| ==>
               placed[j].value == if tags[j].kind in {Section, Fini, FiniArray} then Shift(gs, tags[j].value) else tags[j].value
    ensures Keeps(gs, tags, k, before, Kept(placed, k, before))
  {
    if forall j :: 0 <= j < |tags| ==> tags[j].kind != k {
      KeptNone(placed, k, before);
    }
    forall j | 0 <= j < |tags| && IsLast(tags, k, j)
      ensures Kept(placed, k, before) == if k == FiniArraySize then tags[j].value else Shift(gs, tags[j].value)
    {
      KeptLast(placed, k, before, j);
    }
  }

  class DynModule {
    var segments: array<Segment>    // `target` is the address in p_vaddr once placed
    var symtab: array<Symbol>
    var gsymtab: array<nat>         // copy of the values of the last symbols, the global ones
    var entry: Entry
    var dyntab: array<Tag>
    var fini: nat
    var finiArray: nat
    var finiArraySize: nat

    ghost predicate Separate()
      reads this
    {
      segments as object != symtab && segments as object != gsymtab && segments as object != dyntab &&
      symtab as object != gsymtab && symtab as object != dyntab && gsymtab as object != dyntab
    }

    ghost predicate GlobalsMatch()
      reads this, symtab, gsymtab
    {
      gsymtab.Length <= symtab.Length &&
      forall k :: 0 <= k < gsymtab.Length ==> gsymtab[k] == symtab[symtab.Length - gsymtab.Length + k].value
    }

    /** One turn of the symbol loop; `first` is the index of the first global symbol. */
    method AdjustSymbol(g: Segment, j: nat, first: nat, start: nat, end: nat)
      requires Separate() && GlobalsMatch() && j < symtab.Length
      requires first == symtab.Length - gsymtab.Length && start == g.target && end == Wrap(g.target + g.memsz)
      modifies symtab, gsymtab
      ensures GlobalsMatch() && symtab[j] == PlaceSymbol(g, old(symtab[j]))
      ensures forall k :: 0 <= k < symtab.Length && k != j ==> symtab[k] == old(symtab[k])
    {
      var adjusted := Wrap(symtab[j].value + g.target - g.vaddr);
      if start <= adjusted < end && symtab[j].shndx != MARK {
        SetValue(j, first, adjusted);
        symtab[j] := symtab[j].(shndx := MARK);
      }
    }

    /** A symbol's new value, and its copy if it is a global one. */
    method SetValue(j: nat, first: nat, value: nat)
      requires Separate() && GlobalsMatch() && j < symtab.Length && first == symtab.Length - gsymtab.Length
      modifies symtab, gsymtab
      ensures GlobalsMatch() && symtab[j] == old(symtab[j]).(value := value)
      ensures forall k :: 0 <= k < symtab.Length && k != j ==> symtab[k] == old(symtab[k])
    {
      symtab[j] := symtab[j].(value := value);
      if j >= first {
        gsymtab[j - first] := value;
      }
    }

    /** The symbol loop for one placed segment. */
    method PlaceSymbols(g: Segment)
      requires Separate() && GlobalsMatch()
      modifies symtab, gsymtab
      ensures GlobalsMatch()
      ensures forall j :: 0 <= j < symtab.Length ==> symtab[j] == PlaceSymbol(g, old(symtab[j]))
    {
      var first := symtab.Length - gsymtab.Length;
      var start, end := g.target, Wrap(g.target + g.memsz);
      var j := 0;
      while j < symtab.Length
        invariant j <= symtab.Length && GlobalsMatch()
        invariant forall k :: 0 <= k < j ==> symtab[k] == PlaceSymbol(g, old(symtab[k]))
        invariant forall k :: j <= k < symtab.Length ==> symtab[k] == old(symtab[k])
      {
        AdjustSymbol(g, j, first, start, end);
        j := j + 1;
      }
    }

    /** One turn of the segment loop, with the address that the client allocated. */
    method PlaceSegment(i: nat, target: nat)
      requires Separate() && GlobalsMatch() && i < segments.Length
      modifies this`entry, segments, symtab, gsymtab
      ensures GlobalsMatch() && segments[i] == old(segments[i]).(target := target)
      ensures forall k :: 0 <= k < segments.Length && k != i ==> segments[k] == old(segments[k])
      ensures forall j :: 0 <= j < symtab.Length ==> symtab[j] == PlaceSymbol(segments[i], old(symtab[j]))
      ensures entry == PlaceEntry(segments[i], old(entry))
    {
      var g := segments[i].(target := target);
      if entry.pending && g.vaddr <= entry.value < Wrap(g.vaddr + g.memsz) {
        entry := Entry(Wrap(entry.value + g.target - g.vaddr), false);
      }
      segments[i] := g;
      PlaceSymbols(g);
    }

    /**
      The segment loop of allocate_dynamic_segments_and_relocate_symbols.  `targets` are the
      addresses that the client allocates, None where it refuses.
     */
    method PlaceSegments(targets: seq<Option<nat>>) returns (ok: bool)
      requires Separate() && GlobalsMatch() && |targets| == segments.Length
      modifies this`entry, segments, symtab, gsymtab
      ensures GlobalsMatch() && ok == forall i :: 0 <= i < |targets| ==> targets[i].Some?
      ensures ok ==> forall i :: 0 <= i < |targets| ==> segments[i] == old(segments[i]).(target := targets[i].value)
      ensures ok ==> forall j :: 0 <= j < symtab.Length ==> symtab[j] == Symbols(segments[..], old(symtab[j]))
      ensures ok ==> entry == EntryPoint(segments[..], old(entry))
    {
      var i := 0;
      ghost var placed: seq<Segment> := [];
      while i < segments.Length
        invariant i <= segments.Length && GlobalsMatch() && placed == segments[..i]
        invariant forall k :: 0 <= k < i ==> targets[k].Some? && segments[k] == old(segments[k]).(target := targets[k].value)
        invariant forall k :: i <= k < segments.Length ==> segments[k] == old(segments[k])
        invariant forall j :: 0 <= j < symtab.Length ==> symtab[j] == Symbols(placed, old(symtab[j]))
        invariant entry == EntryPoint(placed, old(entry))
      {
        if targets[i].None? {
          return false;
        }
        PlaceSegment(i, targets[i].value);
        ghost var next := placed + [segments[i]];
        assert next[..|next| - 1] == placed;
        placed := next;
        i := i + 1;
      }
      assert segments[..segments.Length] == segments[..];
      ok := true;
    }

    /** DLIMP_update_dyntag_section_address */
    method UpdateTag(i: nat) returns (ok: bool)
      requires i < dyntab.Length && segments as object != dyntab
      modifies dyntab
      ensures ok == TagAddress(segments[..], old(dyntab[i].value)).Some?
      ensures ok ==> dyntab[i] == Tag(old(dyntab[i].kind), TagAddress(segments[..], old(dyntab[i].value)).value)
      ensures !ok ==> dyntab[i] == old(dyntab[i])
      ensures forall k :: 0 <= k < dyntab.Length && k != i ==> dyntab[k] == old(dyntab[k])
    {
      var v := dyntab[i].value;
      ghost var gs := segments[..];
      var j := 0;
      assert gs[0..] == gs;
      while j < segments.Length
        invariant j <= segments.Length && gs == segments[..] && dyntab[..] == old(dyntab[..])
        invariant TagAddress(gs[j..], v) == TagAddress(gs, v)
      {
        assert gs[j..][0] == segments[j] && gs[j..][1..] == gs[j + 1..];
        if segments[j].vaddr <= v < Wrap(segments[j].vaddr + segments[j].memsz) {
          dyntab[i] := dyntab[i].(value := Wrap(v + segments[j].target - segments[j].vaddr));
          return true;
        }
        j := j + 1;
      }
      ok := false;
    }

    /** relocate_dynamic_tag_info */
    method PlaceTags() returns (ok: bool)
      requires Separate()
      modifies this`fini, this`finiArray, this`finiArraySize, dyntab
      ensures ok == forall i :: 0 <= i < dyntab.Length ==> PlaceTag(segments[..], old(dyntab[i])).Some?
      ensures ok ==> forall i :: 0 <= i < dyntab.Length ==> Some(dyntab[i]) == PlaceTag(segments[..], old(dyntab[i]))
      ensures ok ==> fini == Kept(dyntab[..], Fini, old(fini)) && finiArray == Kept(dyntab[..], FiniArray, old(finiArray))
      ensures ok ==> finiArraySize == Kept(dyntab[..], FiniArraySize, old(finiArraySize))
    {
      var i := 0;
      while i < dyntab.Length
        invariant i <= dyntab.Length && segments[..] == old(segments[..])
        invariant forall k :: 0 <= k < i ==> Some(dyntab[k]) == PlaceTag(segments[..], old(dyntab[k]))
        invariant forall k :: i <= k < dyntab.Length ==> dyntab[k] == old(dyntab[k])
        invariant fini == Kept(dyntab[..i], Fini, old(fini)) && finiArray == Kept(dyntab[..i], FiniArray, old(finiArray))
        invariant finiArraySize == Kept(dyntab[..i], FiniArraySize, old(finiArraySize))
      {
        ghost var done := dyntab[..i];
        var kind := dyntab[i].kind;
        if kind == Unknown {
          return false;
        }
        if IsAddress(kind) {
          var updated := UpdateTag(i);
          if !updated {
            return false;
          }
          if kind == Fini {
            fini := dyntab[i].value;
          } else if kind == FiniArray {
            finiArray := dyntab[i].value;
          }
        } else if kind == FiniArraySize {
          finiArraySize := dyntab[i].value;
        }
        assert dyntab[..i] == done;
        assert dyntab[..i + 1] == done + [dyntab[i]];
        assert (done + [dyntab[i]])[..i] == done;
        i := i + 1;
      }
      assert dyntab[..dyntab.Length] == dyntab[..];
      ok := true;
    }

    /** The dynamic table, once the segments are placed in ranges that do not wrap. */
    method RelocateTags() returns (ok: bool)
      requires Separate()
      requires forall i :: 0 <= i < segments.Length ==> NoWrap(segments[i])
      requires forall j :: 0 <= j < dyntab.Length ==> dyntab[j].value < WORD
      modifies this`fini, this`finiArray, this`finiArraySize, dyntab
      ensures ok <==> forall j :: 0 <= j < dyntab.Length ==> !Refused(segments[..], old(dyntab[j]))
      ensures ok ==> forall j :: 0 <= j < dyntab.Length ==>
                dyntab[j].kind == old(dyntab[j].kind) &&
                dyntab[j].value == if dyntab[j].kind in {Section, Fini, FiniArray}
                                   then Shift(segments[..], old(dyntab[j].value)) else old(dyntab[j].value)
      ensures ok ==> Keeps(segments[..], old(dyntab[..]), Fini, old(fini), fini)
      ensures ok ==> Keeps(segments[..], old(dyntab[..]), FiniArray, old(finiArray), finiArray)
      ensures ok ==> Keeps(segments[..], old(dyntab[..]), FiniArraySize, old(finiArraySize), finiArraySize)
    {
      ghost var gs, tags := segments[..], dyntab[..];
      forall j | 0 <= j < |tags| ensures PlaceTag(gs, tags[j]).None? <==> Refused(gs, tags[j]) {
        RefusedIff(gs, tags[j]);
      }
      ok := PlaceTags();
      if ok {
        AllTagsShift(gs, tags);
        KeepsPlaced(gs, tags, dyntab[..], Fini, old(fini));
        KeepsPlaced(gs, tags, dyntab[..], FiniArray, old(finiArray));
        KeepsPlaced(gs, tags, dyntab[..], FiniArraySize, old(finiArraySize));
      }
    }

    /** allocate_dynamic_segments_and_relocate_symbols, for ranges that do not wrap. */
    method Relocate(targets: seq<Option<nat>>) returns (ok: bool)
      requires Separate() && GlobalsMatch() && |targets| == segments.Length && entry.pending && entry.value < WORD
      requires forall i :: 0 <= i < |targets| && targets[i].Some? ==> NoWrap(segments[i].(target := targets[i].value))
      requires forall j :: 0 <= j < symtab.Length ==> symtab[j].value < WORD
      requires forall j :: 0 <= j < dyntab.Length ==> dyntab[j].value < WORD
      modifies this, segments, symtab, gsymtab, dyntab
      ensures segments == old(segments) && symtab == old(symtab) && gsymtab == old(gsymtab) && dyntab == old(dyntab)
      ensures ok ==> GlobalsMatch()
      ensures ok ==> forall i :: 0 <= i < segments.Length ==>
                targets[i].Some? && segments[i] == old(segments[i]).(target := targets[i].value)
      ensures ok ==> entry.value == Shift(segments[..], old(entry.value))
      ensures ok ==> forall j :: 0 <= j < symtab.Length && old(symtab[j].shndx) != MARK ==>
                symtab[j].value == Shift(segments[..], old(symtab[j].value))
      ensures ok ==> forall j :: 0 <= j < dyntab.Length ==>
                dyntab[j].kind == old(dyntab[j].kind) &&
                dyntab[j].value == if dyntab[j].kind in {Section, Fini, FiniArray}
                                   then Shift(segments[..], old(dyntab[j].value)) else old(dyntab[j].value)
      ensures ok ==> Keeps(segments[..], old(dyntab[..]), Fini, old(fini), fini)
      ensures ok ==> Keeps(segments[..], old(dyntab[..]), FiniArray, old(finiArray), finiArray)
      ensures ok ==> Keeps(segments[..], old(dyntab[..]), FiniArraySize, old(finiArraySize), finiArraySize)
      ensures (forall i :: 0 <= i < |targets| ==> targets[i].Some?) ==>
                (ok <==> forall j :: 0 <= j < dyntab.Length ==> !Refused(segments[..], old(dyntab[j])))
    {
      ok := PlaceSegments(targets);
      if !ok {
        return;
      }
      EntryShift(segments[..], old(entry.value));
      AllSymbolsShift(segments[..], old(symtab[..]));
      ok := RelocateTags();
    }
  }
}
