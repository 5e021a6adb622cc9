/**
  The function table of src/ti/grcm/RcmServer.c: symbols are added to and removed from eight
  growing tables, and clients call them through 32-bit indices that carry a key.

  Bits 31, 30:20, 15:12 and 11:0 of an index are the static flag, key, table and offset.  They do
  not overlap, so the source's shifts and masks are written as arithmetic.
 */
module FxnTable {
  import opened Types

  const MAX_TABLES: nat := 9
  const KEY_RESET: nat := 0x7FF
  const STATIC_BIT: nat := 0x8000_0000
  const KEY_UNIT: nat := 0x10_0000    // 1 << 20
  const TABLE_UNIT: nat := 0x1000     // 1 << 12

  /** `fxn` 0 is the null function.  `stamp` is the number of the key issued for this symbol, 0 if none. */
  datatype Slot = Slot(fxn: nat, name: Option<string>, key: nat, stamp: nat)

  const EMPTY := Slot(0, None, 0, 0)

  /** Table 0 holds the static functions.  `issued` counts the keys given out. */
  datatype State = State(tabs: seq<Option<seq<Slot>>>, key: nat, issued: nat)

  datatype Status = Success | SymbolNotFound | SymbolStatic | TableFull

  /** Length of dynamic table i, 1 << (i + 4). */
  function Size(i: nat): nat {
    if i == 0 then 16 else 2 * Size(i - 1)
  }

  // ---------------------------------------------------------------- indices

  function Encode(key: nat, i: nat, j: nat): nat {
    key * KEY_UNIT + i * TABLE_UNIT + j
  }

  function KeyOf(idx: nat): nat { idx / KEY_UNIT % 2048 }

  function TableOf(idx: nat): nat { idx / TABLE_UNIT % 16 }

  function OffsetOf(idx: nat): nat { idx % TABLE_UNIT }

  lemma Divided(q: int, unit: int, r: int)
    requires 0 <= r < unit
    ensures (q * unit + r) / unit == q && (q * unit + r) % unit == r
  {
    var d := (q * unit + r) / unit - q;
    assert d * unit == r - (q * unit + r) % unit;
    assert -unit < d * unit < unit;
  }

  lemma DecodeEncode(key: nat, i: nat, j: nat)
    requires key <= KEY_RESET && i < MAX_TABLES && j < TABLE_UNIT
    ensures var idx := Encode(key, i, j);
            KeyOf(idx) == key && TableOf(idx) == i && OffsetOf(idx) == j && idx < STATIC_BIT
  {
    Divided(key, KEY_UNIT, i * TABLE_UNIT + j);
    Divided(key * 256 + i, TABLE_UNIT, j);
    Divided(key * 16, 16, i);
  }

  // ---------------------------------------------------------------- keys

  /** RcmServer_getNextKey_P */
  function NextKey(key: nat): nat {
    if key <= 1 then KEY_RESET else key - 1
  }

  /** The n-th key given out by a new server, n counted from 1. */
  function KeyAt(n: nat): nat
    requires n >= 1
  {
    KEY_RESET - (n - 1) % KEY_RESET
  }

  /** Two keys are equal exactly when a multiple of 2047 keys lies between them. */
  lemma KeysRepeat(m: nat, n: nat)
    requires 1 <= m <= n
    ensures 1 <= KeyAt(n) <= KEY_RESET
    ensures KeyAt(m) == KeyAt(n) <==> (n - m) % KEY_RESET == 0
  {
    var a, b := (m - 1) / KEY_RESET, (n - 1) / KEY_RESET;
    assert n - m == (b - a) * KEY_RESET + (n - 1) % KEY_RESET - (m - 1) % KEY_RESET;
    if (n - m) % KEY_RESET == 0 {
      var c := (n - m) / KEY_RESET;
      assert (n - 1) % KEY_RESET - (m - 1) % KEY_RESET == (c - (b - a)) * KEY_RESET;
    }
  }

  // ---------------------------------------------------------------- searches

  function FreeIn(tab: seq<Slot>): (j: nat)
    ensures j <= |tab|
    ensures j < |tab| ==> tab[j].fxn == 0
    ensures forall k :: 0 <= k < j ==> tab[k].fxn != 0
  {
    if tab == [] || tab[0].fxn == 0 then 0 else 1 + FreeIn(tab[1..])
  }

  /** The first place from table i on that can take a symbol: an empty slot, or a table not yet there. */
  function FreePlace(tabs: seq<Option<seq<Slot>>>, i: nat): (p: Option<(nat, nat)>)
    requires |tabs| == MAX_TABLES
    ensures p.Some? ==> i <= p.value.0 < MAX_TABLES
    ensures p.Some? && tabs[p.value.0].None? ==> p.value.1 == 0
    ensures p.Some? && tabs[p.value.0].Some? ==> p.value.1 < |tabs[p.value.0].value|
    decreases MAX_TABLES - i
  {
    if i >= MAX_TABLES then None
    else match tabs[i]
      case None => Some((i, 0))
      case Some(tab) =>
        if FreeIn(tab) < |tab| then Some((i, FreeIn(tab))) else FreePlace(tabs, i + 1)
  }

  function NamedIn(tab: seq<Slot>, name: string): (j: nat)
    ensures j <= |tab|
    ensures j < |tab| ==> tab[j].name == Some(name)
    ensures forall k :: 0 <= k < j ==> tab[k].name != Some(name)
  {
    if tab == [] || tab[0].name == Some(name) then 0 else 1 + NamedIn(tab[1..], name)
  }

  /** Where a name is first found, from table i on. */
  function PlaceOf(tabs: seq<Option<seq<Slot>>>, i: nat, name: string): (p: Option<(nat, nat)>)
    requires |tabs| == MAX_TABLES
    ensures p.Some? ==> i <= p.value.0 < MAX_TABLES && tabs[p.value.0].Some?
    ensures p.Some? ==> p.value.1 < |tabs[p.value.0].value| && tabs[p.value.0].value[p.value.1].name == Some(name)
    decreases MAX_TABLES - i
  {
    if i >= MAX_TABLES then None
    else if tabs[i].Some? && NamedIn(tabs[i].value, name) < |tabs[i].value|
      then Some((i, NamedIn(tabs[i].value, name)))
      else PlaceOf(tabs, i + 1, name)
  }

  // ---------------------------------------------------------------- operations

  function SetSlot(tabs: seq<Option<seq<Slot>>>, i: nat, j: nat, slot: Slot): seq<Option<seq<Slot>>>
    requires i < |tabs| && tabs[i].Some? && j < |tabs[i].value|
  {
    tabs[i := Some(tabs[i].value[j := slot])]
  }

  /** The tables once table i is there. */
  function WithTable(tabs: seq<Option<seq<Slot>>>, i: nat): (r: seq<Option<seq<Slot>>>)
    requires i < |tabs|
    ensures |r| == |tabs| && r[i].Some? && (tabs[i].None? ==> |r[i].value| > 0)
    ensures tabs[i].Some? ==> r == tabs
  {
    SizePositive(i);
    if tabs[i].None? then tabs[i := Some(seq(Size(i), _ => EMPTY))] else tabs
  }

  lemma SizePositive(i: nat)
    ensures 16 <= Size(i)
  {
  }

  datatype Added = Added(state: State, status: Status, index: Option<nat>)

  /** RcmServer_addSymbol */
  function AddSymbol(s: State, name: string, fxn: nat): Added
    requires |s.tabs| == MAX_TABLES
  {
    match FreePlace(s.tabs, 1)
    case None => Added(s, TableFull, None)
    case Some((i, j)) =>
      var key := NextKey(s.key);
      var slot := Slot(fxn, Some(name), key, s.issued + 1);
      Added(State(SetSlot(WithTable(s.tabs, i), i, j, slot), key, s.issued + 1), Success, Some(Encode(key, i, j)))
  }

  /** RcmServer_getSymIdx_P */
  function GetSymIdx(s: State, name: string): Option<nat>
    requires |s.tabs| == MAX_TABLES
  {
    match PlaceOf(s.tabs, 0, name)
    case None => None
    case Some((i, j)) =>
      if i == 0 then Some(STATIC_BIT + j) else Some(Encode(s.tabs[i].value[j].key, i, j))
  }

  datatype Removed = Removed(state: State, status: Status)

  /** RcmServer_removeSymbol */
  function RemoveSymbol(s: State, name: string): Removed
    requires |s.tabs| == MAX_TABLES
  {
    match PlaceOf(s.tabs, 0, name)
    case None => Removed(s, SymbolNotFound)
    case Some((i, j)) =>
      if i == 0 then Removed(s, SymbolStatic)
      else Removed(s.(tabs := SetSlot(s.tabs, i, j, EMPTY)), Success)
  }

  /** What a lookup stores through its two result pointers; offset 0 stores only the creator. */
  datatype Lookup = Invalid | Function(fxn: nat) | Creator(fxn: nat)

  /** An index whose offset lies inside the table it names, if that table is there. */
  predicate Addressable(s: State, idx: nat) {
    |s.tabs| == MAX_TABLES &&
    (idx < STATIC_BIT && 0 < TableOf(idx) < MAX_TABLES && s.tabs[TableOf(idx)].Some? ==>
       OffsetOf(idx) < |s.tabs[TableOf(idx)].value|)
  }

  /** RcmServer_getFxnAddr_P */
  function GetFxnAddr(s: State, idx: nat): Lookup
    requires Addressable(s, idx)
  {
    if idx >= STATIC_BIT then
      var j := idx % 0x1_0000;
      if s.tabs[0].Some? && j < |s.tabs[0].value| then
        if j == 0 then Creator(s.tabs[0].value[j].fxn) else Function(s.tabs[0].value[j].fxn)
      else Invalid
    else
      var i, j := TableOf(idx), OffsetOf(idx);
      if 0 < i < MAX_TABLES && s.tabs[i].Some? && s.tabs[i].value[j].key == KeyOf(idx) then
        if j == 0 then Creator(0) else Function(s.tabs[i].value[j].fxn)
      else Invalid
  }

  // ---------------------------------------------------------------- runs

  datatype Action = Add(name: string, fxn: nat) | Remove(name: string)

  /** Symbols are added with functions that are not null. */
  predicate Enabled(s: State, a: Action) {
    |s.tabs| == MAX_TABLES && (a.Add? ==> a.fxn != 0)
  }

  function Apply(s: State, a: Action): State
    requires Enabled(s, a)
  {
    match a
    case Add(name, fxn) => AddSymbol(s, name, fxn).state
    case Remove(name) => RemoveSymbol(s, name).state
  }

  ghost predicate Run(s: State, acts: seq<Action>, s': State)
    decreases |acts|
  {
    if acts == [] then s == s'
    else Enabled(s, acts[0]) && Run(Apply(s, acts[0]), acts[1..], s')
  }

  /** A new server: static functions only. */
  predicate Initial(s: State) {
    |s.tabs| == MAX_TABLES && s.key == 0 && s.issued == 0 &&
    forall i :: 1 <= i < MAX_TABLES ==> s.tabs[i].None?
  }

  predicate SlotOk(slot: Slot, issued: nat) {
    if slot.fxn == 0 then slot == EMPTY
    else 1 <= slot.stamp <= issued && slot.key == KeyAt(slot.stamp) && slot.name.Some?
  }

  ghost predicate TablesOk(tabs: seq<Option<seq<Slot>>>, issued: nat)
    requires |tabs| == MAX_TABLES
  {
    forall i :: 1 <= i < MAX_TABLES && tabs[i].Some? ==>
      |tabs[i].value| == Size(i) && forall j :: 0 <= j < Size(i) ==> SlotOk(tabs[i].value[j], issued)
  }

  ghost predicate Inv(s: State) {
    && |s.tabs| == MAX_TABLES
    && TablesOk(s.tabs, s.issued)
    && s.key == if s.issued == 0 then 0 else KeyAt(s.issued)
  }

  ghost predicate HasSlot(s: State, i: nat, j: nat) {
    1 <= i < MAX_TABLES && i < |s.tabs| && s.tabs[i].Some? && j < |s.tabs[i].value|
  }

  ghost function SlotAt(s: State, i: nat, j: nat): Slot
    requires HasSlot(s, i, j)
  {
    s.tabs[i].value[j]
  }

  lemma {:induction false} SizeFits(i: nat)
    requires 1 <= i < MAX_TABLES
    ensures Size(i) <= TABLE_UNIT
  {
    assert Size(1) == 32 && Size(2) == 64 && Size(3) == 128 && Size(4) == 256;
    assert Size(5) == 512 && Size(6) == 1024 && Size(7) == 2048 && Size(8) == 4096;
  }

  lemma NextKeyIs(s: State)
    requires Inv(s)
    ensures NextKey(s.key) == KeyAt(s.issued + 1)
  {
  }

  lemma AddKeeps(s: State, name: string, fxn: nat)
    requires Inv(s) && fxn != 0
    ensures Inv(AddSymbol(s, name, fxn).state)
  {
    NextKeyIs(s);
    if FreePlace(s.tabs, 1).Some? {
      var (i, j) := FreePlace(s.tabs, 1).value;
      AddTablesOk(s.tabs, i, j, Slot(fxn, Some(name), NextKey(s.key), s.issued + 1), s.issued);
    }
  }

  lemma AddTablesOk(tabs: seq<Option<seq<Slot>>>, i: nat, j: nat, slot: Slot, issued: nat)
    requires |tabs| == MAX_TABLES && TablesOk(tabs, issued) && 1 <= i < MAX_TABLES
    requires j < |WithTable(tabs, i)[i].value| && SlotOk(slot, issued + 1)
    ensures TablesOk(SetSlot(WithTable(tabs, i), i, j, slot), issued + 1)
  {
    WithTableOk(tabs, i, issued);
    SetSlotOk(WithTable(tabs, i), i, j, slot, issued);
  }

  lemma WithTableOk(tabs: seq<Option<seq<Slot>>>, i: nat, issued: nat)
    requires |tabs| == MAX_TABLES && TablesOk(tabs, issued) && 1 <= i < MAX_TABLES
    ensures TablesOk(WithTable(tabs, i), issued)
  {
  }

  lemma SetSlotOk(tabs: seq<Option<seq<Slot>>>, i: nat, j: nat, slot: Slot, issued: nat)
    requires |tabs| == MAX_TABLES && TablesOk(tabs, issued)
    requires 1 <= i < MAX_TABLES && tabs[i].Some? && j < |tabs[i].value| && SlotOk(slot, issued + 1)
    ensures TablesOk(SetSlot(tabs, i, j, slot), issued + 1)
  {
  }

  lemma RemoveKeeps(s: State, name: string)
    requires Inv(s)
    ensures Inv(RemoveSymbol(s, name).state)
  {
  }

  lemma StepKeeps(s: State, a: Action)
    requires Inv(s) && Enabled(s, a)
    ensures Inv(Apply(s, a))
  {
    match a
    case Add(name, fxn) => AddKeeps(s, name, fxn);
    case Remove(name) => RemoveKeeps(s, name);
  }

  lemma {:induction false} RunKeepsInv(s: State, acts: seq<Action>, s': State)
    requires Inv(s) && Run(s, acts, s')
    ensures Inv(s')
    decreases |acts|
  {
    if acts != [] {
      StepKeeps(s, acts[0]);
      RunKeepsInv(Apply(s, acts[0]), acts[1..], s');
    }
  }

  // ---------------------------------------------------------------- handles

  /** idx is the index that was issued, with the n-th key, for this symbol, and the symbol is still there. */
  ghost predicate Handle(s: State, idx: nat, name: string, fxn: nat, n: nat) {
    1 <= n <= s.issued &&
    var i, j := TableOf(idx), OffsetOf(idx);
    HasSlot(s, i, j) && idx == Encode(KeyAt(n), i, j) && SlotAt(s, i, j) == Slot(fxn, Some(name), KeyAt(n), n)
  }

  lemma {:induction false} FreePlaceNone(tabs: seq<Option<seq<Slot>>>, i: nat)
    requires |tabs| == MAX_TABLES
    ensures FreePlace(tabs, i).None? <==>
            forall k :: i <= k < MAX_TABLES ==> tabs[k].Some? && forall j :: 0 <= j < |tabs[k].value| ==> tabs[k].value[j].fxn != 0
    decreases MAX_TABLES - i
  {
    if i < MAX_TABLES && tabs[i].Some? && FreeIn(tabs[i].value) == |tabs[i].value| {
      FreePlaceNone(tabs, i + 1);
    }
  }

  /** A symbol is refused exactly when all eight tables are there and every slot is taken. */
  lemma AddFailsOnlyWhenFull(s: State, name: string, fxn: nat)
    requires Inv(s)
    ensures AddSymbol(s, name, fxn).status == TableFull <==>
            forall i, j :: 1 <= i < MAX_TABLES && 0 <= j < Size(i) ==> HasSlot(s, i, j) && SlotAt(s, i, j).fxn != 0
    ensures Size(1) + Size(2) + Size(3) + Size(4) + Size(5) + Size(6) + Size(7) + Size(8) == 8160
  {
    FreePlaceNone(s.tabs, 1);
    forall i | 1 <= i < MAX_TABLES ensures Size(i) > 0 {
      SizePositive(i);
    }
    if AddSymbol(s, name, fxn).status != TableFull {
      var (i, j) := FreePlace(s.tabs, 1).value;
      if s.tabs[i].None? {
        assert !HasSlot(s, i, 0);
      } else {
        assert SlotAt(s, i, j).fxn == 0;
      }
    }
  }

  lemma {:induction false} FreePlaceIsFree(tabs: seq<Option<seq<Slot>>>, i: nat)
    requires |tabs| == MAX_TABLES && FreePlace(tabs, i).Some?
    ensures var (k, j) := FreePlace(tabs, i).value; tabs[k].Some? ==> tabs[k].value[j].fxn == 0
    decreases MAX_TABLES - i
  {
    if tabs[i].Some? && FreeIn(tabs[i].value) == |tabs[i].value| {
      FreePlaceIsFree(tabs, i + 1);
    }
  }

  /** The index returned by a successful add is a handle of the new symbol. */
  lemma AddIssuesHandle(s: State, name: string, fxn: nat)
    requires Inv(s) && fxn != 0
    ensures var r := AddSymbol(s, name, fxn); r.status == Success ==> r.index.Some? && Handle(r.state, r.index.value, name, fxn, s.issued + 1)
  {
    NextKeyIs(s);
    KeysRepeat(s.issued + 1, s.issued + 1);
    var p := FreePlace(s.tabs, 1);
    if p.Some? {
      var (i, j) := p.value;
      SizeFits(i);
      DecodeEncode(KeyAt(s.issued + 1), i, j);
    }
  }

  /** One step leaves another symbol's slot alone. */
  lemma StepSlot(s: State, a: Action, i: nat, j: nat)
    requires Inv(s) && Enabled(s, a) && HasSlot(s, i, j)
    ensures HasSlot(Apply(s, a), i, j) && s.issued <= Apply(s, a).issued
    ensures var slot := SlotAt(Apply(s, a), i, j);
            || slot == SlotAt(s, i, j)
            || (a.Remove? && slot == EMPTY && SlotAt(s, i, j).name == Some(a.name))
            || (a.Add? && SlotAt(s, i, j).fxn == 0 && slot.stamp > s.issued)
  {
    match a
    case Add(name, fxn) =>
      if FreePlace(s.tabs, 1).Some? {
        FreePlaceIsFree(s.tabs, 1);
      }
    case Remove(name) =>
  }

  lemma {:induction false} RunSlot(s: State, acts: seq<Action>, s': State, i: nat, j: nat)
    requires Inv(s) && Run(s, acts, s') && HasSlot(s, i, j)
    ensures HasSlot(s', i, j) && s.issued <= s'.issued
    ensures var slot := SlotAt(s', i, j); slot == SlotAt(s, i, j) || slot.fxn == 0 || slot.stamp > s.issued
    decreases |acts|
  {
    if acts != [] {
      var s1 := Apply(s, acts[0]);
      StepKeeps(s, acts[0]);
      StepSlot(s, acts[0], i, j);
      RunSlot(s1, acts[1..], s', i, j);
      RunKeepsInv(s1, acts[1..], s');
      assert SlotOk(SlotAt(s1, i, j), s1.issued);
      if SlotAt(s', i, j) != SlotAt(s, i, j) && SlotAt(s', i, j) == SlotAt(s1, i, j) && acts[0].Remove? {
        assert SlotAt(s1, i, j) == EMPTY;
      }
    }
  }

  /** A handle stays one until its name is removed. */
  lemma {:induction false} HandlePersists(s: State, acts: seq<Action>, s': State, idx: nat, name: string, fxn: nat, n: nat)
    requires Inv(s) && Run(s, acts, s') && Handle(s, idx, name, fxn, n) && fxn != 0
    requires Remove(name) !in acts
    ensures Handle(s', idx, name, fxn, n)
    decreases |acts|
  {
    if acts != [] {
      StepKeeps(s, acts[0]);
      StepSlot(s, acts[0], TableOf(idx), OffsetOf(idx));
      assert acts[0] in acts;
      HandlePersists(Apply(s, acts[0]), acts[1..], s', idx, name, fxn, n);
    }
  }

  /** Live symbols in different slots have different indices. */
  lemma LiveIndicesDistinct(s: State, i: nat, j: nat, i': nat, j': nat)
    requires Inv(s) && HasSlot(s, i, j) && HasSlot(s, i', j') && (i, j) != (i', j')
    requires SlotAt(s, i, j).fxn != 0 && SlotAt(s, i', j').fxn != 0
    ensures Encode(SlotAt(s, i, j).key, i, j) != Encode(SlotAt(s, i', j').key, i', j')
  {
    assert SlotOk(SlotAt(s, i, j), s.issued) && SlotOk(SlotAt(s, i', j'), s.issued);
    KeysRepeat(SlotAt(s, i, j).stamp, SlotAt(s, i, j).stamp);
    KeysRepeat(SlotAt(s, i', j').stamp, SlotAt(s, i', j').stamp);
    SizeFits(i);
    SizeFits(i');
    DecodeEncode(SlotAt(s, i, j).key, i, j);
    DecodeEncode(SlotAt(s, i', j').key, i', j');
  }

  /** A handle calls the function it was issued for; at offset 0 no function is stored. */
  lemma HandleLooksUp(s: State, idx: nat, name: string, fxn: nat, n: nat)
    requires Inv(s) && Handle(s, idx, name, fxn, n)
    ensures Addressable(s, idx)
    ensures GetFxnAddr(s, idx) == if OffsetOf(idx) != 0 then Function(fxn) else Creator(0)
  {
    KeysRepeat(n, n);
    SizeFits(TableOf(idx));
    DecodeEncode(KeyAt(n), TableOf(idx), OffsetOf(idx));
  }

  ghost predicate UniqueName(s: State, name: string, i: nat, j: nat) {
    |s.tabs| == MAX_TABLES &&
    forall i', j' :: 0 <= i' < MAX_TABLES && s.tabs[i'].Some? && 0 <= j' < |s.tabs[i'].value| ==>
      (s.tabs[i'].value[j'].name == Some(name) ==> i' == i && j' == j)
  }

  lemma {:induction false} PlaceOfUnique(s: State, k: nat, name: string, i: nat, j: nat)
    requires UniqueName(s, name, i, j) && HasSlot(s, i, j) && SlotAt(s, i, j).name == Some(name) && k <= i
    ensures PlaceOf(s.tabs, k, name) == Some((i, j))
    decreases i - k
  {
    if s.tabs[k].Some? && NamedIn(s.tabs[k].value, name) < |s.tabs[k].value| {
    } else {
      PlaceOfUnique(s, k + 1, name, i, j);
    }
  }

  /** Looking up a uniquely named symbol gives the index that was issued for it. */
  lemma SymIdxIsHandle(s: State, idx: nat, name: string, fxn: nat, n: nat)
    requires Handle(s, idx, name, fxn, n) && UniqueName(s, name, TableOf(idx), OffsetOf(idx))
    ensures GetSymIdx(s, name) == Some(idx)
  {
    PlaceOfUnique(s, 0, name, TableOf(idx), OffsetOf(idx));
  }

  /** Removing the uniquely named symbol takes exactly its slot and leaves every other as it was. */
  lemma RemoveTakesHandle(s: State, idx: nat, name: string, fxn: nat, n: nat)
    requires Inv(s) && Handle(s, idx, name, fxn, n) && UniqueName(s, name, TableOf(idx), OffsetOf(idx))
    ensures var r := RemoveSymbol(s, name);
            && r.status == Success && HasSlot(r.state, TableOf(idx), OffsetOf(idx))
            && SlotAt(r.state, TableOf(idx), OffsetOf(idx)) == EMPTY
            && r.state == s.(tabs := SetSlot(s.tabs, TableOf(idx), OffsetOf(idx), EMPTY))
  {
    PlaceOfUnique(s, 0, name, TableOf(idx), OffsetOf(idx));
  }

  lemma StaleKey(slot: Slot, issued: nat, n: nat)
    requires 1 <= n && SlotOk(slot, issued) && (slot.fxn == 0 || slot.stamp > n)
    ensures slot.key == KeyAt(n) <==> slot.stamp > n && (slot.stamp - n) % KEY_RESET == 0
    ensures issued < n + KEY_RESET ==> slot.key != KeyAt(n)
  {
    KeysRepeat(n, n);
    if slot.fxn != 0 {
      KeysRepeat(n, slot.stamp);
      if (slot.stamp - n) % KEY_RESET == 0 {
        assert slot.stamp - n >= KEY_RESET;
      }
    }
  }

  /**
    After any run from a state in which idx was live, if its symbol is gone, idx is accepted only
    by a later symbol in the same slot whose key was issued a positive multiple of 2047 keys
    after; until 2047 further keys have been issued it is rejected.
   */
  lemma StaleHandle(s: State, acts: seq<Action>, s': State, idx: nat, name: string, fxn: nat, n: nat)
    requires Inv(s) && Run(s, acts, s') && Handle(s, idx, name, fxn, n)
    requires HasSlot(s', TableOf(idx), OffsetOf(idx)) && SlotAt(s', TableOf(idx), OffsetOf(idx)).stamp != n
    ensures Addressable(s', idx)
    ensures var m := SlotAt(s', TableOf(idx), OffsetOf(idx)).stamp;
            GetFxnAddr(s', idx) != Invalid <==> m > n && (m - n) % KEY_RESET == 0
    ensures s'.issued < n + KEY_RESET ==> GetFxnAddr(s', idx) == Invalid
  {
    HandleDecodes(s, idx, name, fxn, n);
    StaleSlot(s, acts, s', idx, name, fxn, n);
    StaleLookup(s', idx, n);
  }

  /** What stands in the slot of a symbol that is gone. */
  lemma StaleSlot(s: State, acts: seq<Action>, s': State, idx: nat, name: string, fxn: nat, n: nat)
    requires Inv(s) && Run(s, acts, s') && Handle(s, idx, name, fxn, n)
    requires HasSlot(s', TableOf(idx), OffsetOf(idx)) && SlotAt(s', TableOf(idx), OffsetOf(idx)).stamp != n
    ensures var slot := SlotAt(s', TableOf(idx), OffsetOf(idx));
            |s'.tabs| == MAX_TABLES && SlotOk(slot, s'.issued) && (slot.fxn == 0 || slot.stamp > n)
  {
    RunKeepsInv(s, acts, s');
    RunSlot(s, acts, s', TableOf(idx), OffsetOf(idx));
  }

  lemma StaleLookup(s: State, idx: nat, n: nat)
    requires |s.tabs| == MAX_TABLES && HasSlot(s, TableOf(idx), OffsetOf(idx)) && idx < STATIC_BIT
    requires n >= 1 && KeyOf(idx) == KeyAt(n)
    requires var slot := SlotAt(s, TableOf(idx), OffsetOf(idx)); SlotOk(slot, s.issued) && (slot.fxn == 0 || slot.stamp > n)
    ensures Addressable(s, idx)
    ensures var m := SlotAt(s, TableOf(idx), OffsetOf(idx)).stamp;
            GetFxnAddr(s, idx) != Invalid <==> m > n && (m - n) % KEY_RESET == 0
    ensures s.issued < n + KEY_RESET ==> GetFxnAddr(s, idx) == Invalid
  {
    StaleKey(SlotAt(s, TableOf(idx), OffsetOf(idx)), s.issued, n);
    LookupByKey(s, idx);
  }

  lemma LookupByKey(s: State, idx: nat)
    requires |s.tabs| == MAX_TABLES && idx < STATIC_BIT && HasSlot(s, TableOf(idx), OffsetOf(idx))
    ensures Addressable(s, idx)
    ensures GetFxnAddr(s, idx) != Invalid <==> SlotAt(s, TableOf(idx), OffsetOf(idx)).key == KeyOf(idx)
  {
  }

  lemma HandleDecodes(s: State, idx: nat, name: string, fxn: nat, n: nat)
    requires Inv(s) && Handle(s, idx, name, fxn, n)
    ensures KeyOf(idx) == KeyAt(n) && idx < STATIC_BIT
  {
    KeysRepeat(n, n);
    SizeFits(TableOf(idx));
    DecodeEncode(KeyAt(n), TableOf(idx), OffsetOf(idx));
  }
}
