/**
  The server's function table as the object that addSymbol, removeSymbol and the lookups work on
  (src/ti/grcm/RcmServer.c); each method is proved equal to the function of its name in FxnTable.
 */
module SymbolTable {
  import opened Types
  import opened FxnTable

  lemma FreePlaceStep(tabs: seq<Option<seq<Slot>>>, i: nat)
    requires |tabs| == MAX_TABLES && i < MAX_TABLES
    ensures tabs[i].Some? && FreeIn(tabs[i].value) == |tabs[i].value| ==> FreePlace(tabs, i) == FreePlace(tabs, i + 1)
  {
  }

  class Table {
    var tabs: seq<Option<seq<Slot>>>
    var key: nat
    var issued: nat    // history: keys given out so far

    ghost function View(): State
      reads this
    {
      State(tabs, key, issued)
    }

    constructor (fxns: Option<seq<Slot>>)
      ensures Initial(View()) && Inv(View()) && tabs[0] == fxns
    {
      tabs := [fxns, None, None, None, None, None, None, None, None];
      key, issued := 0, 0;
    }

    /** RcmServer_getNextKey_P */
    method GetNextKey() returns (k: nat)
      modifies this`key, this`issued
      ensures k == key == NextKey(old(key)) && issued == old(issued) + 1
    {
      if key <= 1 {
        key := KEY_RESET;
      } else {
        key := key - 1;
      }
      k := key;
      issued := issued + 1;
    }

    /** The inner loop of addSymbol: first empty slot of table i, or its length. */
    method ScanFree(i: nat) returns (j: nat)
      requires i < |tabs| && tabs[i].Some?
      ensures j == FreeIn(tabs[i].value)
    {
      j := 0;
      while j < |tabs[i].value| && tabs[i].value[j].fxn != 0
        invariant j <= |tabs[i].value|
        invariant forall k :: 0 <= k < j ==> tabs[i].value[k].fxn != 0
      {
        j := j + 1;
      }
    }

    /** RcmServer_addSymbol */
    method AddSymbol(name: string, fxn: nat) returns (status: Status, index: Option<nat>)
      requires |tabs| == MAX_TABLES
      modifies this
      ensures Added(View(), status, index) == FxnTable.AddSymbol(old(View()), name, fxn)
    {
      var i, j, found := 1, 0, false;
      while i < MAX_TABLES && !found
        invariant 1 <= i <= MAX_TABLES && |tabs| == MAX_TABLES && key == old(key) && issued == old(issued)
        invariant !found ==> tabs == old(tabs) && FreePlace(tabs, i) == FreePlace(tabs, 1)
        invariant found ==> i < MAX_TABLES && FreePlace(old(tabs), 1) == Some((i, j)) && tabs == WithTable(old(tabs), i)
        decreases MAX_TABLES - i, !found
      {
        if tabs[i].Some? {
          FreePlaceStep(tabs, i);
          j := ScanFree(i);
          found := j < |tabs[i].value|;
        } else {
          tabs := tabs[i := Some(seq(Size(i), _ => EMPTY))];
          j, found := 0, true;
        }
        if !found {
          i := i + 1;
        }
      }
      if !found {
        return TableFull, None;
      }
      SizePositive(i);
      var slotKey := GetNextKey();
      tabs := tabs[i := Some(tabs[i].value[j := Slot(fxn, Some(name), slotKey, issued)])];
      status, index := Success, Some(Encode(slotKey, i, j));
    }

    /** The nested search of getSymIdx. */
    method Find(name: string) returns (place: Option<(nat, nat)>)
      requires |tabs| == MAX_TABLES
      ensures place == PlaceOf(tabs, 0, name)
    {
      var i := 0;
      while i < MAX_TABLES
        invariant i <= MAX_TABLES && PlaceOf(tabs, i, name) == PlaceOf(tabs, 0, name)
      {
        if tabs[i].Some? {
          var j := 0;
          while j < |tabs[i].value|
            invariant j <= |tabs[i].value|
            invariant forall k :: 0 <= k < j ==> tabs[i].value[k].name != Some(name)
          {
            if tabs[i].value[j].name == Some(name) {
              return Some((i, j));
            }
            j := j + 1;
          }
        }
        i := i + 1;
      }
      place := None;
    }

    /** RcmServer_getSymIdx_P */
    method GetSymIdx(name: string) returns (index: Option<nat>)
      requires |tabs| == MAX_TABLES
      ensures index == FxnTable.GetSymIdx(View(), name)
    {
      var place := Find(name);
      match place
      case None => index := None;
      case Some((i, j)) =>
        index := if i == 0 then Some(STATIC_BIT + j) else Some(Encode(tabs[i].value[j].key, i, j));
    }

    /** RcmServer_removeSymbol: the place is decoded again from the index that was found. */
    method RemoveSymbol(name: string) returns (status: Status)
      requires Inv(View())
      modifies this`tabs
      ensures Removed(View(), status) == FxnTable.RemoveSymbol(old(View()), name)
    {
      var index := GetSymIdx(name);
      if index == None {
        return SymbolNotFound;
      }
      if index.value >= STATIC_BIT {
        StaticIndex(View(), name);
        return SymbolStatic;
      }
      DynamicIndex(View(), name);
      var i, j := TableOf(index.value), OffsetOf(index.value);
      tabs := tabs[i := Some(tabs[i].value[j := EMPTY])];
      status := Success;
    }

    /** RcmServer_getFxnAddr_P */
    method GetFxnAddr(idx: nat) returns (r: Lookup)
      requires Addressable(View(), idx)
      ensures r == FxnTable.GetFxnAddr(View(), idx)
    {
      if idx >= STATIC_BIT {
        var j := idx % 0x1_0000;
        if tabs[0].None? || j >= |tabs[0].value| {
          return Invalid;
        }
        r := if j == 0 then Creator(tabs[0].value[j].fxn) else Function(tabs[0].value[j].fxn);
      } else {
        var i := TableOf(idx);
        if !(0 < i < MAX_TABLES) || tabs[i].None? {
          return Invalid;
        }
        var j := OffsetOf(idx);
        if tabs[i].value[j].key != KeyOf(idx) {
          return Invalid;
        }
        r := if j == 0 then Creator(0) else Function(tabs[i].value[j].fxn);
      }
    }
  }

  lemma NamedSlotKey(s: State, i: nat, j: nat)
    requires Inv(s) && HasSlot(s, i, j)
    ensures SlotAt(s, i, j).key <= KEY_RESET
  {
    var slot := SlotAt(s, i, j);
    assert SlotOk(slot, s.issued);
    if slot.fxn != 0 {
      KeysRepeat(slot.stamp, slot.stamp);
    }
  }

  /** An index with the static bit comes from table 0. */
  lemma StaticIndex(s: State, name: string)
    requires Inv(s) && GetSymIdx(s, name).Some? && GetSymIdx(s, name).value >= STATIC_BIT
    ensures PlaceOf(s.tabs, 0, name).value.0 == 0
  {
    var (i, j) := PlaceOf(s.tabs, 0, name).value;
    if i > 0 {
      NamedSlotKey(s, i, j);
      SizeFits(i);
      DecodeEncode(SlotAt(s, i, j).key, i, j);
    }
  }

  /** Without it, table and offset can be read off the index. */
  lemma DynamicIndex(s: State, name: string)
    requires Inv(s) && GetSymIdx(s, name).Some? && GetSymIdx(s, name).value < STATIC_BIT
    ensures var idx := GetSymIdx(s, name).value; PlaceOf(s.tabs, 0, name) == Some((TableOf(idx), OffsetOf(idx)))
    ensures TableOf(GetSymIdx(s, name).value) > 0
  {
    var (i, j) := PlaceOf(s.tabs, 0, name).value;
    NamedSlotKey(s, i, j);
    SizeFits(i);
    DecodeEncode(SlotAt(s, i, j).key, i, j);
  }
}
