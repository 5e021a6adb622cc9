/**
  Static functions in the server's table (src/ti/grcm/RcmServer.c): their indices and what a lookup
  of one gives, in every state of every run.
 */
module StaticSymbols {
  import opened Types
  import opened FxnTable

  /** The static functions are in table 0; slot j is the first of this name and holds this function. */
  predicate StaticSymbol(s: State, j: nat, name: string, fxn: nat) {
    && |s.tabs| == MAX_TABLES && s.tabs[0].Some? && j < |s.tabs[0].value|
    && s.tabs[0].value[j].name == Some(name) && s.tabs[0].value[j].fxn == fxn
    && forall k :: 0 <= k < j ==> s.tabs[0].value[k].name != Some(name)
  }

  lemma StepKeepsStatic(s: State, a: Action)
    requires Enabled(s, a)
    ensures |Apply(s, a).tabs| == MAX_TABLES && Apply(s, a).tabs[0] == s.tabs[0]
  {
  }

  /** No run of adds and removes changes the static table. */
  lemma {:induction false} RunKeepsStatic(s: State, acts: seq<Action>, s': State)
    requires |s.tabs| == MAX_TABLES && Run(s, acts, s')
    ensures |s'.tabs| == MAX_TABLES && s'.tabs[0] == s.tabs[0]
    decreases |acts|
  {
    if acts != [] {
      StepKeepsStatic(s, acts[0]);
      RunKeepsStatic(Apply(s, acts[0]), acts[1..], s');
    }
  }

  lemma StaticPlace(s: State, j: nat, name: string, fxn: nat)
    requires StaticSymbol(s, j, name, fxn)
    ensures PlaceOf(s.tabs, 0, name) == Some((0, j))
  {
    var k := NamedIn(s.tabs[0].value, name);
    assert k == j;
  }

  /**
    After any run a static name has the index 0x80000000 + j, and up to slot 65535 that index calls
    the function of the slot; slot 0 holds a creator.
   */
  lemma StaticLooksUp(s: State, acts: seq<Action>, s': State, j: nat, name: string, fxn: nat)
    requires Run(s, acts, s') && StaticSymbol(s, j, name, fxn) && j < 0x1_0000
    ensures |s'.tabs| == MAX_TABLES && GetSymIdx(s', name) == Some(0x8000_0000 + j)
    ensures Addressable(s', 0x8000_0000 + j)
    ensures GetFxnAddr(s', 0x8000_0000 + j) == if j == 0 then Creator(fxn) else Function(fxn)
  {
    RunKeepsStatic(s, acts, s');
    StaticPlace(s', j, name, fxn);
    OwnSlot(s', j);
  }

  /** The lookup of a static index, as long as 16 bits hold the slot. */
  lemma OwnSlot(s: State, j: nat)
    requires |s.tabs| == MAX_TABLES && s.tabs[0].Some? && j < |s.tabs[0].value| && j < 0x1_0000
    ensures Addressable(s, 0x8000_0000 + j)
    ensures GetFxnAddr(s, 0x8000_0000 + j) ==
            if j == 0 then Creator(s.tabs[0].value[0].fxn) else Function(s.tabs[0].value[j].fxn)
  {
    assert (0x8000_0000 + j) % 0x1_0000 == j;
  }

  /** A slot further on is out of reach: its index calls the slot 65536 places, or more, before it. */
  lemma FarSlotIsLost(s: State, j: nat, name: string, fxn: nat)
    requires StaticSymbol(s, j, name, fxn) && j >= 0x1_0000
    ensures GetSymIdx(s, name) == Some(0x8000_0000 + j) && Addressable(s, 0x8000_0000 + j)
    ensures GetFxnAddr(s, 0x8000_0000 + j) == GetFxnAddr(s, 0x8000_0000 + (j - 0x1_0000))
  {
    StaticPlace(s, j, name, fxn);
  }

  /**
    Exactly when all static symbols call their own functions, for a table of distinct ones: it has
    no more than 65536 slots.
   */
  lemma StaticTableCondition(s: State)
    requires |s.tabs| == MAX_TABLES && s.tabs[0].Some?
    requires forall j, k :: 0 <= j < k < |s.tabs[0].value| ==> s.tabs[0].value[j].fxn != s.tabs[0].value[k].fxn
    ensures |s.tabs[0].value| <= 0x1_0000 <==>
            forall j: nat :: j < |s.tabs[0].value| ==> CallsOwn(s, j)
  {
    forall j: nat | j < |s.tabs[0].value| && j < 0x1_0000 ensures CallsOwn(s, j) {
      OwnSlot(s, j);
    }
    if |s.tabs[0].value| > 0x1_0000 {
      assert !CallsOwn(s, 0x1_0000);
    }
  }

  predicate CallsOwn(s: State, j: nat)
    requires |s.tabs| == MAX_TABLES && s.tabs[0].Some? && j < |s.tabs[0].value|
  {
    GetFxnAddr(s, 0x8000_0000 + j) in {Function(s.tabs[0].value[j].fxn), Creator(s.tabs[0].value[j].fxn)}
  }

  /** An index with the static bit is invalid exactly if its low 16 bits lie past the table, after any run. */
  lemma StaticIndexCondition(s: State, acts: seq<Action>, s': State, idx: nat)
    requires |s.tabs| == MAX_TABLES && Run(s, acts, s') && 0x8000_0000 <= idx < 0x1_0000_0000
    ensures Addressable(s', idx)
    ensures GetFxnAddr(s', idx) == Invalid <==> s.tabs[0].None? || idx % 0x1_0000 >= |s.tabs[0].value|
  {
    RunKeepsStatic(s, acts, s');
  }

  /** A static symbol cannot be removed: the attempt says so and changes nothing, after any run. */
  lemma StaticStays(s: State, acts: seq<Action>, s': State, j: nat, name: string, fxn: nat)
    requires Run(s, acts, s') && StaticSymbol(s, j, name, fxn)
    ensures |s'.tabs| == MAX_TABLES && RemoveSymbol(s', name) == Removed(s', SymbolStatic)
  {
    RunKeepsStatic(s, acts, s');
    StaticPlace(s', j, name, fxn);
  }

  // ---------------------------------------------------------------- names that are not there

  predicate HasName(s: State, name: string)
    requires |s.tabs| == MAX_TABLES
  {
    exists i, j :: 0 <= i < MAX_TABLES && s.tabs[i].Some? && 0 <= j < |s.tabs[i].value| && s.tabs[i].value[j].name == Some(name)
  }

  lemma {:induction false} NotPlaced(tabs: seq<Option<seq<Slot>>>, k: nat, name: string, i: nat, j: nat)
    requires |tabs| == MAX_TABLES && PlaceOf(tabs, k, name).None?
    requires k <= i < MAX_TABLES && tabs[i].Some? && j < |tabs[i].value|
    ensures tabs[i].value[j].name != Some(name)
    decreases i - k
  {
    if k < i {
      NotPlaced(tabs, k + 1, name, i, j);
    }
  }

  /** A name is not found, and its removal refused without any change, exactly if no slot has it. */
  lemma NotFoundCondition(s: State, name: string)
    requires |s.tabs| == MAX_TABLES
    ensures GetSymIdx(s, name) == None <==> !HasName(s, name)
    ensures RemoveSymbol(s, name) == Removed(s, SymbolNotFound) <==> !HasName(s, name)
  {
    if PlaceOf(s.tabs, 0, name).None? {
      forall i, j | 0 <= i < MAX_TABLES && s.tabs[i].Some? && 0 <= j < |s.tabs[i].value|
        ensures s.tabs[i].value[j].name != Some(name)
      {
        NotPlaced(s.tabs, 0, name, i, j);
      }
    }
  }
}
