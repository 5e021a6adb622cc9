/**
  A run of the function table after which an index calls a function that it was not issued for:
  2047 keys after the index was issued, in the same slot.
 */
module StaleIndex {
  import opened Types
  import opened FxnTable

  /** Slot (1, 0) is taken by some other symbol, the rest of table 1 is empty, and n keys are out. */
  ghost predicate OneTaken(s: State, n: nat) {
    Inv(s) && s.issued == n && s.tabs[0].None? && s.tabs[1].Some? && s.tabs[1].value[0].fxn != 0 &&
    s.tabs[1].value[0].name == Some("first") &&
    (forall j :: 1 <= j < Size(1) ==> s.tabs[1].value[j] == EMPTY) && forall i :: 2 <= i < MAX_TABLES ==> s.tabs[i].None?
  }

  /** Slot (1, 1) is taken as well, by this symbol with the n-th key. */
  ghost predicate TwoTaken(s: State, name: string, fxn: nat, n: nat) {
    Inv(s) && s.issued == n && s.tabs[0].None? && s.tabs[1].Some? && s.tabs[1].value[0].fxn != 0 &&
    s.tabs[1].value[0].name == Some("first") && n >= 1 && s.tabs[1].value[1] == Slot(fxn, Some(name), KeyAt(n), n) &&
    (forall j :: 2 <= j < Size(1) ==> s.tabs[1].value[j] == EMPTY) && forall i :: 2 <= i < MAX_TABLES ==> s.tabs[i].None?
  }

  lemma RunCons(s: State, a: Action, s1: State, acts: seq<Action>, t: State)
    requires Enabled(s, a) && s1 == Apply(s, a) && Run(s1, acts, t)
    ensures Run(s, [a] + acts, t)
  {
    assert ([a] + acts)[1..] == acts;
  }

  lemma FirstSize()
    ensures Size(1) == 32
  {
  }

  /** The next symbol goes to slot (1, 1). */
  lemma AddsSecond(s: State, name: string, fxn: nat, n: nat)
    requires OneTaken(s, n) && fxn != 0
    ensures TwoTaken(AddSymbol(s, name, fxn).state, name, fxn, n + 1)
  {
    FirstSize();
    NextKeyIs(s);
    AddKeeps(s, name, fxn);
    assert FreeIn(s.tabs[1].value) == 1;
    assert FreePlace(s.tabs, 1) == Some((1, 1));
  }

  lemma RemovesSecond(s: State, name: string, fxn: nat, n: nat)
    requires TwoTaken(s, name, fxn, n) && name != "first"
    ensures OneTaken(RemoveSymbol(s, name).state, n)
  {
    FirstSize();
    RemoveKeeps(s, name);
    assert NamedIn(s.tabs[1].value, name) == 1;
    assert PlaceOf(s.tabs, 1, name) == Some((1, 1)) == PlaceOf(s.tabs, 0, name);
  }

  /** A symbol comes and goes m times. */
  lemma {:induction false} Churn(s: State, name: string, fxn: nat, n: nat, m: nat) returns (acts: seq<Action>, t: State)
    requires OneTaken(s, n) && fxn != 0 && name != "first"
    ensures Run(s, acts, t) && OneTaken(t, n + m)
    decreases m
  {
    acts, t := [], s;
    if m > 0 {
      var s1 := AddSymbol(s, name, fxn).state;
      AddsSecond(s, name, fxn, n);
      var s2 := RemoveSymbol(s1, name).state;
      RemovesSecond(s1, name, fxn, n + 1);
      acts, t := Churn(s2, name, fxn, n + 1, m - 1);
      RunCons(s1, Remove(name), s2, acts, t);
      acts := [Remove(name)] + acts;
      RunCons(s, Add(name, fxn), s1, acts, t);
      acts := [Add(name, fxn)] + acts;
    }
  }

  function NewTable(): State {
    State([None, None, None, None, None, None, None, None, None], 0, 0)
  }

  lemma AddsFirst(fxn: nat)
    requires fxn != 0
    ensures Initial(NewTable()) && Inv(NewTable()) && OneTaken(AddSymbol(NewTable(), "first", fxn).state, 1)
  {
    FirstSize();
    NextKeyIs(NewTable());
    AddKeeps(NewTable(), "first", fxn);
    assert FreePlace(NewTable().tabs, 1) == Some((1, 0));
  }

  /** The index of slot (1, 1) with the n-th key names the symbol there. */
  lemma SecondIsHandle(s: State, name: string, fxn: nat, n: nat)
    requires TwoTaken(s, name, fxn, n)
    ensures Handle(s, Encode(KeyAt(n), 1, 1), name, fxn, n)
  {
    FirstSize();
    KeysRepeat(n, n);
    DecodeEncode(KeyAt(n), 1, 1);
  }

  /** The same key comes round after 2047 more. */
  lemma SameIndex(n: nat)
    requires n >= 1
    ensures Encode(KeyAt(n), 1, 1) == Encode(KeyAt(n + KEY_RESET), 1, 1)
  {
    KeysRepeat(n, n + KEY_RESET);
  }

  /**
    A reachable table in which `old` has index idx; the symbol is removed and others come and go;
    in the end idx is accepted and gives the function of another symbol, whatever the functions are.
   */
  lemma StaleIndexIsAccepted(f: nat, g: nat) returns (s: State, acts: seq<Action>, t: State, idx: nat)
    requires f != 0 && g != 0
    ensures Run(NewTable(), [Add("first", f), Add("old", f)], s) && Handle(s, idx, "old", f, 2)
    ensures Run(s, acts, t) && Remove("old") in acts && t.issued == 2 + KEY_RESET
    ensures Addressable(t, idx) && GetFxnAddr(t, idx) == Function(g) && Handle(t, idx, "new", g, 2 + KEY_RESET)
  {
    AddsFirst(f);
    var s1 := AddSymbol(NewTable(), "first", f).state;
    AddsSecond(s1, "old", f, 1);
    s := AddSymbol(s1, "old", f).state;
    RunCons(s1, Add("old", f), s, [], s);
    RunCons(NewTable(), Add("first", f), s1, [Add("old", f)] + [], s);
    assert [Add("first", f)] + ([Add("old", f)] + []) == [Add("first", f), Add("old", f)];
    idx := Encode(KeyAt(2), 1, 1);
    SecondIsHandle(s, "old", f, 2);
    acts, t := Replaced(s, f, g);
    SameIndex(2);
    SecondIsHandle(t, "new", g, 2 + KEY_RESET);
    HandleLooksUp(t, idx, "new", g, 2 + KEY_RESET);
    KeysRepeat(2, 2);
    DecodeEncode(KeyAt(2), 1, 1);
  }

  lemma Replaced(s: State, f: nat, g: nat) returns (acts: seq<Action>, t: State)
    requires TwoTaken(s, "old", f, 2) && g != 0
    ensures Run(s, acts, t) && Remove("old") in acts && TwoTaken(t, "new", g, 2 + KEY_RESET)
  {
    RemovesSecond(s, "old", f, 2);
    var s1 := RemoveSymbol(s, "old").state;
    var s2;
    acts, s2 := Churn(s1, "new", g, 2, KEY_RESET - 1);
    AddsSecond(s2, "new", g, 1 + KEY_RESET);
    t := AddSymbol(s2, "new", g).state;
    RunEndsWith(s1, acts, s2, Add("new", g));
    acts := acts + [Add("new", g)];
    RunCons(s, Remove("old"), s1, acts, t);
    acts := [Remove("old")] + acts;
  }

  lemma {:induction false} RunEndsWith(s: State, acts: seq<Action>, t: State, a: Action)
    requires Run(s, acts, t) && Enabled(t, a)
    ensures Run(s, acts + [a], Apply(t, a))
    decreases |acts|
  {
    if acts == [] {
      assert acts + [a] == [a] && [a][1..] == [];
    } else {
      assert (acts + [a])[1..] == acts[1..] + [a];
      RunEndsWith(Apply(s, acts[0]), acts[1..], t, a);
    }
  }
}
