/**
  Every schedule of the reply protocol serves every caller: some thread can always move, every
  move lowers one natural number, and a thread that stops has its own reply.
 */
module MailmanLiveness {
  import opened Types
  import opened Mailman
  import opened MailmanSafety

  // ---------------------------------------------------------------- measure

  function Rank(th: Thread): nat {
    match th.phase
    case Ready => 12
    case Carrying(None) => 10
    case Carrying(Some(_)) => 17
    case Asleep => 11
    case Awake => 13
  }

  ghost function Weight(threads: map<Tid, Thread>): nat {
    if threads == map[] then 0
    else var t :| t in threads; Rank(threads[t]) + Weight(threads - {t})
  }

  function Events(rs: seq<Recipient>): nat {
    if rs == [] then 0 else rs[0].event + Events(rs[1..])
  }

  /** Queued messages, signals given and not taken, and how far each caller has come. */
  ghost function Measure(s: State): nat {
    8 * |s.queue| + 3 * Events(s.recipients) + Weight(s.threads)
  }

  lemma {:induction false} WeightSplit(threads: map<Tid, Thread>, t: Tid)
    requires t in threads
    ensures Weight(threads) == Rank(threads[t]) + Weight(threads - {t})
    decreases |threads|
  {
    var u :| u in threads && Weight(threads) == Rank(threads[u]) + Weight(threads - {u});
    if u != t {
      WeightSplit(threads - {u}, t);
      WeightSplit(threads - {t}, u);
      assert threads - {u} - {t} == threads - {t} - {u};
    }
  }

  lemma WeightUpdate(threads: map<Tid, Thread>, t: Tid, th: Thread)
    ensures t in threads ==> Weight(threads[t := th]) + Rank(threads[t]) == Weight(threads) + Rank(th)
    ensures t !in threads ==> Weight(threads[t := th]) == Weight(threads) + Rank(th)
  {
    WeightSplit(threads[t := th], t);
    assert threads[t := th] - {t} == threads - {t};
    if t in threads {
      WeightSplit(threads, t);
    } else {
      assert threads - {t} == threads;
    }
  }

  lemma {:induction false} EventsAppend(a: seq<Recipient>, b: seq<Recipient>)
    ensures Events(a + b) == Events(a) + Events(b)
  {
    if a == [] {
      assert a + b == b;
    } else {
      assert (a + b)[1..] == a[1..] + b;
      EventsAppend(a[1..], b);
    }
  }

  lemma EventsSplit(rs: seq<Recipient>, i: nat)
    requires i < |rs|
    ensures Events(rs) == Events(rs[..i]) + rs[i].event + Events(rs[i + 1..])
    ensures Events(rs) == rs[i].event + Events(Without(rs, i))
  {
    var a, b := rs[..i], rs[i + 1..];
    assert rs == a + ([rs[i]] + b);
    EventsAppend(a, [rs[i]] + b);
    assert ([rs[i]] + b)[1..] == b;
    EventsAppend(a, b);
  }

  lemma EventsUpdate(rs: seq<Recipient>, i: nat, r: Recipient)
    requires i < |rs|
    ensures Events(rs[i := r]) + rs[i].event == Events(rs) + r.event
  {
    EventsSplit(rs, i);
    EventsSplit(rs[i := r], i);
    assert rs[i := r][..i] == rs[..i] && rs[i := r][i + 1..] == rs[i + 1..];
  }

  /** A round gives at most one signal for each message it takes. */
  lemma {:induction false} SortEvents(id: MsgId, mail: seq<Msg>, p: Post)
    ensures var r := Sort(id, mail, p);
            && |r.rest| <= |mail| && (r.found.Some? ==> |r.rest| < |mail|)
            && Events(r.post.recipients) <= Events(p.recipients) + (|mail| - |r.rest|)
    decreases |mail|
  {
    if mail != [] {
      if mail[0].id == id {
        var i := FindEmpty(p.recipients);
        if i < |p.recipients| {
          EventsUpdate(p.recipients, i, HandOver(p.recipients)[i]);
        }
      } else {
        var p' := PutMail(p, mail[0]);
        var i := FindOwner(p.recipients, mail[0].id);
        if i < |p.recipients| {
          EventsUpdate(p.recipients, i, p'.recipients[i]);
          assert p'.recipients == p.recipients[i := p'.recipients[i]];
        }
        SortEvents(id, mail[1..], p');
      }
    }
  }

  lemma RunFalls(s: State, t: Tid, mail: seq<Msg>)
    requires t in s.threads
    ensures Measure(RunMailman(s, t, mail)) + Rank(s.threads[t]) <=
            Measure(s) + 8 * (|mail| - |s.queue|) + 10 - 5 * (if mail == [] then 0 else 1)
  {
    SortEvents(s.threads[t].msgId, mail, Post(s.recipients, s.newMail));
    WeightSplit(s.threads, t);
    WeightUpdate(s.threads, t, Thread(s.threads[t].msgId, Carrying(None)));
    var r := Sort(s.threads[t].msgId, mail, Post(s.recipients, s.newMail));
    SortEmpties(s.threads[t].msgId, mail, Post(s.recipients, s.newMail));
  }

  lemma {:induction false} SortEmpties(id: MsgId, mail: seq<Msg>, p: Post)
    ensures var r := Sort(id, mail, p); (r.found.None? ==> r.rest == []) && (mail != [] ==> |r.rest| < |mail|)
    decreases |mail|
  {
    if mail != [] && mail[0].id != id {
      SortEmpties(id, mail[1..], PutMail(p, mail[0]));
    }
  }

  /** Every step of a thread inside getReturnMsg lowers the measure. */
  lemma StepFalls(s: State, a: Action)
    requires Enabled(s, a) && a.Internal()
    ensures Measure(Apply(s, a)) < Measure(s)
  {
    match a
    case Attempt(t) => AttemptFalls(s, t);
    case Fetch(t) =>
      WeightUpdate(s.threads, t, Thread(s.threads[t].msgId, Carrying(Some(s.queue[0]))));
    case Deliver(t) =>
      RunFalls(s, t, [s.threads[t].phase.hand.value] + s.queue);
    case Wake(t) => WakeFalls(s, t);
    case Collect(t) => CollectFalls(s, t);
  }

  lemma AttemptFalls(s: State, t: Tid)
    requires InPhase(s, t, Ready)
    ensures Measure(AttemptStep(s, t)) < Measure(s)
  {
    var id := s.threads[t].msgId;
    WeightSplit(s.threads, t);
    if FindMail(s.newMail, id) < |s.newMail| {
    } else if !s.queueLock {
      RunFalls(s, t, s.queue);
    } else {
      EventsAppend(s.recipients, [Recipient(t, id, None, 0)]);
      WeightUpdate(s.threads, t, Thread(id, Asleep));
    }
  }

  lemma WakeFalls(s: State, t: Tid)
    requires Enabled(s, Wake(t))
    ensures Measure(WakeStep(s, t)) < Measure(s)
  {
    var i := FindSelf(s.recipients, t);
    EventsUpdate(s.recipients, i, s.recipients[i].(event := s.recipients[i].event - 1));
    WeightUpdate(s.threads, t, Thread(s.threads[t].msgId, Awake));
  }

  lemma CollectFalls(s: State, t: Tid)
    requires Enabled(s, Collect(t))
    ensures Measure(CollectStep(s, t)) < Measure(s)
  {
    EventsSplit(s.recipients, FindSelf(s.recipients, t));
    WeightSplit(s.threads, t);
    WeightUpdate(s.threads, t, Thread(s.threads[t].msgId, Ready));
  }

  /** What one request, reply or call adds to the measure at most. */
  function Cost(a: Action): nat {
    match a case Send(_) => 8 case Call(_, _) => 12 case _ => 0
  }

  lemma EnvironmentCost(s: State, a: Action)
    requires Enabled(s, a) && !a.Internal()
    ensures Measure(Apply(s, a)) == Measure(s) + Cost(a)
  {
    if a.Call? {
      WeightUpdate(s.threads, a.tid, Thread(a.id, Ready));
    }
  }

  function Steps(acts: seq<Action>): nat {
    if acts == [] then 0 else (if acts[0].Internal() then 1 else 0) + Steps(acts[1..])
  }

  function Costs(acts: seq<Action>): nat {
    if acts == [] then 0 else Cost(acts[0]) + Costs(acts[1..])
  }

  /** In any run, however calls and replies come in, the threads take a bounded number of steps. */
  lemma {:induction false} RunBounded(s: State, acts: seq<Action>, s': State)
    requires Run(s, acts, s')
    ensures Steps(acts) + Measure(s') <= Measure(s) + Costs(acts)
    decreases |acts|
  {
    if acts != [] {
      if acts[0].Internal() {
        StepFalls(s, acts[0]);
      } else {
        EnvironmentCost(s, acts[0]);
      }
      RunBounded(Apply(s, acts[0]), acts[1..], s');
    }
  }

  // ---------------------------------------------------------------- progress

  /** Every caller's reply has left the server. */
  ghost predicate AllAnswered(s: State) {
    forall t :: t in s.threads ==> s.threads[t].msgId !in s.pending
  }

  ghost predicate CanMove(s: State) {
    exists a: Action :: a.Internal() && Enabled(s, a)
  }

  lemma {:induction false} HandHolder(threads: map<Tid, Thread>, m: Msg)
    ensures InHands(threads, m) > 0 ==> exists t :: t in threads && threads[t].phase == Carrying(Some(m))
    decreases |threads|
  {
    if threads != map[] {
      var t :| t in threads && InHands(threads, m) == InHand(threads[t], m) + InHands(threads - {t}, m);
      HandHolder(threads - {t}, m);
      if InHand(threads[t], m) > 0 {
        assert threads[t].phase == Carrying(Some(m));
      } else if InHands(threads, m) > 0 {
        var u :| u in threads - {t} && (threads - {t})[u].phase == Carrying(Some(m));
        assert u in threads && threads[u].phase == Carrying(Some(m));
      }
    }
  }

  lemma {:induction false} SlotHolder(rs: seq<Recipient>, m: Msg)
    ensures InSlots(rs, m) > 0 ==> exists i :: 0 <= i < |rs| && rs[i].slot == Some(m)
  {
    if rs != [] {
      SlotHolder(rs[1..], m);
      if rs[0].slot != Some(m) && InSlots(rs, m) > 0 {
        var i :| 0 <= i < |rs[1..]| && rs[1..][i].slot == Some(m);
        assert rs[i + 1].slot == Some(m);
      }
    }
  }

  lemma MailHolds(mail: seq<Msg>, m: Msg)
    ensures multiset(mail)[m] > 0 ==> HasMail(mail, m.id)
  {
    if multiset(mail)[m] > 0 {
      assert m in mail;
    }
  }

  /** A slot that holds mail for t belongs to t. */
  lemma SlotForOwner(s: State, t: Tid, i: nat)
    requires Inv(s) && t in s.threads && i < |s.recipients| && s.recipients[i].slot.Some?
    requires s.recipients[i].slot.value.id == s.threads[t].msgId
    ensures OnList(s, t)
  {
    assert OnList(s, s.recipients[i].tid);
  }

  lemma NoSlotFor(s: State, t: Tid, m: Msg)
    requires Inv(s) && t in s.threads && !OnList(s, t) && m.id == s.threads[t].msgId
    ensures InSlots(s.recipients, m) == 0
  {
    SlotHolder(s.recipients, m);
    forall i | 0 <= i < |s.recipients| ensures s.recipients[i].slot != Some(m) {
      if s.recipients[i].slot == Some(m) {
        SlotForOwner(s, t, i);
      }
    }
  }

  /** A blocked mailman's own reply is in the queue. */
  lemma MailmanQueue(s: State, t: Tid)
    requires Inv(s) && AllAnswered(s) && InPhase(s, t, Carrying(None))
    ensures s.queue != []
  {
    var m :| Transit(s, m) > 0 && m.id == s.threads[t].msgId;
    MailHolds(s.newMail, m);
    HandHolder(s.threads, m);
    NoSlotFor(s, t, m);
  }

  /** While a caller waits for a reply that has been sent, some thread can move. */
  lemma Progress(s: State)
    requires Inv(s) && AllAnswered(s) && s.threads != map[]
    ensures CanMove(s)
  {
    var t :| t in s.threads;
    match s.threads[t].phase
    case Ready =>
      assert Enabled(s, Attempt(t));
    case Carrying(_) =>
      MailmanMoves(s, t);
    case Awake =>
      assert OnList(s, t);
      assert Enabled(s, Collect(t));
    case Asleep =>
      if s.queueLock {
        var u :| u in s.threads && s.threads[u].phase.Carrying?;
        MailmanMoves(s, u);
      } else {
        assert OnList(s, t);
        SleeperMoves(s, FindSelf(s.recipients, t));
      }
  }

  lemma MailmanMoves(s: State, t: Tid)
    requires Inv(s) && AllAnswered(s) && t in s.threads && s.threads[t].phase.Carrying?
    ensures CanMove(s)
  {
    if s.threads[t].phase.hand.None? {
      MailmanQueue(s, t);
      assert Enabled(s, Fetch(t));
    } else {
      assert Enabled(s, Deliver(t));
    }
  }

  /** A recipient that has been signalled can move. */
  lemma SignalledMoves(s: State, i: nat)
    requires Inv(s) && i < |s.recipients|
    requires s.recipients[i].event > 0 || InPhase(s, s.recipients[i].tid, Awake)
    ensures CanMove(s)
  {
    var t := s.recipients[i].tid;
    assert OnList(s, t);
    assert FindSelf(s.recipients, t) == i by {
      SelfFound(s.recipients, i);
    }
    if InPhase(s, t, Awake) {
      assert Enabled(s, Collect(t));
    } else {
      assert Enabled(s, Wake(t));
    }
  }

  lemma {:induction false} SelfFound(rs: seq<Recipient>, i: nat)
    requires i < |rs| && forall j, k :: 0 <= j < k < |rs| ==> rs[j].tid != rs[k].tid
    ensures FindSelf(rs, rs[i].tid) == i
  {
    if i > 0 {
      SelfFound(rs[1..], i - 1);
    }
  }

  lemma SleeperMoves(s: State, i: nat)
    requires Inv(s) && !s.queueLock && i < |s.recipients|
    ensures CanMove(s)
  {
    if s.recipients[i].slot.Some? {
      SignalledMoves(s, i);
    } else {
      assert EmptySlot(s);
      if exists k: nat :: BoundRecipient(s, k) {
        var k: nat :| BoundRecipient(s, k);
        SignalledMoves(s, k);
      } else {
        var u :| BoundCaller(s, u);
        assert Enabled(s, Attempt(u));
      }
    }
  }

  // ---------------------------------------------------------------- everyone is served

  ghost predicate AllInternal(acts: seq<Action>) {
    forall i :: 0 <= i < |acts| ==> acts[i].Internal()
  }

  ghost predicate Served(s: State, t: Tid, id: MsgId) {
    exists d :: d in s.returned && d.tid == t && d.asked == id && d.msg.id == id
  }

  /** A step leaves a thread waiting for the same message, or returns that message to it. */
  lemma StepServes(s: State, a: Action, t: Tid)
    requires Inv(s) && Enabled(s, a) && t in s.threads
    ensures var s' := Apply(s, a);
            && s.returned <= s'.returned
            && ((t in s'.threads && s'.threads[t].msgId == s.threads[t].msgId) || Served(s', t, s.threads[t].msgId))
  {
    var s' := Apply(s, a);
    if a.Internal() {
      var served := StepMoves(s, a);
    }
    if t !in s'.threads {
      assert s'.returned == s.returned + [s'.returned[|s.returned|]];
      var d := s'.returned[|s.returned|];
      assert d in s'.returned && d.tid == t && d.asked == s.threads[t].msgId && d.msg.id == d.asked;
    }
  }

  lemma {:induction false} RunServes(s: State, acts: seq<Action>, s': State, t: Tid)
    requires Inv(s) && Run(s, acts, s') && t in s.threads
    ensures s.returned <= s'.returned
    ensures (t in s'.threads && s'.threads[t].msgId == s.threads[t].msgId) || Served(s', t, s.threads[t].msgId)
    decreases |acts|
  {
    if acts != [] {
      var s1 := Apply(s, acts[0]);
      StepKeeps(s, acts[0]);
      StepServes(s, acts[0], t);
      if t in s1.threads {
        RunServes(s1, acts[1..], s', t);
      } else {
        RunReturned(s1, acts[1..], s');
        var d :| d in s1.returned && d.tid == t && d.asked == s.threads[t].msgId && d.msg.id == d.asked;
        assert d in s'.returned;
      }
    }
  }

  lemma {:induction false} RunReturned(s: State, acts: seq<Action>, s': State)
    requires Run(s, acts, s')
    ensures s.returned <= s'.returned
    decreases |acts|
  {
    if acts != [] {
      RunReturned(Apply(s, acts[0]), acts[1..], s');
    }
  }

  lemma {:induction false} InternalPending(s: State, acts: seq<Action>, s': State)
    requires AllAnswered(s) && AllInternal(acts) && Run(s, acts, s')
    ensures AllAnswered(s') && Steps(acts) == |acts| && Costs(acts) == 0
    decreases |acts|
  {
    if acts != [] {
      assert acts[0].Internal();
      assert AllAnswered(Apply(s, acts[0]));
      InternalPending(Apply(s, acts[0]), acts[1..], s');
    }
  }

  /**
    The main result.  From any reachable state in which every caller's reply has been sent, no
    schedule of the threads is longer than the measure, and a schedule that cannot be continued
    has returned to every caller the reply it asked for.
   */
  lemma EveryoneIsServed(s: State, acts: seq<Action>, s': State)
    requires Reachable(s) && AllAnswered(s)
    requires AllInternal(acts) && Run(s, acts, s')
    ensures |acts| <= Measure(s)
    ensures CanMove(s') <==> s'.threads != map[]
    ensures !CanMove(s') ==> forall t :: t in s.threads ==> Served(s', t, s.threads[t].msgId)
  {
    ReachableInv(s);
    ScheduleEnds(s, acts, s');
    RunKeepsInv(s, acts, s');
    MovesWhileWaiting(s');
    if s'.threads == map[] {
      AllServed(s, acts, s');
    }
  }

  lemma ScheduleEnds(s: State, acts: seq<Action>, s': State)
    requires AllAnswered(s) && AllInternal(acts) && Run(s, acts, s')
    ensures |acts| <= Measure(s) && AllAnswered(s')
  {
    InternalPending(s, acts, s');
    RunBounded(s, acts, s');
  }

  lemma MovesWhileWaiting(s: State)
    requires Inv(s) && AllAnswered(s)
    ensures CanMove(s) <==> s.threads != map[]
  {
    if s.threads != map[] {
      Progress(s);
    }
  }

  lemma AllServed(s: State, acts: seq<Action>, s': State)
    requires Inv(s) && Run(s, acts, s') && s'.threads == map[]
    ensures forall t :: t in s.threads ==> Served(s', t, s.threads[t].msgId)
  {
    forall t | t in s.threads ensures Served(s', t, s.threads[t].msgId) {
      RunServes(s, acts, s', t);
    }
  }

  // ---------------------------------------------------------------- readable consequences

  /** The mailman role is never left without a successor while someone still needs it. */
  lemma HandoverNeverStalls(s: State)
    requires Reachable(s) && !s.queueLock && EmptySlot(s)
    ensures SomeoneBound(s)
  {
    ReachableInv(s);
  }

  /** A caller that is bound for the role gets it at its next step, if the role is still free. */
  lemma BoundCallerBecomesMailman(s: State, t: Tid)
    requires !s.queueLock && BoundCaller(s, t)
    ensures Enabled(s, Attempt(t))
    ensures var s' := AttemptStep(s, t);
            InPhase(s', t, Carrying(None)) || (t !in s'.threads && SomeSignalled(s'.recipients))
  {
    assert FindMail(s.newMail, s.threads[t].msgId) == |s.newMail|;
    SortSignals(s.threads[t].msgId, s.queue, Post(s.recipients, s.newMail));
  }

  lemma {:induction false} SortSignals(id: MsgId, mail: seq<Msg>, p: Post)
    ensures var r := Sort(id, mail, p); r.found.Some? ==> SomeSignalled(r.post.recipients)
    decreases |mail|
  {
    if mail != [] {
      if mail[0].id == id {
        var i := FindEmpty(p.recipients);
        if i < |p.recipients| {
          assert HandOver(p.recipients)[i].slot.None? && HandOver(p.recipients)[i].event > 0;
        }
      } else {
        SortSignals(id, mail[1..], PutMail(p, mail[0]));
      }
    }
  }

  /** The first recipient that still waits for a message has been signalled. */
  ghost predicate FirstSignalled(rs: seq<Recipient>) {
    forall i :: 0 <= i < |rs| && rs[i].slot.None? && (forall k :: 0 <= k < i ==> rs[k].slot.Some?) ==> rs[i].event > 0
  }

  lemma HandsToFirst(rs: seq<Recipient>)
    ensures FirstSignalled(HandOver(rs))
  {
    var i := FindEmpty(rs);
    forall j | 0 <= j < |rs| && HandOver(rs)[j].slot.None? && (forall k :: 0 <= k < j ==> HandOver(rs)[k].slot.Some?)
      ensures HandOver(rs)[j].event > 0
    {
      assert HandOver(rs)[i].slot.None?;
      assert j == i;
    }
  }

  lemma {:induction false} SortHandsToFirst(id: MsgId, mail: seq<Msg>, p: Post)
    ensures var r := Sort(id, mail, p); r.found.Some? ==> FirstSignalled(r.post.recipients)
    decreases |mail|
  {
    if mail != [] {
      if mail[0].id == id {
        HandsToFirst(p.recipients);
      } else {
        SortHandsToFirst(id, mail[1..], PutMail(p, mail[0]));
      }
    }
  }

  /** A mailman that leaves with its message has signalled the first of those that still wait. */
  lemma LongestWaiterIsNext(s: State, t: Tid, mail: seq<Msg>)
    requires t in s.threads && t !in RunMailman(s, t, mail).threads
    ensures FirstSignalled(RunMailman(s, t, mail).recipients)
  {
    SortHandsToFirst(s.threads[t].msgId, mail, Post(s.recipients, s.newMail));
  }

  function Tids(rs: seq<Recipient>): (r: seq<Tid>)
    ensures |r| == |rs| && forall i :: 0 <= i < |rs| ==> r[i] == rs[i].tid
  {
    seq(|rs|, i requires 0 <= i < |rs| => rs[i].tid)
  }

  lemma RunTids(s: State, t: Tid, mail: seq<Msg>)
    requires t in s.threads
    ensures Tids(RunMailman(s, t, mail).recipients) == Tids(s.recipients)
  {
    SortTids(s.threads[t].msgId, mail, Post(s.recipients, s.newMail));
  }

  lemma {:induction false} SortTids(id: MsgId, mail: seq<Msg>, p: Post)
    ensures Tids(Sort(id, mail, p).post.recipients) == Tids(p.recipients)
    decreases |mail|
  {
    if mail != [] {
      if mail[0].id == id {
        assert Tids(HandOver(p.recipients)) == Tids(p.recipients);
      } else {
        SortTids(id, mail[1..], PutMail(p, mail[0]));
        assert Tids(PutMail(p, mail[0]).recipients) == Tids(p.recipients);
      }
    }
  }

  /** The wait list is in the order of arrival: threads join it at the end, and leave it from anywhere. */
  lemma ListInOrder(s: State, a: Action)
    requires Enabled(s, a)
    ensures var before, now := Tids(s.recipients), Tids(Apply(s, a).recipients);
            match a
            case Attempt(t) => now == before || now == before + [t]
            case Collect(t) => exists i :: 0 <= i < |before| && before[i] == t && now == before[..i] + before[i + 1..]
            case _ => now == before
  {
    match a
    case Attempt(t) =>
      if FindMail(s.newMail, s.threads[t].msgId) < |s.newMail| {
      } else if !s.queueLock {
        RunTids(s, t, s.queue);
      } else {
        assert Tids(AttemptStep(s, t).recipients) == Tids(s.recipients) + [t];
      }
    case Deliver(t) => RunTids(s, t, [s.threads[t].phase.hand.value] + s.queue);
    case Wake(t) => assert Tids(WakeStep(s, t).recipients) == Tids(s.recipients);
    case Collect(t) => CollectTids(s, t);
    case _ =>
  }

  lemma CollectTids(s: State, t: Tid)
    requires Enabled(s, Collect(t))
    ensures var before, i := Tids(s.recipients), FindSelf(s.recipients, t);
            i < |before| && before[i] == t && Tids(CollectStep(s, t).recipients) == before[..i] + before[i + 1..]
  {
    var i := FindSelf(s.recipients, t);
    assert CollectStep(s, t).recipients == s.recipients[..i] + s.recipients[i + 1..];
  }

  /** Each reply is in one place; what a caller gets is the reply it asked for. */
  lemma MailIsConserved(s: State, m: Msg)
    requires Reachable(s)
    ensures multiset(s.queue)[m] + InHands(s.threads, m) + multiset(s.newMail)[m] + InSlots(s.recipients, m)
            + Letters(s.returned, m) == if m in s.sent then 1 else 0
    ensures forall i :: 0 <= i < |s.returned| ==> s.returned[i].msg.id == s.returned[i].asked
  {
    ReachableInv(s);
    assert Transit(s, m) + Letters(s.returned, m) == if m in s.sent then 1 else 0;
  }

  /** Nobody sleeps unsignalled on mail that has arrived, and one thread at most reads the queue. */
  lemma NoForgottenSleeper(s: State, i: nat)
    requires Reachable(s) && i < |s.recipients|
    requires s.recipients[i].slot.Some? || HasMail(s.newMail, s.recipients[i].msgId)
    ensures s.recipients[i].slot.Some? && s.recipients[i].slot.value.id == s.recipients[i].msgId
    ensures s.recipients[i].event > 0 || InPhase(s, s.recipients[i].tid, Awake)
  {
    ReachableInv(s);
    assert OnList(s, s.recipients[i].tid);
  }

  lemma OneReader(s: State, t: Tid, u: Tid)
    requires Reachable(s)
    requires t in s.threads && u in s.threads && s.threads[t].phase.Carrying? && s.threads[u].phase.Carrying?
    ensures t == u && s.queueLock
  {
    ReachableInv(s);
  }
}
