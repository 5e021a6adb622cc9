/**
  What every action of the reply protocol keeps: mail is conserved and goes to its owner, one
  thread at a time reads the queue, and a mailman that leaves always has a successor.
 */
module MailmanSafety {
  import opened Types
  import opened Mailman

  // ---------------------------------------------------------------- sums over threads and slots

  lemma {:induction false} HandsSplit(threads: map<Tid, Thread>, t: Tid, m: Msg)
    requires t in threads
    ensures InHands(threads, m) == InHand(threads[t], m) + InHands(threads - {t}, m)
    decreases |threads|
  {
    var u :| u in threads && InHands(threads, m) == InHand(threads[u], m) + InHands(threads - {u}, m);
    if u != t {
      HandsSplit(threads - {u}, t, m);
      HandsSplit(threads - {t}, u, m);
      assert threads - {u} - {t} == threads - {t} - {u};
    }
  }

  lemma HandsUpdate(threads: map<Tid, Thread>, t: Tid, th: Thread, m: Msg)
    ensures t in threads ==>
              InHands(threads[t := th], m) + InHand(threads[t], m) == InHands(threads, m) + InHand(th, m)
    ensures t !in threads ==> InHands(threads[t := th], m) == InHands(threads, m) + InHand(th, m)
  {
    HandsSplit(threads[t := th], t, m);
    assert threads[t := th] - {t} == threads - {t};
    if t in threads {
      HandsSplit(threads, t, m);
    } else {
      assert threads - {t} == threads;
    }
  }

  lemma {:induction false} SlotsAppend(a: seq<Recipient>, b: seq<Recipient>, m: Msg)
    ensures InSlots(a + b, m) == InSlots(a, m) + InSlots(b, m)
  {
    if a == [] {
      assert a + b == b;
    } else {
      assert (a + b)[1..] == a[1..] + b;
      SlotsAppend(a[1..], b, m);
    }
  }

  lemma SlotsSplit(rs: seq<Recipient>, i: nat, m: Msg)
    requires i < |rs|
    ensures InSlots(rs, m) == InSlots(rs[..i], m) + InSlot(rs[i], m) + InSlots(rs[i + 1..], m)
    ensures InSlots(rs, m) == InSlot(rs[i], m) + InSlots(Without(rs, i), m)
  {
    assert rs == rs[..i] + ([rs[i]] + rs[i + 1..]);
    SlotsAppend(rs[..i], [rs[i]] + rs[i + 1..], m);
    SlotsAppend([rs[i]], rs[i + 1..], m);
    SlotsAppend(rs[..i], rs[i + 1..], m);
  }

  lemma SlotsUpdate(rs: seq<Recipient>, i: nat, r: Recipient, m: Msg)
    requires i < |rs|
    ensures InSlots(rs[i := r], m) + InSlot(rs[i], m) == InSlots(rs, m) + InSlot(r, m)
  {
    SlotsSplit(rs, i, m);
    SlotsSplit(rs[i := r], i, m);
    assert rs[i := r][..i] == rs[..i] && rs[i := r][i + 1..] == rs[i + 1..];
  }

  lemma WithoutMail(mail: seq<Msg>, i: nat)
    requires i < |mail|
    ensures multiset(mail) == multiset(Without(mail, i)) + multiset{mail[i]}
  {
    assert mail == mail[..i] + [mail[i]] + mail[i + 1..];
  }

  // ---------------------------------------------------------------- the mailman's round

  ghost predicate Same(r: Recipient, r': Recipient) {
    && r'.tid == r.tid && r'.msgId == r.msgId && r'.event >= r.event
    && (r'.slot == r.slot || (r.slot.None? && r'.slot.Some? && r'.slot.value.id == r.msgId && r'.event > 0))
  }

  /** What a round may do to the wait list: fill empty slots with owners' mail, and signal. */
  ghost predicate Advanced(rs: seq<Recipient>, rs': seq<Recipient>) {
    |rs'| == |rs| && forall i :: 0 <= i < |rs| ==> Same(rs[i], rs'[i])
  }

  /** No recipient's mail lies in the new mail. */
  ghost predicate Claimed(p: Post) {
    forall i :: 0 <= i < |p.recipients| ==> !HasMail(p.newMail, p.recipients[i].msgId)
  }

  ghost function MailOf(p: Post, m: Msg): nat {
    multiset(p.newMail)[m] + InSlots(p.recipients, m)
  }

  /** The slots that are filled hold other messages than those in `mail`. */
  ghost predicate Fresh(rs: seq<Recipient>, mail: seq<Msg>) {
    && (forall i, k :: 0 <= i < |rs| && 0 <= k < |mail| && rs[i].slot.Some? ==> rs[i].slot.value.id != mail[k].id)
    && (forall i, k :: 0 <= i < k < |mail| ==> mail[i].id != mail[k].id)
    && (forall i :: 0 <= i < |rs| && rs[i].slot.Some? ==> rs[i].slot.value.id == rs[i].msgId)
  }

  lemma PutMailKeeps(p: Post, mail: seq<Msg>)
    requires mail != [] && Fresh(p.recipients, mail) && Claimed(p)
    ensures var p' := PutMail(p, mail[0]);
            && Advanced(p.recipients, p'.recipients)
            && Claimed(p')
            && Fresh(p'.recipients, mail[1..])
            && forall id :: id != mail[0].id && HasMail(p'.newMail, id) ==> HasMail(p.newMail, id)
  {
  }

  lemma PutMailCounts(p: Post, m: Msg, n: Msg)
    requires var i := FindOwner(p.recipients, m.id); i < |p.recipients| ==> p.recipients[i].slot.None?
    ensures MailOf(PutMail(p, m), n) == MailOf(p, n) + multiset([m])[n]
  {
    var i := FindOwner(p.recipients, m.id);
    if i < |p.recipients| {
      SlotsUpdate(p.recipients, i, PutMail(p, m).recipients[i], n);
      assert PutMail(p, m).recipients == p.recipients[i := PutMail(p, m).recipients[i]];
    }
  }

  ghost function InFound(r: Round, n: Msg): nat {
    if r.found == Some(n) then 1 else 0
  }

  ghost predicate SomeSignalled(rs: seq<Recipient>) {
    (exists i :: 0 <= i < |rs| && rs[i].slot.None?) ==>
      exists i :: 0 <= i < |rs| && rs[i].slot.None? && rs[i].event > 0
  }

  lemma HandOverKeeps(p: Post, n: Msg)
    requires Claimed(p)
    ensures var p' := p.(recipients := HandOver(p.recipients));
            && Advanced(p.recipients, p'.recipients) && Claimed(p') && SomeSignalled(p'.recipients)
            && MailOf(p', n) == MailOf(p, n)
  {
    var i := FindEmpty(p.recipients);
    if i < |p.recipients| {
      var rs' := HandOver(p.recipients);
      SlotsUpdate(p.recipients, i, rs'[i], n);
      assert rs' == p.recipients[i := rs'[i]];
      assert rs'[i].slot.None? && rs'[i].event > 0;
    }
  }

  lemma AdvancedTransitive(a: seq<Recipient>, b: seq<Recipient>, c: seq<Recipient>)
    requires Advanced(a, b) && Advanced(b, c)
    ensures Advanced(a, c)
  {
    forall i | 0 <= i < |a| ensures Same(a[i], c[i]) {
      assert Same(a[i], b[i]) && Same(b[i], c[i]);
    }
  }

  /** The mailman's whole round: what it leaves behind. */
  lemma {:induction false} SortKeeps(id: MsgId, mail: seq<Msg>, p: Post, n: Msg)
    requires Fresh(p.recipients, mail) && Claimed(p) && !HasMail(p.newMail, id)
    ensures var r := Sort(id, mail, p);
            && Advanced(p.recipients, r.post.recipients) && Claimed(r.post) && !HasMail(r.post.newMail, id)
            && (r.found.Some? ==> r.found.value.id == id && SomeSignalled(r.post.recipients))
            && (r.found.None? ==> r.rest == [])
            && MailOf(r.post, n) + multiset(r.rest)[n] + InFound(r, n) == MailOf(p, n) + multiset(mail)[n]
    decreases |mail|
  {
    if mail == [] {
    } else {
      assert mail == [mail[0]] + mail[1..];
      if mail[0].id == id {
        HandOverKeeps(p, n);
      } else {
        PutMailKeeps(p, mail);
        PutMailCounts(p, mail[0], n);
        var p' := PutMail(p, mail[0]);
        SortKeeps(id, mail[1..], p', n);
        AdvancedTransitive(p.recipients, p'.recipients, Sort(id, mail[1..], p').post.recipients);
      }
    }
  }

  // ---------------------------------------------------------------- what moves of mail keep

  /** `served` is the thread that leaves with its message in this step, if any. */
  ghost predicate MailMoved(s: State, s': State, served: Option<Delivery>) {
    && s'.pending == s.pending && s'.sent == s.sent
    && (forall n :: Transit(s', n) + (if served.Some? && served.value.msg == n then 1 else 0) == Transit(s, n))
    && (forall u :: u in s'.threads ==> u in s.threads && s'.threads[u].msgId == s.threads[u].msgId)
    && (match served
        case None => s'.threads.Keys == s.threads.Keys && s'.returned == s.returned
        case Some(d) =>
          && d.tid in s.threads && d.asked == s.threads[d.tid].msgId == d.msg.id
          && s'.threads.Keys == s.threads.Keys - {d.tid} && s'.returned == s.returned + [d])
  }

  lemma MailKept(s: State, s': State, served: Option<Delivery>)
    requires DistinctMail(s) && DistinctCallers(s) && RepliesExist(s) && Conserved(s) && ReturnedToOwner(s)
    requires MailMoved(s, s', served)
    ensures DistinctMail(s') && DistinctCallers(s') && RepliesExist(s') && Conserved(s') && ReturnedToOwner(s')
  {
    DistinctKept(s, s', served);
    RepliesKept(s, s', served);
    ConservedKept(s, s', served);
  }

  lemma DistinctKept(s: State, s': State, served: Option<Delivery>)
    requires DistinctMail(s) && DistinctCallers(s) && MailMoved(s, s', served)
    ensures DistinctMail(s') && DistinctCallers(s')
  {
    forall n ensures Transit(s', n) <= Transit(s, n) {
    }
  }

  lemma RepliesKept(s: State, s': State, served: Option<Delivery>)
    requires DistinctCallers(s) && RepliesExist(s) && MailMoved(s, s', served)
    ensures RepliesExist(s')
  {
    forall n ensures Transit(s', n) <= Transit(s, n) {
    }
    forall u | u in s'.threads && s'.threads[u].msgId !in s'.pending
      ensures InTransitId(s', s'.threads[u].msgId)
    {
      assert InTransitId(s, s.threads[u].msgId);
      var m :| Transit(s, m) > 0 && m.id == s.threads[u].msgId;
      assert Transit(s', m) > 0;
    }
  }

  lemma ConservedKept(s: State, s': State, served: Option<Delivery>)
    requires Conserved(s) && ReturnedToOwner(s) && MailMoved(s, s', served)
    ensures Conserved(s') && ReturnedToOwner(s')
  {
    forall m ensures Transit(s', m) + Letters(s'.returned, m) == if m in s'.sent then 1 else 0 {
      assert Transit(s, m) + Letters(s.returned, m) == if m in s.sent then 1 else 0;
      if served.Some? {
        assert s'.returned[..|s'.returned| - 1] == s.returned;
      }
    }
  }

  /** What holds when thread t enters the mailman role with `mail` to sort. */
  ghost predicate ReadyToRun(s: State, t: Tid, mail: seq<Msg>) {
    && ListMatches(s) && DistinctCallers(s) && DistinctMail(s) && SlotsOwned(s) && MailUnclaimed(s)
    && t in s.threads && !OnList(s, t)
    && (forall u :: u in s.threads && s.threads[u].phase.Carrying? ==> u == t)
    && !HasMail(s.newMail, s.threads[t].msgId)
    && (forall n :: multiset(mail)[n] == multiset(s.queue)[n] + InHand(s.threads[t], n))
  }

  lemma RunCovers(s: State, t: Tid, mail: seq<Msg>, n: Msg)
    requires ReadyToRun(s, t, mail) && Conserved(s)
    ensures multiset(mail)[n] + InSlots(s.recipients, n) <= Transit(s, n) <= 1
  {
    HandsSplit(s.threads, t, n);
    assert Transit(s, n) + Letters(s.returned, n) == if n in s.sent then 1 else 0;
  }

  lemma OccursOnce(mail: seq<Msg>, i: nat, k: nat)
    requires i < k < |mail| && mail[i] == mail[k]
    ensures multiset(mail)[mail[i]] >= 2
  {
    assert mail == mail[..i] + ([mail[i]] + mail[i + 1..]);
    assert mail[i + 1..][k - i - 1] == mail[k];
    assert mail[k] in multiset(mail[i + 1..]);
  }

  lemma RunDistinct(s: State, t: Tid, mail: seq<Msg>, i: nat, k: nat)
    requires ReadyToRun(s, t, mail) && Conserved(s)
    requires i < k < |mail|
    ensures mail[i].id != mail[k].id
  {
    RunCovers(s, t, mail, mail[i]);
    RunCovers(s, t, mail, mail[k]);
    assert mail[i] in multiset(mail) && mail[k] in multiset(mail);
    if mail[i].id == mail[k].id {
      OccursOnce(mail, i, k);
    }
  }

  lemma RunSlotDistinct(s: State, t: Tid, mail: seq<Msg>, i: nat, k: nat)
    requires ReadyToRun(s, t, mail) && Conserved(s)
    requires i < |s.recipients| && k < |mail| && s.recipients[i].slot.Some?
    ensures s.recipients[i].slot.value.id != mail[k].id
  {
    var n := s.recipients[i].slot.value;
    SlotsSplit(s.recipients, i, n);
    RunCovers(s, t, mail, n);
    RunCovers(s, t, mail, mail[k]);
    assert mail[k] in multiset(mail);
  }

  lemma RunFresh(s: State, t: Tid, mail: seq<Msg>)
    requires ReadyToRun(s, t, mail) && Conserved(s)
    ensures Fresh(s.recipients, mail) && Claimed(Post(s.recipients, s.newMail))
  {
    forall i, k | 0 <= i < |s.recipients| && 0 <= k < |mail| && s.recipients[i].slot.Some?
      ensures s.recipients[i].slot.value.id != mail[k].id
    {
      RunSlotDistinct(s, t, mail, i, k);
    }
    forall i, k | 0 <= i < k < |mail| ensures mail[i].id != mail[k].id {
      RunDistinct(s, t, mail, i, k);
    }
    forall i | 0 <= i < |s.recipients| ensures !HasMail(s.newMail, s.recipients[i].msgId) {
      assert OnList(s, s.recipients[i].tid);
    }
  }

  lemma RunTransit(s: State, t: Tid, mail: seq<Msg>, n: Msg)
    requires ReadyToRun(s, t, mail) && Conserved(s)
    ensures var r := Sort(s.threads[t].msgId, mail, Post(s.recipients, s.newMail));
            Transit(RunMailman(s, t, mail), n) + InFound(r, n) == Transit(s, n)
  {
    RunFresh(s, t, mail);
    var id := s.threads[t].msgId;
    SortKeeps(id, mail, Post(s.recipients, s.newMail), n);
    HandsSplit(s.threads, t, n);
    HandsUpdate(s.threads, t, Thread(id, Carrying(None)), n);
  }

  lemma RunFinds(s: State, t: Tid, mail: seq<Msg>)
    requires ReadyToRun(s, t, mail) && Conserved(s)
    ensures var r := Sort(s.threads[t].msgId, mail, Post(s.recipients, s.newMail));
            r.found.Some? ==> r.found.value.id == s.threads[t].msgId
  {
    RunFresh(s, t, mail);
    SortKeeps(s.threads[t].msgId, mail, Post(s.recipients, s.newMail), Msg(0, 0));
  }

  lemma RunMoves(s: State, t: Tid, mail: seq<Msg>)
    requires ReadyToRun(s, t, mail) && Conserved(s)
    ensures var r := Sort(s.threads[t].msgId, mail, Post(s.recipients, s.newMail));
            MailMoved(s, RunMailman(s, t, mail),
                      if r.found.Some? then Some(Delivery(t, s.threads[t].msgId, r.found.value)) else None)
  {
    var r := Sort(s.threads[t].msgId, mail, Post(s.recipients, s.newMail));
    forall n ensures Transit(RunMailman(s, t, mail), n) + InFound(r, n) == Transit(s, n) {
      RunTransit(s, t, mail, n);
    }
    RunFinds(s, t, mail);
  }

  /** The wait list and the threads after a round, before anything is said about mail. */
  ghost predicate AfterRun(s: State, t: Tid, s': State) {
    && t in s.threads && !OnList(s, t)
    && (forall u :: u in s.threads && s.threads[u].phase.Carrying? ==> u == t)
    && Advanced(s.recipients, s'.recipients)
    && (forall u :: u != t && u in s.threads ==> u in s'.threads && s'.threads[u] == s.threads[u])
    && (forall u :: u != t && u in s'.threads ==> u in s.threads)
    && (t in s'.threads ==> s'.queueLock && s'.threads[t] == Thread(s.threads[t].msgId, Carrying(None)))
    && (t !in s'.threads ==> !s'.queueLock && SomeSignalled(s'.recipients))
    && Claimed(Post(s'.recipients, s'.newMail))
    && !HasMail(s'.newMail, s.threads[t].msgId)
  }

  lemma RunResult(s: State, t: Tid, mail: seq<Msg>)
    requires ReadyToRun(s, t, mail) && Conserved(s)
    ensures AfterRun(s, t, RunMailman(s, t, mail))
  {
    RunFresh(s, t, mail);
    SortKeeps(s.threads[t].msgId, mail, Post(s.recipients, s.newMail), Msg(0, 0));
  }

  lemma AfterRunList(s: State, t: Tid, s': State)
    requires ListMatches(s) && AfterRun(s, t, s')
    ensures ListMatches(s') && OneMailman(s')
  {
    forall i | 0 <= i < |s'.recipients|
      ensures s'.recipients[i].tid == s.recipients[i].tid && s'.recipients[i].msgId == s.recipients[i].msgId
    {
      assert Same(s.recipients[i], s'.recipients[i]);
    }
    forall u | OnList(s', u) ensures FindSelf(s'.recipients, u) < |s'.recipients| {
      assert OnList(s, u);
      assert s'.recipients[FindSelf(s.recipients, u)].tid == u;
    }
    if s'.queueLock {
      assert t in s'.threads && s'.threads[t].phase.Carrying?;
    }
  }

  lemma AfterRunSlots(s: State, t: Tid, s': State)
    requires ListMatches(s) && SlotsOwned(s) && AfterRun(s, t, s')
    ensures SlotsOwned(s') && HandedOver(s')
  {
    forall i | 0 <= i < |s'.recipients| && s'.recipients[i].slot.Some?
      ensures s'.recipients[i].slot.value.id == s'.recipients[i].msgId
      ensures s'.recipients[i].event > 0 || InPhase(s', s'.recipients[i].tid, Awake)
    {
      assert Same(s.recipients[i], s'.recipients[i]);
      assert OnList(s, s.recipients[i].tid);
    }
    if !s'.queueLock && EmptySlot(s') {
      var i :| 0 <= i < |s'.recipients| && s'.recipients[i].slot.None? && s'.recipients[i].event > 0;
      assert BoundRecipient(s', i);
    }
  }

  lemma AfterRunMail(s: State, t: Tid, s': State)
    requires ListMatches(s) && AfterRun(s, t, s')
    ensures MailUnclaimed(s')
  {
    forall u | u in s'.threads && s'.threads[u].phase != Ready
      ensures !HasMail(s'.newMail, s'.threads[u].msgId)
    {
      if u != t {
        assert OnList(s, u);
        var i := FindSelf(s.recipients, u);
        assert Same(s.recipients[i], s'.recipients[i]);
        assert !HasMail(s'.newMail, s'.recipients[i].msgId);
      }
    }
  }

  lemma RunKeeps(s: State, t: Tid, mail: seq<Msg>)
    requires ReadyToRun(s, t, mail) && Conserved(s) && RepliesExist(s) && ReturnedToOwner(s)
    ensures Inv(RunMailman(s, t, mail))
  {
    var s' := RunMailman(s, t, mail);
    RunResult(s, t, mail);
    AfterRunList(s, t, s');
    AfterRunSlots(s, t, s');
    AfterRunMail(s, t, s');
    var r := Sort(s.threads[t].msgId, mail, Post(s.recipients, s.newMail));
    RunMoves(s, t, mail);
    MailKept(s, s', if r.found.Some? then Some(Delivery(t, s.threads[t].msgId, r.found.value)) else None);
  }

  // ---------------------------------------------------------------- steps of one thread

  ghost predicate Carries(s: State, t: Tid) {
    t in s.threads && s.threads[t].phase.Carrying?
  }

  ghost predicate OthersSame(s: State, s': State, t: Tid) {
    && (forall u :: u != t && u in s.threads ==> u in s'.threads && s'.threads[u] == s.threads[u])
    && (forall u :: u != t && u in s'.threads ==> u in s.threads)
  }

  lemma OneMailmanKept(s: State, s': State, t: Tid)
    requires OneMailman(s) && OthersSame(s, s', t) && s'.queueLock == s.queueLock
    requires Carries(s, t) <==> Carries(s', t)
    ensures OneMailman(s')
  {
    if s.queueLock {
      var u :| u in s.threads && s.threads[u].phase.Carrying?;
      assert Carries(s, u);
      assert Carries(s', u);
    }
  }

  /** A step of a thread that is off the wait list and stays off it. */
  lemma OffListKept(s: State, s': State, t: Tid)
    requires ListMatches(s) && SlotsOwned(s) && OthersSame(s, s', t) && s'.recipients == s.recipients
    requires !OnList(s, t) && !OnList(s', t)
    ensures ListMatches(s') && SlotsOwned(s')
  {
    forall i | 0 <= i < |s.recipients|
      ensures s.recipients[i].tid != t && OnList(s, s.recipients[i].tid)
    {
    }
    forall u | OnList(s', u) ensures FindSelf(s'.recipients, u) < |s'.recipients| {
      assert OnList(s, u);
    }
  }

  /** Such a step leaves the list, its slots, the mailman and the succession in order. */
  lemma OffListStep(s: State, s': State, t: Tid)
    requires ListMatches(s) && SlotsOwned(s) && OneMailman(s) && HandedOver(s)
    requires OthersSame(s, s', t) && s'.recipients == s.recipients && s'.queueLock == s.queueLock
    requires !OnList(s, t) && !OnList(s', t) && (Carries(s, t) <==> Carries(s', t))
    requires forall id :: HasMail(s'.newMail, id) ==> HasMail(s.newMail, id)
    requires BoundCaller(s, t) ==> BoundCaller(s', t)
    ensures ListMatches(s') && SlotsOwned(s') && OneMailman(s') && HandedOver(s')
  {
    OneMailmanKept(s, s', t);
    OffListKept(s, s', t);
    BoundKept(s, s', t);
  }

  /** Threads that were bound for the mailman role stay bound when the wait list does not change. */
  lemma BoundKept(s: State, s': State, t: Tid)
    requires HandedOver(s) && OthersSame(s, s', t) && s'.queueLock == s.queueLock
    requires s'.recipients == s.recipients && !OnList(s, t)
    requires forall id :: HasMail(s'.newMail, id) ==> HasMail(s.newMail, id)
    requires BoundCaller(s, t) ==> BoundCaller(s', t)
    requires ListMatches(s)
    ensures HandedOver(s')
  {
    if !s'.queueLock && EmptySlot(s') {
      assert EmptySlot(s);
      if exists j: nat :: BoundRecipient(s, j) {
        var j: nat :| BoundRecipient(s, j);
        assert OnList(s, s.recipients[j].tid);
        assert BoundRecipient(s', j);
      } else {
        var u :| BoundCaller(s, u);
        assert BoundCaller(s', u);
      }
    }
  }

  // ---------------------------------------------------------------- the actions

  lemma CollectFromMail(s: State, t: Tid)
    requires Inv(s) && InPhase(s, t, Ready) && FindMail(s.newMail, s.threads[t].msgId) < |s.newMail|
    ensures Inv(AttemptStep(s, t))
  {
    CollectFromMailMoves(s, t);
    MailKept(s, AttemptStep(s, t), Some(Delivery(t, s.threads[t].msgId, s.newMail[FindMail(s.newMail, s.threads[t].msgId)])));
    CollectFromMailList(s, t);
    CollectFromMailRest(s, t);
  }

  lemma CollectFromMailList(s: State, t: Tid)
    requires ListMatches(s) && SlotsOwned(s) && OneMailman(s) && HandedOver(s)
    requires InPhase(s, t, Ready) && FindMail(s.newMail, s.threads[t].msgId) < |s.newMail|
    ensures var s' := AttemptStep(s, t); ListMatches(s') && SlotsOwned(s') && OneMailman(s') && HandedOver(s')
  {
    WithoutShrinks(s.newMail, FindMail(s.newMail, s.threads[t].msgId));
    OffListStep(s, AttemptStep(s, t), t);
  }

  lemma CollectFromMailRest(s: State, t: Tid)
    requires MailUnclaimed(s)
    requires InPhase(s, t, Ready) && FindMail(s.newMail, s.threads[t].msgId) < |s.newMail|
    ensures MailUnclaimed(AttemptStep(s, t))
  {
    WithoutShrinks(s.newMail, FindMail(s.newMail, s.threads[t].msgId));
  }

  lemma WithoutShrinks(mail: seq<Msg>, i: nat)
    requires i < |mail|
    ensures HasMail(mail, mail[i].id)
    ensures forall id :: HasMail(Without(mail, i), id) ==> HasMail(mail, id)
  {
    forall id | HasMail(Without(mail, i), id) ensures HasMail(mail, id) {
      var k :| 0 <= k < |mail| - 1 && Without(mail, i)[k].id == id;
      assert mail[if k < i then k else k + 1].id == id;
    }
  }

  lemma CollectFromMailMoves(s: State, t: Tid)
    requires InPhase(s, t, Ready) && FindMail(s.newMail, s.threads[t].msgId) < |s.newMail|
    ensures MailMoved(s, AttemptStep(s, t),
                      Some(Delivery(t, s.threads[t].msgId, s.newMail[FindMail(s.newMail, s.threads[t].msgId)])))
  {
    var s' := AttemptStep(s, t);
    var i := FindMail(s.newMail, s.threads[t].msgId);
    WithoutMail(s.newMail, i);
    forall n ensures Transit(s', n) + (if s.newMail[i] == n then 1 else 0) == Transit(s, n) {
      HandsSplit(s.threads, t, n);
    }
  }

  lemma JoinListMoves(s: State, t: Tid)
    requires InPhase(s, t, Ready) && s.queueLock && FindMail(s.newMail, s.threads[t].msgId) == |s.newMail|
    ensures MailMoved(s, AttemptStep(s, t), None)
  {
    var s' := AttemptStep(s, t);
    var id := s.threads[t].msgId;
    forall n ensures Transit(s', n) == Transit(s, n) {
      HandsUpdate(s.threads, t, Thread(id, Asleep), n);
      SlotsAppend(s.recipients, [Recipient(t, id, None, 0)], n);
    }
  }

  lemma JoinListList(s: State, t: Tid)
    requires ListMatches(s) && SlotsOwned(s) && InPhase(s, t, Ready) && s.queueLock
    requires FindMail(s.newMail, s.threads[t].msgId) == |s.newMail|
    ensures ListMatches(AttemptStep(s, t)) && SlotsOwned(AttemptStep(s, t))
  {
    var s' := AttemptStep(s, t);
    assert s'.recipients == s.recipients + [Recipient(t, s.threads[t].msgId, None, 0)];
    JoinedMatches(s, t, s');
    JoinedSlots(s, t, s');
  }

  /** Thread t has put itself at the end of the wait list. */
  ghost predicate Joined(s: State, t: Tid, s': State) {
    && InPhase(s, t, Ready) && InPhase(s', t, Asleep) && OthersSame(s, s', t)
    && s'.threads[t].msgId == s.threads[t].msgId
    && s'.recipients == s.recipients + [Recipient(t, s.threads[t].msgId, None, 0)]
  }

  lemma JoinedMatches(s: State, t: Tid, s': State)
    requires ListMatches(s) && Joined(s, t, s')
    ensures ListMatches(s')
  {
    forall i | 0 <= i < |s.recipients|
      ensures s.recipients[i].tid != t && OnList(s, s.recipients[i].tid)
    {
    }
    forall u | OnList(s', u) ensures FindSelf(s'.recipients, u) < |s'.recipients| {
      if u == t {
        assert s'.recipients[|s.recipients|].tid == t;
      } else {
        assert OnList(s, u);
        assert s'.recipients[FindSelf(s.recipients, u)].tid == u;
      }
    }
  }

  lemma JoinedSlots(s: State, t: Tid, s': State)
    requires ListMatches(s) && SlotsOwned(s) && Joined(s, t, s')
    ensures SlotsOwned(s')
  {
    forall i | 0 <= i < |s.recipients|
      ensures s'.recipients[i] == s.recipients[i] && s.recipients[i].tid != t && OnList(s, s.recipients[i].tid)
    {
    }
  }

  lemma JoinListRoles(s: State, t: Tid)
    requires OneMailman(s) && MailUnclaimed(s) && InPhase(s, t, Ready) && s.queueLock
    requires FindMail(s.newMail, s.threads[t].msgId) == |s.newMail|
    ensures OneMailman(AttemptStep(s, t)) && MailUnclaimed(AttemptStep(s, t)) && HandedOver(AttemptStep(s, t))
  {
    OneMailmanKept(s, AttemptStep(s, t), t);
    assert !HasMail(s.newMail, s.threads[t].msgId);
  }

  lemma JoinList(s: State, t: Tid)
    requires Inv(s) && InPhase(s, t, Ready) && s.queueLock
    requires FindMail(s.newMail, s.threads[t].msgId) == |s.newMail|
    ensures Inv(AttemptStep(s, t))
  {
    JoinListMoves(s, t);
    MailKept(s, AttemptStep(s, t), None);
    JoinListList(s, t);
    JoinListRoles(s, t);
  }

  lemma AttemptKeeps(s: State, t: Tid)
    requires Inv(s) && Enabled(s, Attempt(t))
    ensures Inv(AttemptStep(s, t))
  {
    var id := s.threads[t].msgId;
    if FindMail(s.newMail, id) < |s.newMail| {
      CollectFromMail(s, t);
    } else if !s.queueLock {
      ReadyAttempt(s, t);
      RunKeeps(s, t, s.queue);
    } else {
      JoinList(s, t);
    }
  }

  lemma FetchKeeps(s: State, t: Tid)
    requires Inv(s) && Enabled(s, Fetch(t))
    ensures Inv(FetchStep(s, t))
  {
    var s' := FetchStep(s, t);
    FetchMoves(s, t);
    MailKept(s, s', None);
    OneMailmanKept(s, s', t);
    OffListKept(s, s', t);
  }

  lemma FetchMoves(s: State, t: Tid)
    requires InPhase(s, t, Carrying(None)) && s.queue != []
    ensures MailMoved(s, FetchStep(s, t), None)
  {
    assert s.queue == [s.queue[0]] + s.queue[1..];
    forall n ensures Transit(FetchStep(s, t), n) == Transit(s, n) {
      HandsUpdate(s.threads, t, Thread(s.threads[t].msgId, Carrying(Some(s.queue[0]))), n);
    }
  }

  lemma DeliverKeeps(s: State, t: Tid)
    requires Inv(s) && Enabled(s, Deliver(t))
    ensures Inv(DeliverStep(s, t))
  {
    ReadyDeliver(s, t);
    RunKeeps(s, t, [s.threads[t].phase.hand.value] + s.queue);
  }

  lemma WakeKeeps(s: State, t: Tid)
    requires Inv(s) && Enabled(s, Wake(t))
    ensures Inv(WakeStep(s, t))
  {
    WakeMoves(s, t);
    MailKept(s, WakeStep(s, t), None);
    WakeListed(s, t);
    WakeUnclaimed(s, t);
  }

  lemma WakeListed(s: State, t: Tid)
    requires ListMatches(s) && SlotsOwned(s) && OneMailman(s) && HandedOver(s) && Enabled(s, Wake(t))
    ensures var s' := WakeStep(s, t); ListMatches(s') && SlotsOwned(s') && OneMailman(s') && HandedOver(s')
  {
    var s' := WakeStep(s, t);
    WakeWoken(s, t);
    WakeMatches(s, t, s');
    WakeSlots(s, t, s');
    OneMailmanKept(s, s', t);
    WakeBound(s, t, s');
  }

  lemma WakeUnclaimed(s: State, t: Tid)
    requires MailUnclaimed(s) && Enabled(s, Wake(t))
    ensures MailUnclaimed(WakeStep(s, t))
  {
  }

  lemma WakeMoves(s: State, t: Tid)
    requires Enabled(s, Wake(t))
    ensures MailMoved(s, WakeStep(s, t), None)
  {
    var s' := WakeStep(s, t);
    var i := FindSelf(s.recipients, t);
    assert s'.recipients == s.recipients[i := s'.recipients[i]];
    forall n ensures Transit(s', n) == Transit(s, n) {
      HandsUpdate(s.threads, t, Thread(s.threads[t].msgId, Awake), n);
      SlotsUpdate(s.recipients, i, s'.recipients[i], n);
    }
  }


  /** Thread t has taken a signal off its own element. */
  ghost predicate Woken(s: State, t: Tid, s': State) {
    var i := FindSelf(s.recipients, t);
    && i < |s.recipients| && |s'.recipients| == |s.recipients| && OthersSame(s, s', t)
    && InPhase(s, t, Asleep) && InPhase(s', t, Awake) && s'.threads[t].msgId == s.threads[t].msgId
    && (forall j :: 0 <= j < |s.recipients| && j != i ==> s'.recipients[j] == s.recipients[j])
    && s'.recipients[i] == s.recipients[i].(event := s'.recipients[i].event)
  }

  lemma WakeWoken(s: State, t: Tid)
    requires Enabled(s, Wake(t))
    ensures Woken(s, t, WakeStep(s, t))
  {
  }

  lemma SameListed(s: State, t: Tid, s': State)
    requires Woken(s, t, s')
    ensures forall u :: OnList(s', u) <==> OnList(s, u)
    ensures forall j :: 0 <= j < |s.recipients| ==>
              s'.recipients[j].tid == s.recipients[j].tid && s'.recipients[j].msgId == s.recipients[j].msgId
    ensures forall j :: 0 <= j < |s.recipients| ==> s'.recipients[j].slot == s.recipients[j].slot
  {
  }

  lemma WakeMatches(s: State, t: Tid, s': State)
    requires ListMatches(s) && Woken(s, t, s')
    ensures ListMatches(s')
  {
    SameListed(s, t, s');
    forall u | OnList(s', u) ensures FindSelf(s'.recipients, u) < |s'.recipients| {
      assert s'.recipients[FindSelf(s.recipients, u)].tid == u;
    }
    forall j | 0 <= j < |s'.recipients|
      ensures OnList(s', s'.recipients[j].tid) && s'.threads[s'.recipients[j].tid].msgId == s'.recipients[j].msgId
    {
      assert OnList(s, s.recipients[j].tid);
    }
  }

  lemma WakeSlots(s: State, t: Tid, s': State)
    requires SlotsOwned(s) && Woken(s, t, s')
    ensures SlotsOwned(s')
  {
    SameListed(s, t, s');
    forall j | 0 <= j < |s'.recipients| && s'.recipients[j].slot.Some?
      ensures s'.recipients[j].slot.value.id == s'.recipients[j].msgId
      ensures s'.recipients[j].event > 0 || InPhase(s', s'.recipients[j].tid, Awake)
    {
      assert s.recipients[j].slot.Some?;
    }
  }

  lemma WakeBound(s: State, t: Tid, s': State)
    requires HandedOver(s) && Woken(s, t, s')
    requires s'.queueLock == s.queueLock && s'.newMail == s.newMail
    ensures HandedOver(s')
  {
    SameListed(s, t, s');
    if !s'.queueLock && EmptySlot(s') {
      var k :| 0 <= k < |s'.recipients| && s'.recipients[k].slot.None?;
      assert s.recipients[k].slot.None?;
      if exists j: nat :: BoundRecipient(s, j) {
        var j: nat :| BoundRecipient(s, j);
        assert BoundRecipient(s', j);
      } else {
        var u :| BoundCaller(s, u);
        assert BoundCaller(s', u);
      }
    }
  }

  /** Where the recipients stand after thread t took its own element off the list. */
  ghost predicate Shifted(s: State, t: Tid, s': State) {
    var i := FindSelf(s.recipients, t);
    && i < |s.recipients| && |s'.recipients| == |s.recipients| - 1
    && (forall j :: 0 <= j < i ==> s'.recipients[j] == s.recipients[j] && s.recipients[j].tid != t)
    && (forall j :: i <= j < |s'.recipients| ==> s'.recipients[j] == s.recipients[j + 1] && s.recipients[j + 1].tid != t)
  }

  lemma CollectShifts(s: State, t: Tid)
    requires ListMatches(s) && Enabled(s, Collect(t))
    ensures Shifted(s, t, CollectStep(s, t))
  {
    var i, rs := FindSelf(s.recipients, t), CollectStep(s, t).recipients;
    assert rs == Without(s.recipients, i);
    forall j | i <= j < |rs| ensures rs[j] == s.recipients[j + 1] && s.recipients[j + 1].tid != t {
      assert s.recipients[i].tid == t;
    }
  }

  lemma CollectOthers(s: State, t: Tid)
    requires Enabled(s, Collect(t))
    ensures OthersSame(s, CollectStep(s, t), t) && !OnList(CollectStep(s, t), t)
  {
  }

  /** Where recipient j of the shorter list stood before. */
  function Origin(i: nat, j: nat): nat {
    if j < i then j else j + 1
  }

  lemma Stood(s: State, t: Tid, s': State, j: nat)
    requires ListMatches(s) && Shifted(s, t, s') && OthersSame(s, s', t) && j < |s'.recipients|
    ensures var k := Origin(FindSelf(s.recipients, t), j);
            k < |s.recipients| && s'.recipients[j] == s.recipients[k]
    ensures var r := s'.recipients[j];
            r.tid != t && OnList(s', r.tid) && s'.threads[r.tid] == s.threads[r.tid] && s.threads[r.tid].msgId == r.msgId
  {
    var k := Origin(FindSelf(s.recipients, t), j);
    assert s'.recipients[j] == s.recipients[k];
    assert OnList(s, s.recipients[k].tid);
  }

  lemma StaysListed(s: State, t: Tid, s': State, u: Tid)
    requires ListMatches(s) && Shifted(s, t, s') && u != t && OnList(s, u)
    ensures FindSelf(s'.recipients, u) < |s'.recipients|
  {
    var i, k := FindSelf(s.recipients, t), FindSelf(s.recipients, u);
    if k < i {
      assert s'.recipients[k].tid == u;
    } else {
      assert s'.recipients[k - 1] == s.recipients[k];
      assert s'.recipients[k - 1].tid == u;
    }
  }

  lemma CollectApart(s: State, t: Tid, s': State, i: nat, j: nat)
    requires ListMatches(s) && Shifted(s, t, s') && OthersSame(s, s', t) && i < j < |s'.recipients|
    ensures s'.recipients[i].tid != s'.recipients[j].tid
  {
    Stood(s, t, s', i);
    Stood(s, t, s', j);
  }

  lemma CollectList(s: State, t: Tid, s': State)
    requires ListMatches(s) && Shifted(s, t, s') && OthersSame(s, s', t) && !OnList(s', t)
    ensures ListMatches(s')
  {
    forall u | OnList(s', u) ensures FindSelf(s'.recipients, u) < |s'.recipients| {
      StaysListed(s, t, s', u);
    }
    forall j | 0 <= j < |s'.recipients|
      ensures OnList(s', s'.recipients[j].tid) && s'.threads[s'.recipients[j].tid].msgId == s'.recipients[j].msgId
    {
      Stood(s, t, s', j);
    }
    forall i, j | 0 <= i < j < |s'.recipients| ensures s'.recipients[i].tid != s'.recipients[j].tid {
      CollectApart(s, t, s', i, j);
    }
  }

  lemma CollectSlots(s: State, t: Tid, s': State)
    requires ListMatches(s) && SlotsOwned(s) && Shifted(s, t, s') && OthersSame(s, s', t)
    ensures SlotsOwned(s')
  {
    forall j | 0 <= j < |s'.recipients| && s'.recipients[j].slot.Some?
      ensures s'.recipients[j].slot.value.id == s'.recipients[j].msgId
      ensures s'.recipients[j].event > 0 || InPhase(s', s'.recipients[j].tid, Awake)
    {
      Stood(s, t, s', j);
    }
  }

  lemma CollectBound(s: State, t: Tid, s': State)
    requires HandedOver(s) && Shifted(s, t, s') && OthersSame(s, s', t) && s'.queueLock == s.queueLock
    requires s'.newMail == s.newMail && OnList(s, t)
    requires s.recipients[FindSelf(s.recipients, t)].slot.None? ==> BoundCaller(s', t)
    ensures HandedOver(s')
  {
    var i := FindSelf(s.recipients, t);
    if !s'.queueLock && EmptySlot(s') && !s.recipients[i].slot.None? {
      var j :| 0 <= j < |s'.recipients| && s'.recipients[j].slot.None?;
      assert s.recipients[Origin(i, j)] == s'.recipients[j];
      assert EmptySlot(s);
      if exists k: nat :: BoundRecipient(s, k) {
        var k: nat :| BoundRecipient(s, k);
        assert k != i;
        assert BoundRecipient(s', if k < i then k else k - 1);
      } else {
        var u :| BoundCaller(s, u);
        assert BoundCaller(s', u);
      }
    }
  }

  lemma CollectTransit(s: State, t: Tid, n: Msg)
    requires Enabled(s, Collect(t))
    ensures var slot := s.recipients[FindSelf(s.recipients, t)].slot;
            Transit(CollectStep(s, t), n) + (if slot == Some(n) then 1 else 0) == Transit(s, n)
  {
    HandsSplit(s.threads, t, n);
    HandsUpdate(s.threads, t, Thread(s.threads[t].msgId, Ready), n);
    SlotsSplit(s.recipients, FindSelf(s.recipients, t), n);
  }

  lemma CollectOwn(s: State, t: Tid)
    requires ListMatches(s) && SlotsOwned(s) && Enabled(s, Collect(t))
    ensures var slot := s.recipients[FindSelf(s.recipients, t)].slot;
            slot.Some? ==> slot.value.id == s.threads[t].msgId
  {
    assert OnList(s, s.recipients[FindSelf(s.recipients, t)].tid);
  }

  lemma CollectMoves(s: State, t: Tid)
    requires ListMatches(s) && SlotsOwned(s) && Enabled(s, Collect(t))
    ensures var slot := s.recipients[FindSelf(s.recipients, t)].slot;
            MailMoved(s, CollectStep(s, t),
                      if slot.Some? then Some(Delivery(t, s.threads[t].msgId, slot.value)) else None)
  {
    CollectOwn(s, t);
    CollectMoved(s, t);
  }

  lemma CollectMoved(s: State, t: Tid)
    requires Enabled(s, Collect(t))
    requires var slot := s.recipients[FindSelf(s.recipients, t)].slot;
             slot.Some? ==> slot.value.id == s.threads[t].msgId
    ensures var slot := s.recipients[FindSelf(s.recipients, t)].slot;
            MailMoved(s, CollectStep(s, t),
                      if slot.Some? then Some(Delivery(t, s.threads[t].msgId, slot.value)) else None)
  {
    var slot := s.recipients[FindSelf(s.recipients, t)].slot;
    forall n ensures Transit(CollectStep(s, t), n) + (if slot == Some(n) then 1 else 0) == Transit(s, n) {
      CollectTransit(s, t, n);
    }
  }

  lemma CollectListed(s: State, t: Tid)
    requires ListMatches(s) && SlotsOwned(s) && OneMailman(s) && Enabled(s, Collect(t))
    ensures var s' := CollectStep(s, t); ListMatches(s') && SlotsOwned(s') && OneMailman(s')
  {
    var s' := CollectStep(s, t);
    CollectShifts(s, t);
    CollectOthers(s, t);
    CollectList(s, t, s');
    CollectSlots(s, t, s');
    OneMailmanKept(s, s', t);
  }

  lemma CollectRest(s: State, t: Tid)
    requires ListMatches(s) && HandedOver(s) && MailUnclaimed(s) && Enabled(s, Collect(t))
    ensures MailUnclaimed(CollectStep(s, t)) && HandedOver(CollectStep(s, t))
  {
    assert !HasMail(s.newMail, s.threads[t].msgId);
    CollectShifts(s, t);
    CollectOthers(s, t);
    CollectBound(s, t, CollectStep(s, t));
  }

  lemma CollectKeeps(s: State, t: Tid)
    requires Inv(s) && Enabled(s, Collect(t))
    ensures Inv(CollectStep(s, t))
  {
    var slot := s.recipients[FindSelf(s.recipients, t)].slot;
    CollectMoves(s, t);
    MailKept(s, CollectStep(s, t), if slot.Some? then Some(Delivery(t, s.threads[t].msgId, slot.value)) else None);
    CollectListed(s, t);
    CollectRest(s, t);
  }

  lemma SendKeeps(s: State, m: Msg)
    requires Inv(s) && Enabled(s, Send(m))
    ensures Inv(Apply(s, Send(m)))
  {
    SendReplies(s, m);
    SendMail(s, m);
    OutsideKeeps(s, Apply(s, Send(m)));
  }

  lemma SendTransit(s: State, m: Msg)
    requires Enabled(s, Send(m))
    ensures forall n :: Transit(Apply(s, Send(m)), n) == Transit(s, n) + if n == m then 1 else 0
  {
  }

  lemma SendMail(s: State, m: Msg)
    requires DistinctMail(s) && Conserved(s) && RepliesExist(s) && Enabled(s, Send(m))
    ensures DistinctMail(Apply(s, Send(m))) && Conserved(Apply(s, Send(m)))
  {
    SendTransit(s, m);
    assert !InTransitId(s, m.id);
  }

  lemma SendReplies(s: State, m: Msg)
    requires DistinctMail(s) && RepliesExist(s) && Enabled(s, Send(m))
    ensures RepliesExist(Apply(s, Send(m)))
  {
    var s' := Apply(s, Send(m));
    SendTransit(s, m);
    forall id ensures InTransitId(s', id) <==> InTransitId(s, id) || id == m.id {
      SendIds(s, m, id);
    }
  }

  lemma SendIds(s: State, m: Msg, id: MsgId)
    requires Enabled(s, Send(m))
    ensures InTransitId(Apply(s, Send(m)), id) <==> InTransitId(s, id) || id == m.id
  {
    var s' := Apply(s, Send(m));
    SendTransit(s, m);
    assert Transit(s', m) > 0;
    if InTransitId(s, id) {
      var n :| Transit(s, n) > 0 && n.id == id;
      assert Transit(s', n) > 0;
    } else if InTransitId(s', id) {
      var n :| Transit(s', n) > 0 && n.id == id;
      assert n == m;
    }
  }


  lemma CallList(s: State, t: Tid, id: MsgId)
    requires ListMatches(s) && SlotsOwned(s) && OneMailman(s) && HandedOver(s) && Enabled(s, Call(t, id))
    ensures var s' := Apply(s, Call(t, id)); ListMatches(s') && SlotsOwned(s') && OneMailman(s') && HandedOver(s')
  {
    OffListStep(s, Apply(s, Call(t, id)), t);
  }

  lemma CallRest(s: State, t: Tid, id: MsgId)
    requires DistinctCallers(s) && MailUnclaimed(s) && Enabled(s, Call(t, id))
    ensures DistinctCallers(Apply(s, Call(t, id))) && MailUnclaimed(Apply(s, Call(t, id)))
  {
    forall u | u in s.threads ensures s.threads[u].msgId != id {
    }
  }

  lemma CallKeeps(s: State, t: Tid, id: MsgId)
    requires Inv(s) && Enabled(s, Call(t, id))
    ensures Inv(Apply(s, Call(t, id)))
  {
    CallMail(s, t, id);
    CallList(s, t, id);
    CallRest(s, t, id);
  }

  lemma CallTransit(s: State, t: Tid, id: MsgId)
    requires Enabled(s, Call(t, id))
    ensures forall n :: Transit(Apply(s, Call(t, id)), n) == Transit(s, n)
  {
    forall n ensures Transit(Apply(s, Call(t, id)), n) == Transit(s, n) {
      HandsUpdate(s.threads, t, Thread(id, Ready), n);
    }
  }

  lemma CallMail(s: State, t: Tid, id: MsgId)
    requires DistinctMail(s) && RepliesExist(s) && Conserved(s) && Enabled(s, Call(t, id))
    ensures var s' := Apply(s, Call(t, id)); DistinctMail(s') && RepliesExist(s') && Conserved(s')
  {
    CallTransit(s, t, id);
    SameMail(s, Apply(s, Call(t, id)));
  }

  /** Ids in transit are the same when the same messages are. */
  lemma SameMail(s: State, s': State)
    requires forall n :: Transit(s', n) == Transit(s, n)
    ensures forall x :: InTransitId(s', x) <==> InTransitId(s, x)
  {
    forall x ensures InTransitId(s', x) <==> InTransitId(s, x) {
      if InTransitId(s', x) {
        var m :| Transit(s', m) > 0 && m.id == x;
        assert Transit(s, m) > 0;
      }
    }
  }

  /** A step of the client's or the server's side leaves the wait list and the threads alone. */
  ghost predicate Outside(s: State, s': State) {
    s'.threads == s.threads && s'.recipients == s.recipients && s'.newMail == s.newMail && s'.queueLock == s.queueLock
  }

  lemma OutsideKeepsList(s: State, s': State)
    requires ListMatches(s) && SlotsOwned(s) && Outside(s, s')
    ensures ListMatches(s') && SlotsOwned(s')
  {
    forall u ensures OnList(s', u) <==> OnList(s, u) {
    }
  }

  lemma OutsideKeepsRoles(s: State, s': State)
    requires OneMailman(s) && DistinctCallers(s) && MailUnclaimed(s) && Outside(s, s')
    ensures OneMailman(s') && DistinctCallers(s') && MailUnclaimed(s')
  {
  }

  lemma OutsideKeepsBound(s: State, s': State)
    requires HandedOver(s) && Outside(s, s')
    ensures HandedOver(s')
  {
    if !s'.queueLock && EmptySlot(s') {
      assert EmptySlot(s);
      if exists j: nat :: BoundRecipient(s, j) {
        var j: nat :| BoundRecipient(s, j);
        assert BoundRecipient(s', j);
      } else {
        var u :| BoundCaller(s, u);
        assert BoundCaller(s', u);
      }
    }
  }

  lemma OutsideKeeps(s: State, s': State)
    requires Inv(s) && Outside(s, s')
    ensures ListMatches(s') && OneMailman(s') && DistinctCallers(s') && SlotsOwned(s') && MailUnclaimed(s') && HandedOver(s')
  {
    OutsideKeepsList(s, s');
    OutsideKeepsRoles(s, s');
    OutsideKeepsBound(s, s');
  }

  lemma IssueMail(s: State, id: MsgId)
    requires DistinctMail(s) && RepliesExist(s) && Conserved(s) && Enabled(s, Issue(id))
    ensures var s' := Apply(s, Issue(id)); DistinctMail(s') && RepliesExist(s') && Conserved(s')
  {
    var s' := Apply(s, Issue(id));
    forall n ensures Transit(s', n) == Transit(s, n) {
    }
    SameMail(s, s');
  }

  lemma IssueKeeps(s: State, id: MsgId)
    requires Inv(s) && Enabled(s, Issue(id))
    ensures Inv(Apply(s, Issue(id)))
  {
    IssueMail(s, id);
    OutsideKeeps(s, Apply(s, Issue(id)));
  }

  lemma AttemptServed(s: State, t: Tid) returns (served: Option<Delivery>)
    requires Inv(s) && InPhase(s, t, Ready)
    ensures MailMoved(s, AttemptStep(s, t), served)
  {
    served := None;
    var id := s.threads[t].msgId;
    var i := FindMail(s.newMail, id);
    if i < |s.newMail| {
      CollectFromMailMoves(s, t);
      served := Some(Delivery(t, id, s.newMail[i]));
    } else if s.queueLock {
      JoinListMoves(s, t);
    } else {
      ReadyAttempt(s, t);
      served := RunServed(s, t, s.queue);
    }
  }

  lemma ReadyAttempt(s: State, t: Tid)
    requires Inv(s) && InPhase(s, t, Ready) && !s.queueLock && FindMail(s.newMail, s.threads[t].msgId) == |s.newMail|
    ensures ReadyToRun(s, t, s.queue)
  {
    forall n ensures InHand(s.threads[t], n) == 0 {
    }
  }

  lemma ReadyDeliver(s: State, t: Tid)
    requires Inv(s) && Holding(s, t)
    ensures ReadyToRun(s, t, [s.threads[t].phase.hand.value] + s.queue)
  {
    var m := s.threads[t].phase.hand.value;
    forall n ensures multiset([m] + s.queue)[n] == multiset(s.queue)[n] + InHand(s.threads[t], n) {
    }
  }

  lemma CollectServed(s: State, t: Tid) returns (served: Option<Delivery>)
    requires ListMatches(s) && SlotsOwned(s) && Enabled(s, Collect(t))
    ensures MailMoved(s, CollectStep(s, t), served)
  {
    CollectMoves(s, t);
    var slot := s.recipients[FindSelf(s.recipients, t)].slot;
    served := if slot.Some? then Some(Delivery(t, s.threads[t].msgId, slot.value)) else None;
  }

  /** A step of a calling thread moves mail about, and returns at most one letter to its owner. */
  lemma StepMoves(s: State, a: Action) returns (served: Option<Delivery>)
    requires Inv(s) && Enabled(s, a) && a.Internal()
    ensures MailMoved(s, Apply(s, a), served)
  {
    served := None;
    match a
    case Attempt(t) => served := AttemptServed(s, t);
    case Fetch(t) => FetchMoves(s, t);
    case Deliver(t) =>
      ReadyDeliver(s, t);
      served := RunServed(s, t, [s.threads[t].phase.hand.value] + s.queue);
    case Wake(t) => WakeMoves(s, t);
    case Collect(t) => served := CollectServed(s, t);
  }

  lemma RunServed(s: State, t: Tid, mail: seq<Msg>) returns (served: Option<Delivery>)
    requires ReadyToRun(s, t, mail) && Conserved(s)
    ensures MailMoved(s, RunMailman(s, t, mail), served)
  {
    RunMoves(s, t, mail);
    var r := Sort(s.threads[t].msgId, mail, Post(s.recipients, s.newMail));
    served := if r.found.Some? then Some(Delivery(t, s.threads[t].msgId, r.found.value)) else None;
  }

  /** Every action keeps the invariant. */
  lemma StepKeeps(s: State, a: Action)
    requires Inv(s) && Enabled(s, a)
    ensures Inv(Apply(s, a))
  {
    match a
    case Issue(id) => IssueKeeps(s, id);
    case Send(m) => SendKeeps(s, m);
    case Call(t, id) => CallKeeps(s, t, id);
    case Attempt(t) => AttemptKeeps(s, t);
    case Fetch(t) => FetchKeeps(s, t);
    case Deliver(t) => DeliverKeeps(s, t);
    case Wake(t) => WakeKeeps(s, t);
    case Collect(t) => CollectKeeps(s, t);
  }

  lemma {:induction false} RunKeepsInv(s: State, acts: seq<Action>, s': State)
    requires Inv(s) && Run(s, acts, s')
    ensures Inv(s')
    decreases |acts|
  {
    if acts != [] {
      StepKeeps(s, acts[0]);
      RunKeepsInv(Apply(s, acts[0]), acts[1..], s');
    }
  }

  lemma ReachableInv(s: State)
    requires Reachable(s)
    ensures Inv(s)
  {
    var acts :| Run(INIT, acts, s);
    forall m ensures Transit(INIT, m) == 0 {
    }
    RunKeepsInv(INIT, acts, s);
  }
}
