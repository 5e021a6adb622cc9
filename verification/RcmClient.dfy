/**
  The client object of src/ti/grcm/RcmClient.c.  Each method of the reply protocol is one stretch
  of RcmClient_getReturnMsg_P under `mbxLock` (or one blocking call between two of them); it is
  proved to be the action of the same name in module Mailman.
 */
module RcmClient {
  import opened Types
  import opened Mailman

  const MSGID_LIMIT := 0xFFFF

  /** The id after `id`: 16 bits, and never 0, which marks an invalid id. */
  function NextId(id: nat): nat {
    if id == MSGID_LIMIT then 1 else id + 1
  }

  function NthId(id: nat, n: nat): nat {
    if n == 0 then id else NextId(NthId(id, n - 1))
  }

  lemma StepRemainder(x: nat)
    ensures (x + 1) % MSGID_LIMIT == if x % MSGID_LIMIT == MSGID_LIMIT - 1 then 0 else x % MSGID_LIMIT + 1
  {
  }

  lemma SameRemainder(x: nat, n: nat)
    requires x < MSGID_LIMIT
    ensures (x + n) % MSGID_LIMIT == x <==> n % MSGID_LIMIT == 0
  {
  }

  /** The generator runs through all 65535 ids before it gives one out again. */
  lemma {:induction false} IdsRepeat(id: nat, n: nat)
    requires 1 <= id <= MSGID_LIMIT
    ensures NthId(id, n) == 1 + (id - 1 + n) % MSGID_LIMIT
    ensures NthId(id, n) == id <==> n % MSGID_LIMIT == 0
  {
    if n > 0 {
      IdsRepeat(id, n - 1);
      StepRemainder(id - 1 + n - 1);
    }
    SameRemainder(id - 1, n);
  }

  class Client {
    var msgId: nat               // last id given out
    var queueLock: bool          // true while a mailman owns the queue
    var msgQue: seq<Msg>         // replies that have arrived
    var newMail: seq<Msg>
    var recipients: seq<Recipient>
    var threads: map<Tid, Thread>
    ghost var returned: seq<Delivery>
    ghost var pending: set<MsgId>
    ghost var sent: set<Msg>

    ghost function View(): State
      reads this
    {
      State(queueLock, msgQue, newMail, recipients, threads, returned, pending, sent)
    }

    constructor ()
      ensures View() == INIT && msgId == MSGID_LIMIT
    {
      msgId := MSGID_LIMIT;
      queueLock, msgQue, newMail, recipients, threads := false, [], [], [], map[];
      returned, pending, sent := [], {}, {};
    }

    /** RcmClient_genMsgId_P */
    method GenMsgId() returns (id: nat)
      requires 1 <= msgId <= MSGID_LIMIT
      modifies this`msgId
      ensures id == msgId == NextId(old(msgId)) && 1 <= id <= MSGID_LIMIT
    {
      if msgId == MSGID_LIMIT {
        msgId := 1;
      } else {
        msgId := msgId + 1;
      }
      id := msgId;
    }

    /** Signals the first recipient that has no message yet. */
    method SignalSuccessor()
      modifies this`recipients
      ensures recipients == HandOver(old(recipients))
    {
      var i := 0;
      while i < |recipients|
        invariant i <= |recipients| && recipients == old(recipients)
        invariant forall k :: 0 <= k < i ==> recipients[k].slot.Some?
      {
        if recipients[i].slot.None? {
          recipients := recipients[i := recipients[i].(event := recipients[i].event + 1)];
          return;
        }
        i := i + 1;
      }
    }

    /** Puts a message into its owner's slot, or appends it to the new mail. */
    method DeliverToMailbox(m: Msg)
      modifies this`recipients, this`newMail
      ensures Post(recipients, newMail) == PutMail(Post(old(recipients), old(newMail)), m)
    {
      var i := 0;
      while i < |recipients|
        invariant i <= |recipients| && recipients == old(recipients) && newMail == old(newMail)
        invariant forall k :: 0 <= k < i ==> recipients[k].msgId != m.id
      {
        if recipients[i].msgId == m.id {
          recipients := recipients[i := recipients[i].(slot := Some(m))];
          recipients := recipients[i := recipients[i].(event := recipients[i].event + 1)];
          return;
        }
        i := i + 1;
      }
      newMail := newMail + [m];
    }

    /** MessageQ_get without blocking. */
    method Poll() returns (m: Option<Msg>)
      modifies this`msgQue
      ensures old(msgQue) == [] ==> m == None && msgQue == []
      ensures old(msgQue) != [] ==> m == Some(old(msgQue)[0]) && msgQue == old(msgQue)[1..]
    {
      if msgQue == [] {
        m := None;
      } else {
        m, msgQue := Some(msgQue[0]), msgQue[1..];
      }
    }

    /** Works through the hand and the queue until the mailman's own message is met. */
    method SortMail(id: MsgId, hand: Option<Msg>) returns (found: Option<Msg>)
      modifies this`msgQue, this`recipients, this`newMail
      ensures var mail := (if hand.Some? then [hand.value] else []) + old(msgQue);
              Round(found, msgQue, Post(recipients, newMail)) ==
              Sort(id, mail, Post(old(recipients), old(newMail)))
    {
      ghost var mail := (if hand.Some? then [hand.value] else []) + msgQue;
      found := None;
      var msg := hand;
      if msg == None {
        msg := Poll();
      }
      assert mail == (if msg.Some? then [msg.value] else []) + msgQue;
      while msg.Some?
        invariant found == None && (msg.None? ==> msgQue == [])
        invariant Sort(id, (if msg.Some? then [msg.value] else []) + msgQue, Post(recipients, newMail)) ==
                  Sort(id, mail, Post(old(recipients), old(newMail)))
        decreases |msgQue| + (if msg.Some? then 1 else 0)
      {
        ghost var rest := msgQue;
        assert ([msg.value] + msgQue)[1..] == msgQue;
        if msg.value.id == id {
          found := msg;
          SignalSuccessor();
          return;
        }
        DeliverToMailbox(msg.value);
        msg := Poll();
        assert rest == (if msg.Some? then [msg.value] else []) + msgQue;
      }
    }

    /** The mailman role: serve until the own message is found, or block on the empty queue. */
    method ServeAsMailman(t: Tid, hand: Option<Msg>) returns (found: Option<Msg>)
      requires t in threads
      modifies this
      ensures var mail := (if hand.Some? then [hand.value] else []) + old(msgQue);
              View() == RunMailman(old(View()), t, mail) && msgId == old(msgId)
      ensures found.Some? <==> t !in threads
    {
      queueLock := true;
      var id := threads[t].msgId;
      found := SortMail(id, hand);
      if found.Some? {
        queueLock := false;
        returned := returned + [Delivery(t, id, found.value)];
        threads := threads - {t};
      } else {
        threads := threads[t := Thread(id, Carrying(None))];
      }
    }

    /** From the top of the outer loop to the first blocking call. */
    method Attempt(t: Tid) returns (found: Option<Msg>)
      requires InPhase(View(), t, Ready)
      modifies this
      ensures View() == AttemptStep(old(View()), t) && msgId == old(msgId)
      ensures found.Some? <==> t !in threads
    {
      var id := threads[t].msgId;
      var i := 0;
      while i < |newMail|
        invariant i <= |newMail| && View() == old(View()) && msgId == old(msgId)
        invariant forall k :: 0 <= k < i ==> newMail[k].id != id
      {
        if newMail[i].id == id {
          found := Some(newMail[i]);
          returned := returned + [Delivery(t, id, newMail[i])];
          newMail := newMail[..i] + newMail[i + 1..];
          threads := threads - {t};
          return;
        }
        i := i + 1;
      }
      if !queueLock {
        found := ServeAsMailman(t, None);
        assert [] + old(msgQue) == old(msgQue);
      } else {
        recipients := recipients + [Recipient(t, id, None, 0)];
        threads := threads[t := Thread(id, Asleep)];
        found := None;
      }
    }

    /** The blocking MessageQ_get returns. */
    method Fetch(t: Tid)
      requires InPhase(View(), t, Carrying(None)) && msgQue != []
      modifies this`msgQue, this`threads
      ensures View() == FetchStep(old(View()), t)
    {
      threads := threads[t := Thread(threads[t].msgId, Carrying(Some(msgQue[0])))];
      msgQue := msgQue[1..];
    }

    /** The mailman takes the lock again with a message in hand. */
    method Deliver(t: Tid) returns (found: Option<Msg>)
      requires Holding(View(), t)
      modifies this
      ensures View() == DeliverStep(old(View()), t) && msgId == old(msgId)
      ensures found.Some? <==> t !in threads
    {
      found := ServeAsMailman(t, threads[t].phase.hand);
    }

    /** Position of a thread's own element on the wait list. */
    method Locate(t: Tid) returns (i: nat)
      ensures i == FindSelf(recipients, t)
    {
      i := 0;
      while i < |recipients| && recipients[i].tid != t
        invariant i <= |recipients|
        invariant forall k :: 0 <= k < i ==> recipients[k].tid != t
      {
        i := i + 1;
      }
    }

    /** SemThread_pend on the own event returns. */
    method Wake(t: Tid)
      requires Enabled(View(), Action.Wake(t))
      modifies this`recipients, this`threads
      ensures View() == WakeStep(old(View()), t)
    {
      var i := Locate(t);
      recipients := recipients[i := recipients[i].(event := recipients[i].event - 1)];
      threads := threads[t := Thread(threads[t].msgId, Awake)];
    }

    /** A woken recipient takes its message, or goes back to the top of the loop without one. */
    method Collect(t: Tid) returns (found: Option<Msg>)
      requires Enabled(View(), Action.Collect(t))
      modifies this
      ensures View() == CollectStep(old(View()), t) && msgId == old(msgId)
      ensures found.Some? <==> t !in threads
    {
      var i := Locate(t);
      found := recipients[i].slot;
      recipients := recipients[..i] + recipients[i + 1..];
      if found.Some? {
        returned := returned + [Delivery(t, threads[t].msgId, found.value)];
        threads := threads - {t};
      } else {
        threads := threads[t := Thread(threads[t].msgId, Ready)];
      }
    }
  }
}
