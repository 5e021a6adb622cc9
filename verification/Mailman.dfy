/**
  The reply protocol of the RCM client (src/ti/grcm/RcmClient.c, RcmClient_getReturnMsg_P).

  Every stretch of code that holds `mbxLock` is one action.  Between actions a calling thread
  stands at one of the points named by `Phase`.
 */
module Mailman {
  import opened Types

  type Tid = nat
  type MsgId = nat

  /** A reply.  `id` is the message id, `serial` tells different replies apart. */
  datatype Msg = Msg(id: MsgId, serial: nat)

  /** The list element that a waiting thread puts on its own stack. */
  datatype Recipient = Recipient(tid: Tid, msgId: MsgId, slot: Option<Msg>, event: nat)

  /**
    Ready     at the top of the outer loop, off the wait list
    Carrying  owns `queueLock`; blocked on the message queue, or with a message in hand
    Asleep    on the wait list, pending on its own event
    Awake     on the wait list, event consumed, not yet in the lock
   */
  datatype Phase = Ready | Carrying(hand: Option<Msg>) | Asleep | Awake

  datatype Thread = Thread(msgId: MsgId, phase: Phase)

  datatype Delivery = Delivery(tid: Tid, asked: MsgId, msg: Msg)

  /**
    `queueLock` is true while some thread owns the queue.  `pending` holds the ids whose reply
    the server still owes; `sent` and `returned` are histories.
   */
  datatype State = State(
    queueLock: bool,
    queue: seq<Msg>,
    newMail: seq<Msg>,
    recipients: seq<Recipient>,
    threads: map<Tid, Thread>,
    returned: seq<Delivery>,
    pending: set<MsgId>,
    sent: set<Msg>)

  datatype Action =
    | Issue(id: MsgId)
    | Send(msg: Msg)
    | Call(tid: Tid, id: MsgId)
    | Attempt(tid: Tid)
    | Fetch(tid: Tid)
    | Deliver(tid: Tid)
    | Wake(tid: Tid)
    | Collect(tid: Tid)
  {
    /** Actions of the threads inside getReturnMsg, as opposed to the client's and server's. */
    predicate Internal() {
      Attempt? || Fetch? || Deliver? || Wake? || Collect?
    }
  }

  const INIT := State(false, [], [], [], map[], [], {}, {})

  // ---------------------------------------------------------------- list searches

  /** Position of the first letter with this id; the length of the list if there is none. */
  function FindMail(mail: seq<Msg>, id: MsgId): (i: nat)
    ensures i <= |mail|
    ensures i < |mail| ==> mail[i].id == id
    ensures forall k :: 0 <= k < i ==> mail[k].id != id
  {
    if mail == [] || mail[0].id == id then 0 else 1 + FindMail(mail[1..], id)
  }

  /** Position of the first recipient that waits for this id. */
  function FindOwner(rs: seq<Recipient>, id: MsgId): (i: nat)
    ensures i <= |rs|
    ensures i < |rs| ==> rs[i].msgId == id
    ensures forall k :: 0 <= k < i ==> rs[k].msgId != id
  {
    if rs == [] || rs[0].msgId == id then 0 else 1 + FindOwner(rs[1..], id)
  }

  /** Position of the first recipient whose slot is empty. */
  function FindEmpty(rs: seq<Recipient>): (i: nat)
    ensures i <= |rs|
    ensures i < |rs| ==> rs[i].slot.None?
    ensures forall k :: 0 <= k < i ==> rs[k].slot.Some?
  {
    if rs == [] || rs[0].slot.None? then 0 else 1 + FindEmpty(rs[1..])
  }

  /** Position of a thread's own list element. */
  function FindSelf(rs: seq<Recipient>, t: Tid): (i: nat)
    ensures i <= |rs|
    ensures i < |rs| ==> rs[i].tid == t
    ensures forall k :: 0 <= k < i ==> rs[k].tid != t
  {
    if rs == [] || rs[0].tid == t then 0 else 1 + FindSelf(rs[1..], t)
  }

  function Without<T>(s: seq<T>, i: nat): seq<T>
    requires i < |s|
  {
    s[..i] + s[i + 1..]
  }

  // ---------------------------------------------------------------- the mailman's round

  function Signal(rs: seq<Recipient>, i: nat): seq<Recipient>
    requires i < |rs|
  {
    rs[i := rs[i].(event := rs[i].event + 1)]
  }

  /** A mailman that leaves signals the first recipient that has no message yet. */
  function HandOver(rs: seq<Recipient>): seq<Recipient> {
    var i := FindEmpty(rs);
    if i < |rs| then Signal(rs, i) else rs
  }

  datatype Post = Post(recipients: seq<Recipient>, newMail: seq<Msg>)

  /** Puts one message into its owner's slot, or into the new mail if the owner is absent. */
  function PutMail(p: Post, m: Msg): Post {
    var i := FindOwner(p.recipients, m.id);
    if i < |p.recipients| then
      p.(recipients := Signal(p.recipients[i := p.recipients[i].(slot := Some(m))], i))
    else
      p.(newMail := p.newMail + [m])
  }

  datatype Round = Round(found: Option<Msg>, rest: seq<Msg>, post: Post)

  /** The mailman for `id` works through `mail` until it meets its own message. */
  function Sort(id: MsgId, mail: seq<Msg>, p: Post): Round {
    if mail == [] then Round(None, [], p)
    else if mail[0].id == id then
      Round(Some(mail[0]), mail[1..], p.(recipients := HandOver(p.recipients)))
    else Sort(id, mail[1..], PutMail(p, mail[0]))
  }

  /** Leave getReturnMsg with message m. */
  function Return(s: State, t: Tid, m: Msg): State
    requires t in s.threads
  {
    s.(threads := s.threads - {t},
       returned := s.returned + [Delivery(t, s.threads[t].msgId, m)])
  }

  /** The mailman role inside the lock, with `mail` the hand followed by the queue. */
  function RunMailman(s: State, t: Tid, mail: seq<Msg>): State
    requires t in s.threads
  {
    var id := s.threads[t].msgId;
    var r := Sort(id, mail, Post(s.recipients, s.newMail));
    var s1 := s.(queue := r.rest, recipients := r.post.recipients, newMail := r.post.newMail);
    if r.found.Some?
    then Return(s1.(queueLock := false), t, r.found.value)
    else s1.(queueLock := true, threads := s.threads[t := Thread(id, Carrying(None))])
  }

  // ---------------------------------------------------------------- actions

  predicate InPhase(s: State, t: Tid, p: Phase) {
    t in s.threads && s.threads[t].phase == p
  }

  predicate Holding(s: State, t: Tid) {
    t in s.threads && s.threads[t].phase.Carrying? && s.threads[t].phase.hand.Some?
  }

  ghost predicate Enabled(s: State, a: Action) {
    match a
    case Issue(id) => id !in s.pending && !InTransitId(s, id) && !Waiting(s, id)
    case Send(m) => m.id in s.pending && m !in s.sent
    case Call(t, id) =>
      t !in s.threads && !Waiting(s, id) && (id in s.pending || InTransitId(s, id)) &&
      forall d :: d in s.returned ==> d.tid != t
    case Attempt(t) => InPhase(s, t, Ready)
    case Fetch(t) => InPhase(s, t, Carrying(None)) && s.queue != []
    case Deliver(t) => Holding(s, t)
    case Wake(t) =>
      InPhase(s, t, Asleep) && var i := FindSelf(s.recipients, t);
      i < |s.recipients| && s.recipients[i].event > 0
    case Collect(t) => InPhase(s, t, Awake) && FindSelf(s.recipients, t) < |s.recipients|
  }

  function AttemptStep(s: State, t: Tid): State
    requires InPhase(s, t, Ready)
  {
    var id := s.threads[t].msgId;
    var i := FindMail(s.newMail, id);
    if i < |s.newMail| then Return(s.(newMail := Without(s.newMail, i)), t, s.newMail[i])
    else if !s.queueLock then RunMailman(s, t, s.queue)
    else s.(recipients := s.recipients + [Recipient(t, id, None, 0)],
            threads := s.threads[t := Thread(id, Asleep)])
  }

  function FetchStep(s: State, t: Tid): State
    requires InPhase(s, t, Carrying(None)) && s.queue != []
  {
    s.(queue := s.queue[1..],
       threads := s.threads[t := Thread(s.threads[t].msgId, Carrying(Some(s.queue[0])))])
  }

  function DeliverStep(s: State, t: Tid): State
    requires Holding(s, t)
  {
    RunMailman(s, t, [s.threads[t].phase.hand.value] + s.queue)
  }

  function WakeStep(s: State, t: Tid): State
    requires InPhase(s, t, Asleep)
    requires var i := FindSelf(s.recipients, t); i < |s.recipients| && s.recipients[i].event > 0
  {
    var i := FindSelf(s.recipients, t);
    s.(recipients := s.recipients[i := s.recipients[i].(event := s.recipients[i].event - 1)],
       threads := s.threads[t := Thread(s.threads[t].msgId, Awake)])
  }

  function CollectStep(s: State, t: Tid): State
    requires InPhase(s, t, Awake) && FindSelf(s.recipients, t) < |s.recipients|
  {
    var i := FindSelf(s.recipients, t);
    var s1 := s.(recipients := Without(s.recipients, i));
    match s.recipients[i].slot
    case Some(m) => Return(s1, t, m)
    case None => s1.(threads := s.threads[t := Thread(s.threads[t].msgId, Ready)])
  }

  ghost function Apply(s: State, a: Action): State
    requires Enabled(s, a)
  {
    match a
    case Issue(id) => s.(pending := s.pending + {id})
    case Send(m) => s.(queue := s.queue + [m], pending := s.pending - {m.id}, sent := s.sent + {m})
    case Call(t, id) => s.(threads := s.threads[t := Thread(id, Ready)])
    case Attempt(t) => AttemptStep(s, t)
    case Fetch(t) => FetchStep(s, t)
    case Deliver(t) => DeliverStep(s, t)
    case Wake(t) => WakeStep(s, t)
    case Collect(t) => CollectStep(s, t)
  }

  /** A finite schedule leads from one state to another. */
  ghost predicate Run(s: State, acts: seq<Action>, s': State)
    decreases |acts|
  {
    if acts == [] then s == s'
    else Enabled(s, acts[0]) && Run(Apply(s, acts[0]), acts[1..], s')
  }

  ghost predicate Reachable(s: State) {
    exists acts :: Run(INIT, acts, s)
  }

  // ---------------------------------------------------------------- where the mail is

  function InSlot(r: Recipient, m: Msg): nat {
    if r.slot == Some(m) then 1 else 0
  }

  function InSlots(rs: seq<Recipient>, m: Msg): nat {
    if rs == [] then 0 else InSlot(rs[0], m) + InSlots(rs[1..], m)
  }

  function InHand(th: Thread, m: Msg): nat {
    if th.phase == Carrying(Some(m)) then 1 else 0
  }

  /** How many mailmen hold m. */
  ghost function InHands(threads: map<Tid, Thread>, m: Msg): nat {
    if threads == map[] then 0
    else var t :| t in threads; InHand(threads[t], m) + InHands(threads - {t}, m)
  }

  /** Copies of m that have been sent and not yet been returned. */
  ghost function Transit(s: State, m: Msg): nat {
    multiset(s.queue)[m] + InHands(s.threads, m) + multiset(s.newMail)[m] + InSlots(s.recipients, m)
  }

  function Letters(ds: seq<Delivery>, m: Msg): nat {
    if ds == [] then 0
    else Letters(ds[..|ds| - 1], m) + (if ds[|ds| - 1].msg == m then 1 else 0)
  }

  ghost predicate InTransitId(s: State, id: MsgId) {
    exists m :: Transit(s, m) > 0 && m.id == id
  }

  ghost predicate Waiting(s: State, id: MsgId) {
    exists t :: t in s.threads && s.threads[t].msgId == id
  }

  // ---------------------------------------------------------------- invariant

  ghost predicate OnList(s: State, t: Tid) {
    t in s.threads && (s.threads[t].phase.Asleep? || s.threads[t].phase.Awake?)
  }

  ghost predicate ListMatches(s: State) {
    && (forall i, j :: 0 <= i < j < |s.recipients| ==> s.recipients[i].tid != s.recipients[j].tid)
    && (forall i :: 0 <= i < |s.recipients| ==>
          OnList(s, s.recipients[i].tid) && s.threads[s.recipients[i].tid].msgId == s.recipients[i].msgId)
    && (forall t :: OnList(s, t) ==> FindSelf(s.recipients, t) < |s.recipients|)
  }

  ghost predicate OneMailman(s: State) {
    && (forall t :: t in s.threads && s.threads[t].phase.Carrying? ==> s.queueLock)
    && (forall t, u :: t in s.threads && u in s.threads && s.threads[t].phase.Carrying? && s.threads[u].phase.Carrying?
          ==> t == u)
    && (s.queueLock ==> exists t :: t in s.threads && s.threads[t].phase.Carrying?)
  }

  ghost predicate DistinctMail(s: State) {
    forall m, n :: Transit(s, m) > 0 && Transit(s, n) > 0 && m.id == n.id ==> m == n
  }

  ghost predicate DistinctCallers(s: State) {
    forall t, u :: t in s.threads && u in s.threads && s.threads[t].msgId == s.threads[u].msgId ==> t == u
  }

  /** A filled slot holds its owner's message, and the owner has been woken or will be. */
  ghost predicate SlotsOwned(s: State) {
    forall i :: 0 <= i < |s.recipients| && s.recipients[i].slot.Some? ==>
      s.recipients[i].slot.value.id == s.recipients[i].msgId &&
      (s.recipients[i].event > 0 || InPhase(s, s.recipients[i].tid, Awake))
  }

  ghost predicate HasMail(mail: seq<Msg>, id: MsgId) {
    exists i :: 0 <= i < |mail| && mail[i].id == id
  }

  /** Only a thread about to look has anything left for it in the new mail. */
  ghost predicate MailUnclaimed(s: State) {
    forall t :: t in s.threads && s.threads[t].phase != Ready ==> !HasMail(s.newMail, s.threads[t].msgId)
  }

  ghost predicate RepliesExist(s: State) {
    && (forall t :: t in s.threads ==> s.threads[t].msgId in s.pending || InTransitId(s, s.threads[t].msgId))
    && (forall id :: id in s.pending ==> !InTransitId(s, id))
  }

  ghost predicate BoundRecipient(s: State, i: nat) {
    i < |s.recipients| && s.recipients[i].slot.None? &&
    (s.recipients[i].event > 0 || InPhase(s, s.recipients[i].tid, Awake))
  }

  ghost predicate BoundCaller(s: State, t: Tid) {
    InPhase(s, t, Ready) && !HasMail(s.newMail, s.threads[t].msgId)
  }

  /** Some thread is already on its way to the mailman role. */
  ghost predicate SomeoneBound(s: State) {
    (exists i :: BoundRecipient(s, i)) || (exists t :: BoundCaller(s, t))
  }

  ghost predicate EmptySlot(s: State) {
    exists i :: 0 <= i < |s.recipients| && s.recipients[i].slot.None?
  }

  ghost predicate HandedOver(s: State) {
    !s.queueLock && EmptySlot(s) ==> SomeoneBound(s)
  }

  /** Every reply that was sent is in exactly one place; no other reply is anywhere. */
  ghost predicate Conserved(s: State) {
    forall m :: Transit(s, m) + Letters(s.returned, m) == if m in s.sent then 1 else 0
  }

  ghost predicate ReturnedToOwner(s: State) {
    forall i :: 0 <= i < |s.returned| ==> s.returned[i].msg.id == s.returned[i].asked
  }

  ghost predicate Inv(s: State) {
    && ListMatches(s) && OneMailman(s) && DistinctCallers(s) && DistinctMail(s)
    && SlotsOwned(s) && MailUnclaimed(s) && RepliesExist(s) && HandedOver(s)
    && Conserved(s) && ReturnedToOwner(s)
  }
}
