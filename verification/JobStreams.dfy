/**
  Job streams, worker pools and their semaphores in the RCM server
  (src/ti/grcm/RcmServer.c: dispatch, worker thread, job release), as a system of atomic steps.

  A step is one stretch of code under the instance gate, or one call on a shared list or
  semaphore.  A put on a ready queue and the post that follows it are separate steps.
 */
module JobStreams {
  import opened Types
  import opened Sums

  const DISCRETE := 0          // RcmClient_DISCRETEJOBID
  const MAX_ID := 0xFFFF

  datatype Packet = Packet(serial: nat, poolId: nat, jobId: nat)

  datatype Pool = Pool(ready: seq<Packet>, sem: nat)

  /** `empty` is false while a message of the job is on its way through a worker. */
  datatype Job = Job(id: nat, empty: bool, msgQue: seq<Packet>)

  datatype Status = Unprocessed | JobNotFound | PoolNotFound

  datatype Reply = Reply(packet: Packet, status: Status)

  /**
    Where a worker thread stands: pending on the semaphore; woken; inside RcmServer_process_P;
    about to look for the job's next message; about to post a pool's semaphore; at the top of
    the loop with a packet it has already returned.
   */
  datatype Phase =
    | Waiting
    | Woken
    | Processing(packet: Packet)
    | Finishing(jobId: nat)
    | Posting(pool: nat)
    | Retrying(packet: Packet)

  datatype Worker = Worker(pool: nat, phase: Phase)

  /** The life of a job id: messages accepted, begun, and how many of those have ended. */
  datatype History = History(accepted: seq<Packet>, begun: seq<Packet>, ended: nat)

  datatype State = State(
    pools: seq<Pool>,
    jobs: seq<Job>,
    jobId: nat,                // last id tried by acqJobId
    workers: seq<Worker>,
    server: Option<nat>,       // pool whose semaphore the server thread is about to post
    releasing: seq<Packet>,    // taken from released jobs, not yet returned
    processed: seq<Packet>,
    returned: seq<Reply>,
    given: set<Packet>,
    history: map<nat, History>)

  // ---------------------------------------------------------------- pools

  /** RcmServer_getPool_P for a static pool id; None is RcmServer_E_PoolIdNotFound. */
  function GetPool(poolId: nat, count: nat): (r: Option<nat>)
    ensures r.Some? ==> r.value < count
  {
    if poolId % 256 < count then Some(poolId % 256) else None
  }

  predicate StaticPool(poolId: nat) {
    0x8000 <= poolId <= 0xFFFF
  }

  function PutReady(pools: seq<Pool>, k: nat, p: Packet): seq<Pool>
    requires k < |pools|
  {
    pools[k := pools[k].(ready := pools[k].ready + [p])]
  }

  function PostSem(pools: seq<Pool>, k: nat): seq<Pool>
    requires k < |pools|
  {
    pools[k := pools[k].(sem := pools[k].sem + 1)]
  }

  // ---------------------------------------------------------------- jobs

  function FindJob(jobs: seq<Job>, id: nat): (i: nat)
    ensures i <= |jobs|
    ensures i < |jobs| ==> jobs[i].id == id
    ensures forall k :: 0 <= k < i ==> jobs[k].id != id
  {
    if jobs == [] || jobs[0].id == id then 0 else 1 + FindJob(jobs[1..], id)
  }

  predicate Live(jobs: seq<Job>, id: nat) {
    FindJob(jobs, id) < |jobs|
  }

  function NextId(id: nat): nat {
    if id == MAX_ID then 1 else id + 1
  }

  /** The rotating search of acqJobId with `count` tries left: the id found or 0, and the last id tried. */
  function Search(jobs: seq<Job>, last: nat, count: nat): (nat, nat)
    decreases count
  {
    if count == 0 then (DISCRETE, last)
    else if !Live(jobs, NextId(last)) then (NextId(last), NextId(last))
    else Search(jobs, NextId(last), count - 1)
  }

  /** RcmServer_acqJobId_P */
  function AcquireStep(s: State): State {
    var (id, last) := Search(s.jobs, s.jobId, MAX_ID);
    if id == DISCRETE then s.(jobId := last)
    else s.(jobId := last, jobs := s.jobs + [Job(id, true, [])],
            history := s.history[id := History([], [], 0)])
  }

  /** RcmServer_relJobId_P up to the end of its critical section. */
  function ReleaseStep(s: State, id: nat): State {
    var i := FindJob(s.jobs, id);
    if i == |s.jobs| then s
    else s.(jobs := s.jobs[..i] + s.jobs[i + 1..], releasing := s.releasing + s.jobs[i].msgQue)
  }

  function ReturnStep(s: State, i: nat): State
    requires i < |s.releasing|
  {
    s.(releasing := s.releasing[..i] + s.releasing[i + 1..],
       returned := s.returned + [Reply(s.releasing[i], Unprocessed)])
  }

  // ---------------------------------------------------------------- the server thread

  function Accept(s: State, p: Packet): State {
    if p.jobId in s.history
    then s.(history := s.history[p.jobId := s.history[p.jobId].(accepted := s.history[p.jobId].accepted + [p])])
    else s
  }

  /** RcmServer_dispatch_P without the final post, and the caller's error path. */
  function DispatchStep(s: State, p: Packet): State {
    var s := s.(given := s.given + {p});
    match GetPool(p.poolId, |s.pools|)
    case None => s.(returned := s.returned + [Reply(p, PoolNotFound)])
    case Some(k) =>
      if p.jobId == DISCRETE then s.(pools := PutReady(s.pools, k, p), server := Some(k))
      else
        var i := FindJob(s.jobs, p.jobId);
        if i == |s.jobs| then s.(returned := s.returned + [Reply(p, JobNotFound)])
        else if s.jobs[i].empty then
          Accept(s, p).(jobs := s.jobs[i := s.jobs[i].(empty := false)],
                        pools := PutReady(s.pools, k, p), server := Some(k))
        else Accept(s, p).(jobs := s.jobs[i := s.jobs[i].(msgQue := s.jobs[i].msgQue + [p])])
  }

  function ServerPostStep(s: State): State
    requires s.server.Some? && s.server.value < |s.pools|
  {
    s.(pools := PostSem(s.pools, s.server.value), server := None)
  }

  // ---------------------------------------------------------------- a worker thread

  function SetPhase(s: State, w: nat, p: Phase): State
    requires w < |s.workers|
  {
    s.(workers := s.workers[w := s.workers[w].(phase := p)])
  }

  function PendStep(s: State, w: nat): State
    requires w < |s.workers| && s.workers[w].pool < |s.pools| && s.pools[s.workers[w].pool].sem > 0
  {
    var k := s.workers[w].pool;
    SetPhase(s.(pools := s.pools[k := s.pools[k].(sem := s.pools[k].sem - 1)]), w, Woken)
  }

  /** Marks the start of a job message. */
  function Begin(s: State, p: Packet): State {
    if p.jobId in s.history
    then s.(history := s.history[p.jobId := s.history[p.jobId].(begun := s.history[p.jobId].begun + [p])])
    else s
  }

  /** List_get on the ready queue; an empty queue sends the worker back to wait. */
  function GetStep(s: State, w: nat): State
    requires w < |s.workers| && s.workers[w].pool < |s.pools|
  {
    var k := s.workers[w].pool;
    if s.pools[k].ready == [] then SetPhase(s, w, Waiting)
    else
      var p := s.pools[k].ready[0];
      Begin(SetPhase(s.(pools := s.pools[k := s.pools[k].(ready := s.pools[k].ready[1..])]), w, Processing(p)), p)
  }

  /** RcmServer_process_P returns. */
  function ProcessStep(s: State, w: nat): State
    requires w < |s.workers| && s.workers[w].phase.Processing?
  {
    var p := s.workers[w].phase.packet;
    var s1 := s.(processed := s.processed + [p]);
    if p.jobId == DISCRETE then SetPhase(s1, w, Waiting)
    else SetPhase(End(s1, p), w, Finishing(p.jobId))
  }

  /** Marks the end of a message that has begun in the life of its id. */
  function End(s: State, p: Packet): State {
    if p.jobId in s.history && p in s.history[p.jobId].begun
    then s.(history := s.history[p.jobId := s.history[p.jobId].(ended := s.history[p.jobId].ended + 1)])
    else s
  }

  /** What the do-while loop takes from a job's queue: packets it returns, then one it feeds on. */
  datatype Feed = Feed(rest: seq<Packet>, refused: seq<Packet>, fed: Option<Packet>)

  function TakeNext(que: seq<Packet>, count: nat): (f: Feed)
    ensures f.fed.Some? ==> GetPool(f.fed.value.poolId, count).Some?
  {
    if que == [] then Feed([], [], None)
    else if GetPool(que[0].poolId, count).Some? then Feed(que[1..], [], Some(que[0]))
    else
      var f := TakeNext(que[1..], count);
      f.(refused := [que[0]] + f.refused)
  }

  function Replies(ps: seq<Packet>, status: Status): seq<Reply> {
    seq(|ps|, i requires 0 <= i < |ps| => Reply(ps[i], status))
  }

  /** The critical section after a job message: feed the next message to its pool. */
  function NextStep(s: State, w: nat): State
    requires w < |s.workers| && s.workers[w].phase.Finishing?
  {
    var i := FindJob(s.jobs, s.workers[w].phase.jobId);
    if i == |s.jobs| then SetPhase(s, w, Waiting)
    else
      var f := TakeNext(s.jobs[i].msgQue, |s.pools|);
      var s1 := s.(returned := s.returned + Replies(f.refused, PoolNotFound));
      match f.fed
      case None =>
        SetPhase(s1.(jobs := s.jobs[i := Job(s.jobs[i].id, true, f.rest)]), w,
                 if f.refused == [] then Waiting else Retrying(f.refused[|f.refused| - 1]))
      case Some(p) =>
        var k := GetPool(p.poolId, |s.pools|).value;
        SetPhase(s1.(jobs := s.jobs[i := s.jobs[i].(msgQue := f.rest)], pools := PutReady(s.pools, k, p)), w, Posting(k))
  }

  function PostStep(s: State, w: nat): State
    requires w < |s.workers| && s.workers[w].phase.Posting? && s.workers[w].phase.pool < |s.pools|
  {
    SetPhase(s.(pools := PostSem(s.pools, s.workers[w].phase.pool)), w, Waiting)
  }

  // ---------------------------------------------------------------- steps and runs

  datatype Action =
    | Acquire
    | Release(id: nat)
    | Return(i: nat)
    | Dispatch(packet: Packet)
    | ServerPost
    | Pend(w: nat)
    | Get(w: nat)
    | Process(w: nat)
    | Next(w: nat)
    | Post(w: nat)
    | Retry(w: nat)

  // Messages of job j: in a ready queue, or in a worker that has not yet come back for the next.

  function OfJob(j: nat): Packet -> nat {
    (p: Packet) => if p.jobId == j then 1 else 0
  }

  function ReadyOfJob(j: nat): Pool -> nat {
    (k: Pool) => Sum(k.ready, OfJob(j))
  }

  function HeldOfJob(j: nat): Worker -> nat {
    (w: Worker) =>
      if (w.phase.Processing? || w.phase.Retrying?) && w.phase.packet.jobId == j then 1
      else if w.phase == Finishing(j) then 1 else 0
  }

  function InFlight(s: State, j: nat): nat {
    Sum(s.pools, ReadyOfJob(j)) + Sum(s.workers, HeldOfJob(j))
  }

  predicate InPhase(s: State, w: nat, phase: Phase) {
    w < |s.workers| && s.workers[w].phase == phase && s.workers[w].pool < |s.pools|
  }

  predicate Enabled(s: State, a: Action) {
    match a
    case Acquire => true
    case Release(_) => true
    case Return(i) => i < |s.releasing|
    case Dispatch(p) => s.server.None? && p !in s.given && StaticPool(p.poolId)
    case ServerPost => s.server.Some? && s.server.value < |s.pools|
    case Pend(w) => InPhase(s, w, Waiting) && s.pools[s.workers[w].pool].sem > 0
    case Get(w) => InPhase(s, w, Woken)
    case Process(w) => w < |s.workers| && s.workers[w].phase.Processing?
    case Next(w) => w < |s.workers| && s.workers[w].phase.Finishing?
    case Post(w) => w < |s.workers| && s.workers[w].phase.Posting? && s.workers[w].phase.pool < |s.pools|
    case Retry(w) => w < |s.workers| && s.workers[w].phase.Retrying?
  }

  function Apply(s: State, a: Action): State
    requires Enabled(s, a)
  {
    match a
    case Acquire => AcquireStep(s)
    case Release(id) => ReleaseStep(s, id)
    case Return(i) => ReturnStep(s, i)
    case Dispatch(p) => DispatchStep(s, p)
    case ServerPost => ServerPostStep(s)
    case Pend(w) => PendStep(s, w)
    case Get(w) => GetStep(s, w)
    case Process(w) => ProcessStep(s, w)
    case Next(w) => NextStep(s, w)
    case Post(w) => PostStep(s, w)
    case Retry(w) => SetPhase(s, w, Processing(s.workers[w].phase.packet))
  }

  ghost predicate Run(s: State, acts: seq<Action>, s': State)
    decreases |acts|
  {
    if acts == [] then s == s'
    else Enabled(s, acts[0]) && Run(Apply(s, acts[0]), acts[1..], s')
  }

  /** A server just started: idle workers, each in one of the pools. */
  predicate Initial(s: State) {
    && s.jobs == [] && s.jobId == MAX_ID && s.server == None
    && s.releasing == [] && s.processed == [] && s.returned == [] && s.given == {} && s.history == map[]
    && (forall k :: 0 <= k < |s.pools| ==> s.pools[k] == Pool([], 0))
    && (forall w :: 0 <= w < |s.workers| ==> s.workers[w].phase == Waiting && s.workers[w].pool < |s.pools|)
  }

  ghost predicate Reachable(s: State) {
    exists s0, acts :: Initial(s0) && Run(s0, acts, s)
  }

  /** The id that the next acquire finds belongs to no message still in flight; 0 is no id. */
  predicate FoundIdIsFree(s: State) {
    var (id, _) := Search(s.jobs, s.jobId, MAX_ID);
    id != DISCRETE ==> InFlight(s, id) == 0
  }

  /** The action does not give a new job the id of a released one that has a message in flight. */
  predicate Careful(s: State, a: Action) {
    a.Acquire? ==> FoundIdIsFree(s)
  }

  /** A run in which no such id is given out; only the order of a job's messages needs it. */
  ghost predicate CarefulRun(s: State, acts: seq<Action>, s': State)
    decreases |acts|
  {
    if acts == [] then s == s'
    else Enabled(s, acts[0]) && Careful(s, acts[0]) && CarefulRun(Apply(s, acts[0]), acts[1..], s')
  }

  ghost predicate CarefullyReachable(s: State) {
    exists s0, acts :: Initial(s0) && CarefulRun(s0, acts, s)
  }

  // ---------------------------------------------------------------- invariants

  // Semaphores.

  function WokenIn(k: nat): Worker -> nat {
    (w: Worker) => if w.phase == Woken && w.pool == k then 1 else 0
  }

  function OwesPost(k: nat): Worker -> nat {
    (w: Worker) => if w.phase == Posting(k) then 1 else 0
  }

  /** Posts that are still to come for packets already put on pool k's ready queue. */
  function Owed(s: State, k: nat): nat {
    Sum(s.workers, OwesPost(k)) + if s.server == Some(k) then 1 else 0
  }

  ghost predicate SemOk(s: State, k: nat)
    requires k < |s.pools|
  {
    s.pools[k].sem + Sum(s.workers, WokenIn(k)) + Owed(s, k) == |s.pools[k].ready|
  }

  ghost predicate SemaphoresMatch(s: State) {
    forall k :: 0 <= k < |s.pools| ==> SemOk(s, k)
  }

  // Where packets are.

  function InReady(p: Packet): Pool -> nat {
    (k: Pool) => multiset(k.ready)[p]
  }

  function InJob(p: Packet): Job -> nat {
    (j: Job) => multiset(j.msgQue)[p]
  }

  function InWorker(p: Packet): Worker -> nat {
    (w: Worker) => if w.phase == Processing(p) then 1 else 0
  }

  function IsReply(p: Packet): Reply -> nat {
    (r: Reply) => if r.packet == p then 1 else 0
  }

  function Places(s: State, p: Packet): nat {
    Sum(s.pools, InReady(p)) + Sum(s.jobs, InJob(p)) + Sum(s.workers, InWorker(p)) +
    multiset(s.releasing)[p] + multiset(s.processed)[p] + Sum(s.returned, IsReply(p))
  }

  /** Every packet given to dispatch is in exactly one place. */
  ghost predicate Conserved(s: State) {
    forall p :: Places(s, p) == if p in s.given then 1 else 0
  }

  // Shape.

  ghost predicate WorkerOk(w: Worker, count: nat) {
    && w.pool < count
    && !w.phase.Retrying?
    && (w.phase.Posting? ==> w.phase.pool < count)
    && (w.phase.Finishing? ==> w.phase.jobId != DISCRETE)
  }

  /** A job queues its own messages, and dispatch has looked up the pool of each. */
  ghost predicate JobOk(j: Job, count: nat) {
    forall k :: 0 <= k < |j.msgQue| ==>
      j.msgQue[k].jobId == j.id && GetPool(j.msgQue[k].poolId, count).Some?
  }

  ghost predicate WellFormed(s: State) {
    && (forall w :: 0 <= w < |s.workers| ==> WorkerOk(s.workers[w], |s.pools|))
    && (s.server.Some? ==> s.server.value < |s.pools|)
    && (forall i :: 0 <= i < |s.jobs| ==> JobOk(s.jobs[i], |s.pools|))
  }

  ghost predicate DistinctJobs(s: State) {
    && (forall i :: 0 <= i < |s.jobs| ==> 1 <= s.jobs[i].id <= MAX_ID)
    && (forall i, k :: 0 <= i < k < |s.jobs| ==> s.jobs[i].id != s.jobs[k].id)
    && 1 <= s.jobId <= MAX_ID
  }

  // One message of a job at a time.

  ghost predicate OneInFlight(s: State) {
    && (forall j :: j != DISCRETE ==> InFlight(s, j) <= 1)
    && (forall i :: 0 <= i < |s.jobs| ==> InFlight(s, s.jobs[i].id) == if s.jobs[i].empty then 0 else 1)
    && (forall i :: 0 <= i < |s.jobs| && s.jobs[i].empty ==> s.jobs[i].msgQue == [])
  }

  // Order of a job's messages.

  /** All that the server knows of a job id: its history, and its queue while it is live. */
  datatype View = View(history: Option<History>, queue: Option<seq<Packet>>)

  function JobView(s: State, j: nat): View {
    View(if j in s.history then Some(s.history[j]) else None,
         if Live(s.jobs, j) then Some(s.jobs[FindJob(s.jobs, j)].msgQue) else None)
  }

  /** p is on a ready queue: all earlier messages of its job have ended, and p is next. */
  ghost predicate QueuedInOrder(v: View, p: Packet) {
    v.history.Some? &&
    var h := v.history.value;
    && h.ended == |h.begun| && h.begun + [p] <= h.accepted
    && (v.queue.Some? ==> h.accepted == h.begun + [p] + v.queue.value)
  }

  /** What has begun is what was accepted first; all of it has ended but the `running` last. */
  ghost predicate BegunInOrder(v: View, running: nat) {
    v.history.Some? &&
    var h := v.history.value;
    && h.ended + running == |h.begun| && h.begun <= h.accepted
    && (v.queue.Some? ==> h.accepted == h.begun + v.queue.value)
  }

  ghost predicate RunningInOrder(v: View, p: Packet) {
    BegunInOrder(v, 1) && v.history.value.begun[|v.history.value.begun| - 1] == p
  }

  ghost predicate ReadyOrdered(s: State) {
    forall k, i :: 0 <= k < |s.pools| && 0 <= i < |s.pools[k].ready| && s.pools[k].ready[i].jobId != DISCRETE ==>
      QueuedInOrder(JobView(s, s.pools[k].ready[i].jobId), s.pools[k].ready[i])
  }

  ghost predicate WorkerOrdered(s: State, w: Worker) {
    && (w.phase.Processing? && w.phase.packet.jobId != DISCRETE ==>
          RunningInOrder(JobView(s, w.phase.packet.jobId), w.phase.packet))
    && (w.phase.Finishing? ==> BegunInOrder(JobView(s, w.phase.jobId), 0))
  }

  ghost predicate WorkersOrdered(s: State) {
    forall w :: 0 <= w < |s.workers| ==> WorkerOrdered(s, s.workers[w])
  }

  ghost predicate RestingOrdered(s: State) {
    forall i :: 0 <= i < |s.jobs| && s.jobs[i].empty ==> BegunInOrder(JobView(s, s.jobs[i].id), 0)
  }

  ghost predicate JobsKnown(s: State) {
    && (forall i :: 0 <= i < |s.jobs| ==> s.jobs[i].id in s.history)
    && DISCRETE !in s.history
  }

  /** What holds in all runs. */
  ghost predicate Sound(s: State) {
    WellFormed(s) && DistinctJobs(s) && JobsKnown(s) && SemaphoresMatch(s) && Conserved(s)
  }

  /** What holds in careful runs. */
  ghost predicate Inv(s: State) {
    Sound(s) && OneInFlight(s) && ReadyOrdered(s) && WorkersOrdered(s) && RestingOrdered(s)
  }
}
