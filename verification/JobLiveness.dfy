/**
  The server finishes its work: every step of the server thread and the workers lowers a measure,
  and when none is left every packet has been processed or returned.
 */
module JobLiveness {
  import opened Sums
  import opened JobStreams
  import opened JobSafety
  import opened JobOrder

  /** Steps of the server itself, as opposed to its clients' calls and messages. */
  predicate Internal(a: Action) {
    !a.Acquire? && !a.Release? && !a.Dispatch?
  }

  // ---------------------------------------------------------------- the measure

  function PhaseCost(p: Phase): nat {
    match p
    case Waiting => 0
    case Woken => 1
    case Processing(_) => 2
    case Finishing(_) => 1
    case Posting(_) => 3
    case Retrying(_) => 3
  }

  function WorkerCost(): Worker -> nat {
    (w: Worker) => PhaseCost(w.phase)
  }

  function PoolCost(): Pool -> nat {
    (k: Pool) => 2 * |k.ready| + 2 * k.sem
  }

  function JobCost(): Job -> nat {
    (j: Job) => 5 * |j.msgQue|
  }

  /** What is left to do: a queued message costs more than a ready one, a post more than a pend. */
  function Work(s: State): nat {
    Sum(s.pools, PoolCost()) + Sum(s.jobs, JobCost()) + Sum(s.workers, WorkerCost()) + |s.releasing| +
    if s.server.Some? then 3 else 0
  }

  lemma PhaseWork(s: State, w: nat, p: Phase)
    requires w < |s.workers|
    ensures Work(SetPhase(s, w, p)) + PhaseCost(s.workers[w].phase) == Work(s) + PhaseCost(p)
  {
    SumUpdate(s.workers, w, s.workers[w].(phase := p), WorkerCost());
  }

  lemma PoolWork(s: State, k: nat, pool: Pool)
    requires k < |s.pools|
    ensures Work(s.(pools := s.pools[k := pool])) + 2 * |s.pools[k].ready| + 2 * s.pools[k].sem ==
            Work(s) + 2 * |pool.ready| + 2 * pool.sem
  {
    SumUpdate(s.pools, k, pool, PoolCost());
  }

  lemma JobWork(s: State, i: nat, job: Job)
    requires i < |s.jobs|
    ensures Work(s.(jobs := s.jobs[i := job])) + 5 * |s.jobs[i].msgQue| == Work(s) + 5 * |job.msgQue|
  {
    SumUpdate(s.jobs, i, job, JobCost());
  }

  lemma PendFalls(s: State, w: nat)
    requires Enabled(s, Pend(w))
    ensures Work(PendStep(s, w)) < Work(s)
  {
    var k := s.workers[w].pool;
    var pool := s.pools[k].(sem := s.pools[k].sem - 1);
    PoolWork(s, k, pool);
    PhaseWork(s.(pools := s.pools[k := pool]), w, Woken);
  }

  lemma GetFalls(s: State, w: nat)
    requires Enabled(s, Get(w))
    ensures Work(GetStep(s, w)) < Work(s)
  {
    var k := s.workers[w].pool;
    if s.pools[k].ready == [] {
      PhaseWork(s, w, Waiting);
    } else {
      var p := s.pools[k].ready[0];
      var pool := s.pools[k].(ready := s.pools[k].ready[1..]);
      PoolWork(s, k, pool);
      PhaseWork(s.(pools := s.pools[k := pool]), w, Processing(p));
    }
  }

  lemma ProcessFalls(s: State, w: nat)
    requires Enabled(s, Process(w))
    ensures Work(ProcessStep(s, w)) < Work(s)
  {
    var p := s.workers[w].phase.packet;
    var s1 := s.(processed := s.processed + [p]);
    PhaseWork(s1, w, Waiting);
    PhaseWork(End(s1, p), w, Finishing(p.jobId));
  }

  lemma FedFalls(s: State, w: nat, i: nat)
    requires Enabled(s, Next(w)) && i < |s.jobs| && s.jobs[i].msgQue != []
    requires GetPool(s.jobs[i].msgQue[0].poolId, |s.pools|).Some?
    ensures Work(Fed(s, w, i)) < Work(s)
  {
    var q := s.jobs[i].msgQue;
    var k := GetPool(q[0].poolId, |s.pools|).value;
    var s1 := s.(jobs := s.jobs[i := s.jobs[i].(msgQue := q[1..])]);
    JobWork(s, i, s.jobs[i].(msgQue := q[1..]));
    PoolWork(s1, k, s.pools[k].(ready := s.pools[k].ready + [q[0]]));
    PhaseWork(s1.(pools := PutReady(s.pools, k, q[0])), w, Posting(k));
  }

  lemma NextFalls(s: State, w: nat)
    requires WellFormed(s) && Enabled(s, Next(w))
    ensures Work(NextStep(s, w)) < Work(s)
  {
    var i := FindJob(s.jobs, s.workers[w].phase.jobId);
    if i == |s.jobs| {
      PhaseWork(s, w, Waiting);
    } else {
      assert JobOk(s.jobs[i], |s.pools|);
      NextIs(s, w, i);
      if s.jobs[i].msgQue == [] {
        JobWork(s, i, Job(s.jobs[i].id, true, []));
        PhaseWork(s.(jobs := s.jobs[i := Job(s.jobs[i].id, true, [])]), w, Waiting);
      } else {
        FedFalls(s, w, i);
      }
    }
  }

  lemma PostFalls(s: State, w: nat)
    requires Enabled(s, Post(w))
    ensures Work(PostStep(s, w)) < Work(s)
  {
    var k := s.workers[w].phase.pool;
    PoolWork(s, k, s.pools[k].(sem := s.pools[k].sem + 1));
    PhaseWork(s.(pools := PostSem(s.pools, k)), w, Waiting);
  }

  /** Every step of the server lowers the measure. */
  lemma StepFalls(s: State, a: Action)
    requires WellFormed(s) && Enabled(s, a) && Internal(a)
    ensures Work(Apply(s, a)) < Work(s)
  {
    match a
    case Return(i) =>
    case ServerPost => PoolWork(s, s.server.value, s.pools[s.server.value].(sem := s.pools[s.server.value].sem + 1));
    case Pend(w) => PendFalls(s, w);
    case Get(w) => GetFalls(s, w);
    case Process(w) => ProcessFalls(s, w);
    case Next(w) => NextFalls(s, w);
    case Post(w) => PostFalls(s, w);
    case Retry(w) => NeverRetrying(s, w);
  }

  // ---------------------------------------------------------------- nothing is forgotten in a job's queue

  /** A job that is not empty has a message in flight, whose worker will look at its queue. */
  ghost predicate Attended(s: State) {
    forall i :: 0 <= i < |s.jobs| ==>
      (s.jobs[i].empty ==> s.jobs[i].msgQue == []) && (!s.jobs[i].empty ==> InFlight(s, s.jobs[i].id) >= 1)
  }

  lemma ReleaseAttended(s: State, id: nat)
    requires Attended(s)
    ensures Attended(ReleaseStep(s, id))
  {
    var s' := ReleaseStep(s, id);
    var i := FindJob(s.jobs, id);
    if i < |s.jobs| {
      forall k | 0 <= k < |s'.jobs|
        ensures (s'.jobs[k].empty ==> s'.jobs[k].msgQue == []) && (!s'.jobs[k].empty ==> InFlight(s', s'.jobs[k].id) >= 1)
      {
        OthersStay(s.jobs, i, k);
        assert InFlight(s', s'.jobs[k].id) == InFlight(s, s'.jobs[k].id);
      }
    }
  }

  lemma DispatchAttended(s: State, p: Packet)
    requires Attended(s) && DistinctJobs(s) && Enabled(s, Dispatch(p))
    ensures Attended(DispatchStep(s, p))
  {
    var s' := DispatchStep(s, p);
    forall j | j != DISCRETE
      ensures InFlight(s', j) == InFlight(s, j) + if Feeds(s, p) && p.jobId == j then 1 else 0
    {
      DispatchFlight(s, p, j);
    }
  }

  lemma NextAttended(s: State, w: nat)
    requires Attended(s) && DistinctJobs(s) && WellFormed(s) && Enabled(s, Next(w))
    ensures Attended(NextStep(s, w))
  {
    var s' := NextStep(s, w);
    var id := s.workers[w].phase.jobId;
    var i := FindJob(s.jobs, id);
    forall j ensures InFlight(s', j) + (if Ends(s, w) && id == j then 1 else 0) == InFlight(s, j) {
      NextFlight(s, w, j);
    }
    SumSplit(s.workers, w, HeldOfJob(id));
    if i < |s.jobs| {
      assert JobOk(s.jobs[i], |s.pools|);
      NextIs(s, w, i);
    }
  }

  lemma OtherAttended(s: State, a: Action)
    requires Attended(s) && DistinctJobs(s) && Enabled(s, a)
    requires a.Return? || a.ServerPost? || a.Pend? || a.Get? || a.Process? || a.Post?
    ensures Attended(Apply(s, a))
  {
    var s' := Apply(s, a);
    assert s'.jobs == s.jobs;
    forall j | j != DISCRETE ensures InFlight(s', j) == InFlight(s, j) {
      match a
      case Get(w) => GetFlight(s, w, j);
      case Process(w) => ProcessFlight(s, w, j);
      case Return(_) =>
      case _ => QuietFlight(s, a, j);
    }
  }

  lemma AcquireAttended(s: State)
    requires Attended(s)
    ensures Attended(AcquireStep(s))
  {
    forall j ensures InFlight(AcquireStep(s), j) == InFlight(s, j) {
    }
  }

  lemma StepAttended(s: State, a: Action)
    requires Attended(s) && DistinctJobs(s) && WellFormed(s) && Enabled(s, a)
    ensures Attended(Apply(s, a))
  {
    match a
    case Acquire => AcquireAttended(s);
    case Release(id) => ReleaseAttended(s, id);
    case Dispatch(p) => DispatchAttended(s, p);
    case Next(w) => NextAttended(s, w);
    case Retry(w) => NeverRetrying(s, w);
    case _ => OtherAttended(s, a);
  }

  lemma {:induction false} RunAttended(s: State, acts: seq<Action>, s': State)
    requires Sound(s) && Attended(s) && Run(s, acts, s')
    ensures Sound(s') && Attended(s')
    decreases |acts|
  {
    if acts != [] {
      StepSound(s, acts[0]);
      StepAttended(s, acts[0]);
      RunAttended(Apply(s, acts[0]), acts[1..], s');
    }
  }

  lemma ReachableAttended(s: State)
    requires Reachable(s)
    ensures Sound(s) && Attended(s)
  {
    var s0, acts :| Initial(s0) && Run(s0, acts, s);
    InitialSound(s0);
    RunAttended(s0, acts, s);
  }

  // ---------------------------------------------------------------- when nothing can move

  /** Every pool has a worker. */
  predicate Staffed(s: State) {
    forall k :: 0 <= k < |s.pools| ==> HasWorker(s, k)
  }

  predicate HasWorker(s: State, k: nat) {
    exists w :: 0 <= w < |s.workers| && s.workers[w].pool == k
  }

  ghost predicate Settled(s: State) {
    forall a :: Internal(a) ==> !Enabled(s, a)
  }

  lemma WorkerSettled(s: State, w: nat)
    requires WellFormed(s) && Settled(s) && w < |s.workers|
    ensures s.workers[w].phase == Waiting
  {
    assert WorkerOk(s.workers[w], |s.pools|);
    assert !Enabled(s, Get(w)) && !Enabled(s, Process(w)) && !Enabled(s, Next(w)) && !Enabled(s, Post(w));
  }

  lemma PoolSettled(s: State, k: nat)
    requires WellFormed(s) && SemaphoresMatch(s) && Staffed(s) && Settled(s) && k < |s.pools|
    ensures s.pools[k].ready == []
  {
    forall w | 0 <= w < |s.workers| ensures s.workers[w].phase == Waiting {
      WorkerSettled(s, w);
    }
    assert !Enabled(s, ServerPost);
    SumZero(s.workers, WokenIn(k));
    SumZero(s.workers, OwesPost(k));
    assert SemOk(s, k);
    assert HasWorker(s, k);
    var w :| 0 <= w < |s.workers| && s.workers[w].pool == k;
    assert !Enabled(s, Pend(w));
  }

  lemma JobSettled(s: State, i: nat)
    requires WellFormed(s) && SemaphoresMatch(s) && Staffed(s) && Settled(s) && Attended(s) && i < |s.jobs|
    ensures s.jobs[i].msgQue == []
  {
    var j := s.jobs[i].id;
    forall w | 0 <= w < |s.workers| ensures HeldOfJob(j)(s.workers[w]) == 0 {
      WorkerSettled(s, w);
    }
    forall k | 0 <= k < |s.pools| ensures ReadyOfJob(j)(s.pools[k]) == 0 {
      PoolSettled(s, k);
    }
    assert s.jobs[i].empty ==> s.jobs[i].msgQue == [];
    SumZero(s.workers, HeldOfJob(j));
    SumZero(s.pools, ReadyOfJob(j));
  }

  lemma SettledPlaces(s: State, p: Packet)
    requires Sound(s) && Attended(s) && Staffed(s) && Settled(s)
    ensures multiset(s.processed)[p] + Sum(s.returned, IsReply(p)) == if p in s.given then 1 else 0
  {
    forall k | 0 <= k < |s.pools| ensures InReady(p)(s.pools[k]) == 0 {
      PoolSettled(s, k);
    }
    forall i | 0 <= i < |s.jobs| ensures InJob(p)(s.jobs[i]) == 0 {
      JobSettled(s, i);
    }
    forall w | 0 <= w < |s.workers| ensures InWorker(p)(s.workers[w]) == 0 {
      WorkerSettled(s, w);
    }
    SumZero(s.pools, InReady(p));
    SumZero(s.jobs, InJob(p));
    SumZero(s.workers, InWorker(p));
    assert s.releasing == [] || Enabled(s, Return(0));
    assert Places(s, p) == if p in s.given then 1 else 0;
  }

  ghost predicate AllInternal(acts: seq<Action>) {
    forall i :: 0 <= i < |acts| ==> Internal(acts[i])
  }

  lemma {:induction false} RunFalls(s: State, acts: seq<Action>, s': State)
    requires Sound(s) && Run(s, acts, s') && AllInternal(acts)
    ensures Work(s') + |acts| <= Work(s)
    decreases |acts|
  {
    if acts != [] {
      StepFalls(s, acts[0]);
      StepSound(s, acts[0]);
      RunFalls(Apply(s, acts[0]), acts[1..], s');
    }
  }

  lemma {:induction false} StaysStaffed(s: State, acts: seq<Action>, s': State)
    requires Run(s, acts, s') && Staffed(s)
    ensures Staffed(s')
    decreases |acts|
  {
    if acts != [] {
      OneStepStaffed(s, acts[0]);
      StaysStaffed(Apply(s, acts[0]), acts[1..], s');
    }
  }

  lemma OneStepStaffed(s: State, a: Action)
    requires Staffed(s) && Enabled(s, a)
    ensures Staffed(Apply(s, a))
  {
    var s1 := Apply(s, a);
    StepStaffed(s, a);
    forall k | 0 <= k < |s1.pools| ensures HasWorker(s1, k) {
      assert HasWorker(s, k);
      var w :| 0 <= w < |s.workers| && s.workers[w].pool == k;
      assert s1.workers[w].pool == k;
    }
  }

  lemma StepStaffed(s: State, a: Action)
    requires Enabled(s, a)
    ensures |Apply(s, a).pools| == |s.pools| && |Apply(s, a).workers| == |s.workers|
    ensures forall w :: 0 <= w < |s.workers| ==> Apply(s, a).workers[w].pool == s.workers[w].pool
  {
    PoolsKept(s, a);
    forall w | 0 <= w < |s.workers| ensures Apply(s, a).workers[w].pool == s.workers[w].pool {
      KeepsPool(s, a, w);
    }
  }

  lemma KeepsPool(s: State, a: Action, w: nat)
    requires Enabled(s, a) && w < |s.workers|
    ensures w < |Apply(s, a).workers| && Apply(s, a).workers[w].pool == s.workers[w].pool
  {
    if a.Next? {
      NextKeepsPool(s, a.w, w);
    }
  }

  lemma NextKeepsPool(s: State, v: nat, w: nat)
    requires Enabled(s, Next(v)) && w < |s.workers|
    ensures w < |NextStep(s, v).workers| && NextStep(s, v).workers[w].pool == s.workers[w].pool
  {
  }

  /**
    The main result.  From any reachable state of a server with a worker in every pool, no schedule
    of the server's own steps is longer than the work left, and when it cannot be continued every
    packet given to dispatch has been processed exactly once or returned exactly once.
   */
  lemma ServerFinishes(s: State, acts: seq<Action>, s': State, p: Packet)
    requires Reachable(s) && Staffed(s) && Run(s, acts, s') && AllInternal(acts)
    ensures |acts| <= Work(s)
    ensures Settled(s') ==>
      multiset(s'.processed)[p] + Sum(s'.returned, IsReply(p)) == if p in s'.given then 1 else 0
  {
    ReachableAttended(s);
    RunFalls(s, acts, s');
    RunAttended(s, acts, s');
    StaysStaffed(s, acts, s');
    if Settled(s') {
      SettledPlaces(s', p);
    }
  }
}
