/**
  A job's messages run one at a time and in the order in which dispatch accepted them, whatever
  pools they are addressed to.
 */
module JobOrder {
  import opened Types
  import opened Sums
  import opened JobStreams
  import opened JobSafety

  // ---------------------------------------------------------------- messages in flight

  lemma PoolFlight(pools: seq<Pool>, k: nat, pool: Pool, j: nat)
    requires k < |pools|
    ensures Sum(pools[k := pool], ReadyOfJob(j)) + Sum(pools[k].ready, OfJob(j)) ==
            Sum(pools, ReadyOfJob(j)) + Sum(pool.ready, OfJob(j))
  {
    SumUpdate(pools, k, pool, ReadyOfJob(j));
  }

  lemma PutFlight(pools: seq<Pool>, k: nat, p: Packet, j: nat)
    requires k < |pools|
    ensures Sum(PutReady(pools, k, p), ReadyOfJob(j)) == Sum(pools, ReadyOfJob(j)) + if p.jobId == j then 1 else 0
  {
    PoolFlight(pools, k, pools[k].(ready := pools[k].ready + [p]), j);
    SumAppend(pools[k].ready, [p], OfJob(j));
    SumOne(p, OfJob(j));
  }

  function PhaseJob(phase: Phase, j: nat): nat {
    if (phase.Processing? || phase.Retrying?) && phase.packet.jobId == j then 1
    else if phase == Finishing(j) then 1 else 0
  }

  lemma WorkerFlight(s: State, w: nat, phase: Phase, j: nat)
    requires w < |s.workers|
    ensures Sum(SetPhase(s, w, phase).workers, HeldOfJob(j)) + PhaseJob(s.workers[w].phase, j) ==
            Sum(s.workers, HeldOfJob(j)) + PhaseJob(phase, j)
  {
    SumUpdate(s.workers, w, s.workers[w].(phase := phase), HeldOfJob(j));
  }

  ghost predicate Feeds(s: State, p: Packet) {
    GetPool(p.poolId, |s.pools|).Some? && p.jobId != DISCRETE && Live(s.jobs, p.jobId) &&
    s.jobs[FindJob(s.jobs, p.jobId)].empty
  }

  lemma DispatchFlight(s: State, p: Packet, j: nat)
    requires j != DISCRETE
    ensures InFlight(DispatchStep(s, p), j) == InFlight(s, j) + if Feeds(s, p) && p.jobId == j then 1 else 0
  {
    var pool := GetPool(p.poolId, |s.pools|);
    if pool.Some? {
      PutFlight(s.pools, pool.value, p, j);
    }
  }

  lemma GetFlight(s: State, w: nat, j: nat)
    requires Enabled(s, Get(w))
    ensures InFlight(GetStep(s, w), j) == InFlight(s, j)
  {
    var k := s.workers[w].pool;
    if s.pools[k].ready == [] {
      WorkerFlight(s, w, Waiting, j);
    } else {
      var pool := s.pools[k].(ready := s.pools[k].ready[1..]);
      PoolFlight(s.pools, k, pool, j);
      WorkerFlight(s.(pools := s.pools[k := pool]), w, Processing(s.pools[k].ready[0]), j);
    }
  }

  lemma ProcessFlight(s: State, w: nat, j: nat)
    requires Enabled(s, Process(w)) && j != DISCRETE
    ensures InFlight(ProcessStep(s, w), j) == InFlight(s, j)
  {
    var p := s.workers[w].phase.packet;
    var s1 := s.(processed := s.processed + [p]);
    WorkerFlight(s1, w, Waiting, j);
    WorkerFlight(End(s1, p), w, Finishing(p.jobId), j);
  }

  lemma PendFlight(s: State, w: nat, j: nat)
    requires Enabled(s, Pend(w))
    ensures InFlight(PendStep(s, w), j) == InFlight(s, j)
  {
    var k := s.workers[w].pool;
    var pool := s.pools[k].(sem := s.pools[k].sem - 1);
    PoolFlight(s.pools, k, pool, j);
    WorkerFlight(s.(pools := s.pools[k := pool]), w, Woken, j);
  }

  lemma PostedFlight(s: State, k: nat, j: nat)
    requires k < |s.pools|
    ensures InFlight(s.(pools := PostSem(s.pools, k)), j) == InFlight(s, j)
  {
    PoolFlight(s.pools, k, s.pools[k].(sem := s.pools[k].sem + 1), j);
  }

  lemma PostFlight(s: State, w: nat, j: nat)
    requires Enabled(s, Post(w))
    ensures InFlight(PostStep(s, w), j) == InFlight(s, j)
  {
    PostedFlight(s, s.workers[w].phase.pool, j);
    WorkerFlight(s.(pools := PostSem(s.pools, s.workers[w].phase.pool)), w, Waiting, j);
  }

  lemma QuietFlight(s: State, a: Action, j: nat)
    requires Enabled(s, a) && (a.Pend? || a.Post? || a.ServerPost?)
    ensures InFlight(Apply(s, a), j) == InFlight(s, j)
  {
    match a
    case Pend(w) => PendFlight(s, w, j);
    case Post(w) => PostFlight(s, w, j);
    case ServerPost => PostedFlight(s, s.server.value, j);
  }

  /** The finished worker's token ends unless its job has a further message. */
  ghost predicate Ends(s: State, w: nat)
    requires Enabled(s, Next(w))
  {
    var id := s.workers[w].phase.jobId;
    !Live(s.jobs, id) || s.jobs[FindJob(s.jobs, id)].msgQue == []
  }

  lemma NextFlight(s: State, w: nat, j: nat)
    requires WellFormed(s) && Enabled(s, Next(w))
    ensures InFlight(NextStep(s, w), j) + (if Ends(s, w) && s.workers[w].phase.jobId == j then 1 else 0) == InFlight(s, j)
  {
    var i := FindJob(s.jobs, s.workers[w].phase.jobId);
    WorkerFlight(s, w, Waiting, j);
    if i < |s.jobs| {
      var q := s.jobs[i].msgQue;
      assert JobOk(s.jobs[i], |s.pools|);
      TakeNextSplits(q, |s.pools|);
      if q != [] {
        var k := GetPool(q[0].poolId, |s.pools|).value;
        PutFlight(s.pools, k, q[0], j);
        WorkerFlight(s, w, Posting(k), j);
      }
    }
  }

  // ---------------------------------------------------------------- one message in flight

  lemma AcquireOne(s: State)
    requires DistinctJobs(s) && OneInFlight(s) && FoundIdIsFree(s)
    ensures OneInFlight(AcquireStep(s))
  {
    var s' := AcquireStep(s);
    forall j ensures InFlight(s', j) == InFlight(s, j) {
    }
  }

  lemma ReleaseOne(s: State, id: nat)
    requires OneInFlight(s)
    ensures OneInFlight(ReleaseStep(s, id))
  {
    var s' := ReleaseStep(s, id);
    forall j ensures InFlight(s', j) == InFlight(s, j) {
    }
    var i := FindJob(s.jobs, id);
    if i < |s.jobs| {
      forall k | 0 <= k < |s'.jobs|
        ensures InFlight(s', s'.jobs[k].id) == if s'.jobs[k].empty then 0 else 1
        ensures s'.jobs[k].empty ==> s'.jobs[k].msgQue == []
      {
        OthersStay(s.jobs, i, k);
      }
    }
  }

  lemma DispatchOne(s: State, p: Packet)
    requires DistinctJobs(s) && OneInFlight(s) && Enabled(s, Dispatch(p))
    ensures OneInFlight(DispatchStep(s, p))
  {
    var s' := DispatchStep(s, p);
    forall j | j != DISCRETE ensures InFlight(s', j) <= 1 {
      DispatchFlight(s, p, j);
    }
    forall i | 0 <= i < |s'.jobs|
      ensures InFlight(s', s'.jobs[i].id) == if s'.jobs[i].empty then 0 else 1
      ensures s'.jobs[i].empty ==> s'.jobs[i].msgQue == []
    {
      assert s'.jobs[i].id == s.jobs[i].id;
      DispatchFlight(s, p, s.jobs[i].id);
    }
  }

  lemma NextOne(s: State, w: nat)
    requires DistinctJobs(s) && WellFormed(s) && OneInFlight(s) && Enabled(s, Next(w))
    ensures OneInFlight(NextStep(s, w))
  {
    var s' := NextStep(s, w);
    HeldCounts(s, w, s.workers[w].phase.jobId);
    forall j | j != DISCRETE ensures InFlight(s', j) <= 1 {
      NextFlight(s, w, j);
    }
    forall k | 0 <= k < |s'.jobs|
      ensures InFlight(s', s'.jobs[k].id) == if s'.jobs[k].empty then 0 else 1
      ensures s'.jobs[k].empty ==> s'.jobs[k].msgQue == []
    {
      NextFlight(s, w, s.jobs[k].id);
      NextJob(s, w, k);
    }
  }

  /** Only the finished job changes: it rests exactly if it has no further message. */
  lemma NextJob(s: State, w: nat, k: nat)
    requires DistinctJobs(s) && WellFormed(s) && Enabled(s, Next(w)) && k < |s.jobs|
    ensures |NextStep(s, w).jobs| == |s.jobs|
    ensures var id := s.workers[w].phase.jobId; var job := NextStep(s, w).jobs[k];
            if s.jobs[k].id != id then job == s.jobs[k]
            else job.id == id && if Ends(s, w) then job == Job(id, true, []) else job.empty == s.jobs[k].empty
  {
    var i := FindJob(s.jobs, s.workers[w].phase.jobId);
    if i < |s.jobs| {
      assert JobOk(s.jobs[i], |s.pools|);
      NextIs(s, w, i);
    }
  }

  lemma OtherOne(s: State, a: Action)
    requires DistinctJobs(s) && OneInFlight(s) && Enabled(s, a)
    requires a.Return? || a.ServerPost? || a.Pend? || a.Get? || a.Process? || a.Post?
    ensures OneInFlight(Apply(s, a))
  {
    var s' := Apply(s, a);
    assert s'.jobs == s.jobs;
    forall j | j != DISCRETE ensures InFlight(s', j) == InFlight(s, j) {
      match a
      case Get(w) => GetFlight(s, w, j);
      case Process(w) => ProcessFlight(s, w, j);
      case Return(_) =>
      case _ => QuietFlight(s, a, j);
    }
  }

  lemma StepOne(s: State, a: Action)
    requires DistinctJobs(s) && WellFormed(s) && OneInFlight(s) && Enabled(s, a) && Careful(s, a)
    ensures OneInFlight(Apply(s, a))
  {
    match a
    case Acquire => AcquireOne(s);
    case Release(id) => ReleaseOne(s, id);
    case Dispatch(p) => DispatchOne(s, p);
    case Next(w) => NextOne(s, w);
    case Retry(w) => NeverRetrying(s, w);
    case _ => OtherOne(s, a);
  }

  // ---------------------------------------------------------------- no second message in flight

  ghost predicate IsReady(s: State, k: nat, i: nat, j: nat) {
    k < |s.pools| && i < |s.pools[k].ready| && s.pools[k].ready[i].jobId == j
  }

  ghost predicate IsHeld(s: State, w: nat, j: nat) {
    w < |s.workers| && HeldOfJob(j)(s.workers[w]) == 1
  }

  lemma ReadyCounts(s: State, k: nat, i: nat, j: nat)
    requires IsReady(s, k, i, j)
    ensures Sum(s.pools, ReadyOfJob(j)) >= 1
  {
    SumSplit(s.pools[k].ready, i, OfJob(j));
    SumSplit(s.pools, k, ReadyOfJob(j));
  }

  lemma HeldCounts(s: State, w: nat, j: nat)
    requires IsHeld(s, w, j)
    ensures Sum(s.workers, HeldOfJob(j)) >= 1
  {
    SumSplit(s.workers, w, HeldOfJob(j));
  }

  /** A job with nothing in flight is in no ready queue and with no worker. */
  lemma NoneInFlight(s: State, j: nat)
    requires InFlight(s, j) == 0
    ensures forall k, i :: !IsReady(s, k, i, j)
    ensures forall w :: !IsHeld(s, w, j)
  {
    forall k, i | IsReady(s, k, i, j) ensures false {
      ReadyCounts(s, k, i, j);
    }
    forall w | IsHeld(s, w, j) ensures false {
      HeldCounts(s, w, j);
    }
  }

  /** A job with one message on a ready queue has no other there, and none with a worker. */
  lemma OnlyReady(s: State, k: nat, i: nat, j: nat)
    requires InFlight(s, j) <= 1 && IsReady(s, k, i, j)
    ensures forall k', i' :: IsReady(s, k', i', j) ==> k' == k && i' == i
    ensures forall w :: !IsHeld(s, w, j)
  {
    ReadyCounts(s, k, i, j);
    forall w | IsHeld(s, w, j) ensures false {
      HeldCounts(s, w, j);
    }
    forall k': nat, i': nat | IsReady(s, k', i', j) ensures k' == k && i' == i {
      SumSplit(s.pools[k'].ready, i', OfJob(j));
      SumSplit(s.pools[k].ready, i, OfJob(j));
      SumSplit(s.pools, k, ReadyOfJob(j));
      if k' < k {
        SumTwo(s.pools, k', k, ReadyOfJob(j));
      } else if k < k' {
        SumTwo(s.pools, k, k', ReadyOfJob(j));
      } else if i' < i {
        SumTwo(s.pools[k].ready, i', i, OfJob(j));
      } else if i < i' {
        SumTwo(s.pools[k].ready, i, i', OfJob(j));
      }
    }
  }

  lemma OnlyHeld(s: State, w: nat, j: nat)
    requires InFlight(s, j) <= 1 && IsHeld(s, w, j)
    ensures forall k, i :: !IsReady(s, k, i, j)
    ensures forall w' :: IsHeld(s, w', j) ==> w' == w
  {
    HeldCounts(s, w, j);
    forall k, i | IsReady(s, k, i, j) ensures false {
      ReadyCounts(s, k, i, j);
    }
    forall w': nat | IsHeld(s, w', j) ensures w' == w {
      if w' < w {
        SumTwo(s.workers, w', w, HeldOfJob(j));
      } else if w < w' {
        SumTwo(s.workers, w, w', HeldOfJob(j));
      }
    }
  }

  // ---------------------------------------------------------------- order

  ghost predicate Ordered(s: State) {
    ReadyOrdered(s) && WorkersOrdered(s) && RestingOrdered(s)
  }

  ghost predicate SameViews(s: State, s': State, except: nat) {
    forall j :: j != except ==> JobView(s', j) == JobView(s, j)
  }

  lemma WorkerFrame(s: State, s': State, id: nat, w: Worker)
    requires WorkersOrdered(s) && w in s.workers && SameViews(s, s', id) && HeldOfJob(id)(w) == 0
    ensures WorkerOrdered(s', w)
  {
    assert WorkerOrdered(s, w);
    if w.phase.Processing? {
      assert JobView(s', w.phase.packet.jobId) == JobView(s, w.phase.packet.jobId);
    }
    if w.phase.Finishing? {
      assert JobView(s', w.phase.jobId) == JobView(s, w.phase.jobId);
    }
  }

  ghost predicate WasReady(s: State, p: Packet) {
    exists l, m :: 0 <= l < |s.pools| && 0 <= m < |s.pools[l].ready| && s.pools[l].ready[m] == p
  }

  /**
    The ordering survives a step that touches one job at most, if each message in flight of
    another job was in flight at a like place before, and the touched job is in order again.
   */
  lemma OrderedKept(s: State, s': State, id: nat)
    requires Ordered(s) && SameViews(s, s', id)
    requires forall k, i :: 0 <= k < |s'.pools| && 0 <= i < |s'.pools[k].ready| ==>
               var p := s'.pools[k].ready[i];
               p.jobId != DISCRETE ==>
                 (p.jobId == id && QueuedInOrder(JobView(s', id), p)) ||
                 (p.jobId != id && WasReady(s, p))
    requires forall w :: 0 <= w < |s'.workers| ==>
               WorkerOrdered(s', s'.workers[w]) ||
               (HeldOfJob(id)(s'.workers[w]) == 0 && s'.workers[w] in s.workers)
    requires forall i :: 0 <= i < |s'.jobs| && s'.jobs[i].empty ==>
               (s'.jobs[i].id == id && BegunInOrder(JobView(s', id), 0)) ||
               (s'.jobs[i].id != id && s'.jobs[i] in s.jobs)
    ensures Ordered(s')
  {
    forall k, i | 0 <= k < |s'.pools| && 0 <= i < |s'.pools[k].ready| && s'.pools[k].ready[i].jobId != DISCRETE
      ensures QueuedInOrder(JobView(s', s'.pools[k].ready[i].jobId), s'.pools[k].ready[i])
    {
      var p := s'.pools[k].ready[i];
      if p.jobId != id {
        var l, m :| 0 <= l < |s.pools| && 0 <= m < |s.pools[l].ready| && s.pools[l].ready[m] == p;
        assert JobView(s', p.jobId) == JobView(s, p.jobId);
      }
    }
    forall w | 0 <= w < |s'.workers| ensures WorkerOrdered(s', s'.workers[w]) {
      if HeldOfJob(id)(s'.workers[w]) == 0 && s'.workers[w] in s.workers {
        WorkerFrame(s, s', id, s'.workers[w]);
      }
    }
    forall i | 0 <= i < |s'.jobs| && s'.jobs[i].empty ensures BegunInOrder(JobView(s', s'.jobs[i].id), 0) {
      if s'.jobs[i].id != id {
        var k :| 0 <= k < |s.jobs| && s.jobs[k] == s'.jobs[i];
        assert JobView(s', s.jobs[k].id) == JobView(s, s.jobs[k].id);
      }
    }
  }

  lemma FindAppend(jobs: seq<Job>, job: Job, j: nat)
    ensures FindJob(jobs + [job], j) == if FindJob(jobs, j) < |jobs| then FindJob(jobs, j) else if job.id == j then |jobs| else |jobs| + 1
  {
    var i := FindJob(jobs + [job], j);
    var k := FindJob(jobs, j);
    assert forall l :: 0 <= l < |jobs| ==> (jobs + [job])[l] == jobs[l];
    assert (jobs + [job])[|jobs|] == job;
  }

  lemma FindUpdate(jobs: seq<Job>, i: nat, job: Job, j: nat)
    requires i < |jobs| && job.id == jobs[i].id
    ensures FindJob(jobs[i := job], j) == FindJob(jobs, j)
  {
    var m := FindJob(jobs[i := job], j);
    var k := FindJob(jobs, j);
    assert forall l :: 0 <= l < |jobs| ==> jobs[i := job][l].id == jobs[l].id;
  }

  lemma FindRemove(jobs: seq<Job>, i: nat, j: nat)
    requires i < |jobs| && jobs[i].id != j
    ensures var k := FindJob(jobs, j);
            FindJob(jobs[..i] + jobs[i + 1..], j) == if k < i then k else k - 1
  {
    var rest := jobs[..i] + jobs[i + 1..];
    var m := FindJob(rest, j);
    var k := FindJob(jobs, j);
    assert forall l :: 0 <= l < i ==> rest[l] == jobs[l];
    assert forall l :: i <= l < |rest| ==> rest[l] == jobs[l + 1];
    assert forall l :: i < l < |jobs| ==> jobs[l] == rest[l - 1];
  }

  lemma QuietOrder(s: State, a: Action)
    requires Ordered(s) && Enabled(s, a) && (a.Return? || a.ServerPost? || a.Pend? || a.Post?)
    ensures Ordered(Apply(s, a))
  {
    var s' := Apply(s, a);
    forall k | 0 <= k < |s'.pools| ensures s'.pools[k].ready == s.pools[k].ready {
    }
    assert SameViews(s, s', DISCRETE);
    OrderedKept(s, s', DISCRETE);
  }

  lemma AddedViews(s: State, id: nat, last: nat)
    requires !Live(s.jobs, id)
    ensures SameViews(s, AddJob(s, id, last), id)
    ensures JobView(AddJob(s, id, last), id) == View(Some(History([], [], 0)), Some([]))
  {
    forall j | j != id ensures JobView(AddJob(s, id, last), j) == JobView(s, j) {
      FindAppend(s.jobs, Job(id, true, []), j);
    }
    FindAppend(s.jobs, Job(id, true, []), id);
  }

  lemma AddJobOrder(s: State, id: nat, last: nat)
    requires Ordered(s) && DistinctJobs(s) && !Live(s.jobs, id) && id != DISCRETE && InFlight(s, id) == 0
    ensures Ordered(AddJob(s, id, last))
  {
    NoneInFlight(s, id);
    AddedViews(s, id, last);
    forall w | 0 <= w < |s.workers| ensures HeldOfJob(id)(s.workers[w]) == 0 {
      assert !IsHeld(s, w, id);
    }
    forall k, i | 0 <= k < |s.pools| && 0 <= i < |s.pools[k].ready| ensures s.pools[k].ready[i].jobId != id {
      assert !IsReady(s, k, i, id);
    }
    OrderedKept(s, AddJob(s, id, last), id);
  }

  lemma AcquireOrder(s: State)
    requires Ordered(s) && DistinctJobs(s) && FoundIdIsFree(s)
    ensures Ordered(AcquireStep(s))
  {
    var (id, last) := Search(s.jobs, s.jobId, MAX_ID);
    if id == DISCRETE {
      TriedOrder(s, last);
    } else {
      FoundFree(s.jobs, s.jobId);
      AddJobOrder(s, id, last);
    }
  }

  lemma TriedOrder(s: State, last: nat)
    requires Ordered(s)
    ensures Ordered(s.(jobId := last))
  {
    assert SameViews(s, s.(jobId := last), DISCRETE);
    OrderedKept(s, s.(jobId := last), DISCRETE);
  }

  lemma ReleaseViews(s: State, id: nat)
    requires DistinctJobs(s) && Live(s.jobs, id)
    ensures SameViews(s, ReleaseStep(s, id), id)
    ensures JobView(ReleaseStep(s, id), id) == JobView(s, id).(queue := None)
  {
    var s' := ReleaseStep(s, id);
    forall j | j != id ensures JobView(s', j) == JobView(s, j) {
      RemovedView(s, id, j);
    }
    OthersRemain(s, id);
    Gone(s'.jobs, id);
  }

  lemma RemovedView(s: State, id: nat, j: nat)
    requires Live(s.jobs, id) && j != id
    ensures JobView(ReleaseStep(s, id), j) == JobView(s, j)
  {
    FindRemove(s.jobs, FindJob(s.jobs, id), j);
  }

  lemma Gone(jobs: seq<Job>, id: nat)
    requires forall k :: 0 <= k < |jobs| ==> jobs[k].id != id
    ensures !Live(jobs, id)
  {
  }

  lemma OthersRemain(s: State, id: nat)
    requires DistinctJobs(s) && Live(s.jobs, id)
    ensures forall k :: 0 <= k < |ReleaseStep(s, id).jobs| ==>
              ReleaseStep(s, id).jobs[k].id != id && ReleaseStep(s, id).jobs[k] in s.jobs
  {
    var s' := ReleaseStep(s, id);
    forall k | 0 <= k < |s'.jobs| ensures s'.jobs[k].id != id && s'.jobs[k] in s.jobs {
      OthersStay(s.jobs, FindJob(s.jobs, id), k);
    }
  }

  lemma ReleaseWorkers(s: State, s': State, id: nat, w: Worker)
    requires WorkersOrdered(s) && w in s.workers
    requires SameViews(s, s', id) && JobView(s', id) == JobView(s, id).(queue := None)
    ensures WorkerOrdered(s', w)
  {
    assert WorkerOrdered(s, w);
    if HeldOfJob(id)(w) == 0 {
      WorkerFrame(s, s', id, w);
    }
  }

  lemma ReleaseOrder(s: State, id: nat)
    requires Ordered(s) && DistinctJobs(s)
    ensures Ordered(ReleaseStep(s, id))
  {
    var s' := ReleaseStep(s, id);
    if Live(s.jobs, id) {
      ReleaseViews(s, id);
      OthersRemain(s, id);
      forall w | 0 <= w < |s'.workers| ensures WorkerOrdered(s', s'.workers[w]) {
        ReleaseWorkers(s, s', id, s.workers[w]);
      }
      OrderedKept(s, s', id);
    }
  }

  /** What stands on a ready queue after a put was there before, except the packet put. */
  lemma PutReadyKeeps(pools: seq<Pool>, k: nat, p: Packet, l: nat, i: nat)
    requires k < |pools| && l < |pools| && i < |PutReady(pools, k, p)[l].ready|
    ensures PutReady(pools, k, p)[l].ready[i] == p ||
            (i < |pools[l].ready| && pools[l].ready[i] == PutReady(pools, k, p)[l].ready[i])
  {
  }

  lemma DispatchDiscrete(s: State, p: Packet)
    requires Ordered(s) && Enabled(s, Dispatch(p))
    requires p.jobId == DISCRETE || GetPool(p.poolId, |s.pools|).None? || !Live(s.jobs, p.jobId)
    ensures Ordered(DispatchStep(s, p))
  {
    var s' := DispatchStep(s, p);
    var pool := GetPool(p.poolId, |s.pools|);
    forall l, i | 0 <= l < |s'.pools| && 0 <= i < |s'.pools[l].ready| && s'.pools[l].ready[i].jobId != DISCRETE
      ensures i < |s.pools[l].ready| && s.pools[l].ready[i] == s'.pools[l].ready[i]
    {
      if pool.Some? {
        PutReadyKeeps(s.pools, pool.value, p, l, i);
      }
    }
    assert SameViews(s, s', DISCRETE);
    OrderedKept(s, s', DISCRETE);
  }

  /** A message for a resting job goes straight to its pool, and is next in order there. */
  lemma DispatchFirst(s: State, p: Packet)
    requires Ordered(s) && DistinctJobs(s) && JobsKnown(s) && OneInFlight(s) && Enabled(s, Dispatch(p)) && Feeds(s, p)
    ensures Ordered(DispatchStep(s, p))
  {
    FirstViews(s, p);
    FirstReady(s, p);
    NoneInFlight(s, p.jobId);
    forall w | 0 <= w < |s.workers| ensures HeldOfJob(p.jobId)(s.workers[w]) == 0 {
      assert !IsHeld(s, w, p.jobId);
    }
    OrderedKept(s, DispatchStep(s, p), p.jobId);
  }

  lemma FirstViews(s: State, p: Packet)
    requires RestingOrdered(s) && Enabled(s, Dispatch(p)) && Feeds(s, p) && OneInFlight(s)
    ensures SameViews(s, DispatchStep(s, p), p.jobId)
    ensures QueuedInOrder(JobView(DispatchStep(s, p), p.jobId), p)
  {
    var s' := DispatchStep(s, p);
    var i := FindJob(s.jobs, p.jobId);
    assert BegunInOrder(JobView(s, s.jobs[i].id), 0);
    forall j ensures FindJob(s'.jobs, j) == FindJob(s.jobs, j) {
      FindUpdate(s.jobs, i, s'.jobs[i], j);
    }
  }

  lemma FirstReady(s: State, p: Packet)
    requires OneInFlight(s) && Enabled(s, Dispatch(p)) && Feeds(s, p)
    ensures var s' := DispatchStep(s, p);
            forall l, m :: 0 <= l < |s'.pools| && 0 <= m < |s'.pools[l].ready| ==>
              s'.pools[l].ready[m] == p ||
              (m < |s.pools[l].ready| && s.pools[l].ready[m] == s'.pools[l].ready[m] && s.pools[l].ready[m].jobId != p.jobId)
  {
    var s' := DispatchStep(s, p);
    NoneInFlight(s, p.jobId);
    forall l, m | 0 <= l < |s'.pools| && 0 <= m < |s'.pools[l].ready|
      ensures s'.pools[l].ready[m] == p ||
              (m < |s.pools[l].ready| && s.pools[l].ready[m] == s'.pools[l].ready[m] && s.pools[l].ready[m].jobId != p.jobId)
    {
      PutReadyKeeps(s.pools, GetPool(p.poolId, |s.pools|).value, p, l, m);
      assert !IsReady(s, l, m, p.jobId);
    }
  }

  lemma DispatchLater(s: State, p: Packet)
    requires Ordered(s) && DistinctJobs(s) && JobsKnown(s) && Enabled(s, Dispatch(p))
    requires p.jobId != DISCRETE && GetPool(p.poolId, |s.pools|).Some? && Live(s.jobs, p.jobId) && !Feeds(s, p)
    ensures Ordered(DispatchStep(s, p))
  {
    var s' := DispatchStep(s, p);
    var id := p.jobId;
    var i := FindJob(s.jobs, id);
    assert s.jobs[i].id in s.history;
    forall j ensures FindJob(s'.jobs, j) == FindJob(s.jobs, j) {
      FindUpdate(s.jobs, i, s'.jobs[i], j);
    }
    assert SameViews(s, s', id);
    var v, v' := JobView(s, id), JobView(s', id);
    forall q | QueuedInOrder(v, q) ensures QueuedInOrder(v', q) {
      LongerQueue(v, p, q);
    }
    forall running: nat | BegunInOrder(v, running) ensures BegunInOrder(v', running) {
      LongerBegun(v, p, running);
    }
    LongerKept(s, s', id);
  }

  /** A job's view may grow as long as everything in order stays in order. */
  lemma LongerKept(s: State, s': State, id: nat)
    requires Ordered(s) && SameViews(s, s', id) && s'.pools == s.pools && s'.workers == s.workers
    requires forall q :: QueuedInOrder(JobView(s, id), q) ==> QueuedInOrder(JobView(s', id), q)
    requires forall running: nat :: BegunInOrder(JobView(s, id), running) ==> BegunInOrder(JobView(s', id), running)
    requires forall q :: RunningInOrder(JobView(s, id), q) ==> RunningInOrder(JobView(s', id), q)
    requires forall i :: 0 <= i < |s'.jobs| && s'.jobs[i].empty ==> s'.jobs[i] in s.jobs && s'.jobs[i].id != id
    ensures Ordered(s')
  {
    forall w | 0 <= w < |s.workers| ensures WorkerOrdered(s', s.workers[w]) {
      assert WorkerOrdered(s, s.workers[w]);
      if HeldOfJob(id)(s.workers[w]) == 0 {
        WorkerFrame(s, s', id, s.workers[w]);
      }
    }
    OrderedKept(s, s', id);
  }

  function Longer(v: View, p: Packet): View {
    match v
    case View(Some(h), Some(q)) => View(Some(h.(accepted := h.accepted + [p])), Some(q + [p]))
    case _ => v
  }

  lemma LongerQueue(v: View, p: Packet, q: Packet)
    requires QueuedInOrder(v, q)
    ensures QueuedInOrder(Longer(v, p), q)
  {
    if v.queue.Some? {
      var h := v.history.value;
      assert h.begun + [q] + (v.queue.value + [p]) == h.accepted + [p];
    }
  }

  lemma LongerBegun(v: View, p: Packet, running: nat)
    requires BegunInOrder(v, running)
    ensures BegunInOrder(Longer(v, p), running)
  {
    if v.queue.Some? {
      var h := v.history.value;
      assert h.begun + (v.queue.value + [p]) == h.accepted + [p];
    }
  }

  lemma DispatchOrder(s: State, p: Packet)
    requires Ordered(s) && DistinctJobs(s) && JobsKnown(s) && OneInFlight(s) && Enabled(s, Dispatch(p))
    ensures Ordered(DispatchStep(s, p))
  {
    if p.jobId == DISCRETE || GetPool(p.poolId, |s.pools|).None? || !Live(s.jobs, p.jobId) {
      DispatchDiscrete(s, p);
    } else if Feeds(s, p) {
      DispatchFirst(s, p);
    } else {
      DispatchLater(s, p);
    }
  }

  lemma GetOrder(s: State, w: nat)
    requires Ordered(s) && JobsKnown(s) && OneInFlight(s) && Enabled(s, Get(w))
    ensures Ordered(GetStep(s, w))
  {
    var ready := s.pools[s.workers[w].pool].ready;
    if ready == [] || ready[0].jobId == DISCRETE {
      GetPlain(s, w);
    } else {
      GetJobs(s, w);
    }
  }

  lemma GetPlain(s: State, w: nat)
    requires Ordered(s) && JobsKnown(s) && Enabled(s, Get(w))
    requires var ready := s.pools[s.workers[w].pool].ready; ready == [] || ready[0].jobId == DISCRETE
    ensures Ordered(GetStep(s, w))
  {
    var s' := GetStep(s, w);
    assert SameViews(s, s', DISCRETE);
    assert WorkerOrdered(s', s'.workers[w]);
    GetKeepsReady(s, w);
    OrderedKept(s, s', DISCRETE);
  }

  /** A message leaves the ready queue and its worker begins it, in order. */
  lemma GetJobs(s: State, w: nat)
    requires Ordered(s) && JobsKnown(s) && OneInFlight(s) && Enabled(s, Get(w))
    requires var ready := s.pools[s.workers[w].pool].ready; ready != [] && ready[0].jobId != DISCRETE
    ensures Ordered(GetStep(s, w))
  {
    var id := s.pools[s.workers[w].pool].ready[0].jobId;
    GetViews(s, w);
    GetKeepsReady(s, w);
    GetLeavesNone(s, w);
    GetResting(s, w);
    OrderedKept(s, GetStep(s, w), id);
  }

  lemma GetViews(s: State, w: nat)
    requires ReadyOrdered(s) && Enabled(s, Get(w))
    requires var ready := s.pools[s.workers[w].pool].ready; ready != [] && ready[0].jobId != DISCRETE
    ensures var p := s.pools[s.workers[w].pool].ready[0]; var s' := GetStep(s, w);
            SameViews(s, s', p.jobId) && RunningInOrder(JobView(s', p.jobId), p) && WorkerOrdered(s', s'.workers[w])
  {
    var p := s.pools[s.workers[w].pool].ready[0];
    var s' := GetStep(s, w);
    assert QueuedInOrder(JobView(s, p.jobId), p);
    assert SameViews(s, s', p.jobId);
    assert RunningInOrder(JobView(s', p.jobId), p);
  }

  lemma GetKeepsReady(s: State, w: nat)
    requires Enabled(s, Get(w))
    ensures var s' := GetStep(s, w);
            forall l, i :: 0 <= l < |s'.pools| && 0 <= i < |s'.pools[l].ready| ==> WasReady(s, s'.pools[l].ready[i])
  {
    var s' := GetStep(s, w);
    forall l, i | 0 <= l < |s'.pools| && 0 <= i < |s'.pools[l].ready| ensures WasReady(s, s'.pools[l].ready[i]) {
      GetReady(s, w, l, i);
    }
  }

  /** Nothing else of the job that begins is on a ready queue or with a worker. */
  lemma GetLeavesNone(s: State, w: nat)
    requires OneInFlight(s) && Enabled(s, Get(w))
    requires var ready := s.pools[s.workers[w].pool].ready; ready != [] && ready[0].jobId != DISCRETE
    ensures var id := s.pools[s.workers[w].pool].ready[0].jobId; var s' := GetStep(s, w);
            && (forall l, i :: 0 <= l < |s'.pools| && 0 <= i < |s'.pools[l].ready| ==> s'.pools[l].ready[i].jobId != id)
            && (forall v :: 0 <= v < |s'.workers| && v != w ==>
                  HeldOfJob(id)(s'.workers[v]) == 0 && s'.workers[v] in s.workers)
  {
    var s' := GetStep(s, w);
    var k := s.workers[w].pool;
    var id := s.pools[k].ready[0].jobId;
    assert IsReady(s, k, 0, id);
    OnlyReady(s, k, 0, id);
    forall l, i | 0 <= l < |s'.pools| && 0 <= i < |s'.pools[l].ready| ensures s'.pools[l].ready[i].jobId != id {
      GetReady(s, w, l, i);
      assert !IsReady(s, l, if l == k then i + 1 else i, id);
    }
    forall v | 0 <= v < |s'.workers| && v != w
      ensures HeldOfJob(id)(s'.workers[v]) == 0 && s'.workers[v] in s.workers
    {
      assert s'.workers[v] == s.workers[v];
      assert !IsHeld(s, v, id);
    }
  }

  lemma GetReady(s: State, w: nat, l: nat, i: nat)
    requires Enabled(s, Get(w)) && l < |s.pools| && i < |GetStep(s, w).pools[l].ready|
    ensures var m := if l == s.workers[w].pool && s.pools[l].ready != [] then i + 1 else i;
            m < |s.pools[l].ready| && s.pools[l].ready[m] == GetStep(s, w).pools[l].ready[i]
  {
  }

  /** The job of a message on a ready queue is not resting. */
  lemma GetResting(s: State, w: nat)
    requires OneInFlight(s) && Enabled(s, Get(w)) && s.pools[s.workers[w].pool].ready != []
    ensures forall i :: 0 <= i < |s.jobs| && s.jobs[i].empty ==> s.jobs[i].id != s.pools[s.workers[w].pool].ready[0].jobId
  {
    var k := s.workers[w].pool;
    ReadyCounts(s, k, 0, s.pools[k].ready[0].jobId);
  }

  lemma HeldResting(s: State, w: nat, id: nat)
    requires OneInFlight(s) && IsHeld(s, w, id)
    ensures forall i :: 0 <= i < |s.jobs| && s.jobs[i].empty ==> s.jobs[i].id != id
  {
    HeldCounts(s, w, id);
  }

  /** Nothing else of the job that worker w holds is on a ready queue or with a worker, and it does not rest. */
  lemma HeldAlone(s: State, w: nat, id: nat)
    requires OneInFlight(s) && IsHeld(s, w, id) && id != DISCRETE
    ensures forall l, i :: 0 <= l < |s.pools| && 0 <= i < |s.pools[l].ready| ==> s.pools[l].ready[i].jobId != id
    ensures forall v :: 0 <= v < |s.workers| && v != w ==> HeldOfJob(id)(s.workers[v]) == 0
    ensures forall i :: 0 <= i < |s.jobs| && s.jobs[i].empty ==> s.jobs[i].id != id
  {
    OnlyHeld(s, w, id);
    HeldResting(s, w, id);
    forall l, i | 0 <= l < |s.pools| && 0 <= i < |s.pools[l].ready| ensures s.pools[l].ready[i].jobId != id {
      assert !IsReady(s, l, i, id);
    }
    forall v | 0 <= v < |s.workers| && v != w ensures HeldOfJob(id)(s.workers[v]) == 0 {
      assert !IsHeld(s, v, id);
    }
  }

  lemma ProcessOrder(s: State, w: nat)
    requires Ordered(s) && JobsKnown(s) && OneInFlight(s) && Enabled(s, Process(w))
    ensures Ordered(ProcessStep(s, w))
  {
    var s' := ProcessStep(s, w);
    var id := s.workers[w].phase.packet.jobId;
    if id == DISCRETE {
      assert SameViews(s, s', DISCRETE);
      OrderedKept(s, s', DISCRETE);
    } else {
      assert IsHeld(s, w, id);
      HeldAlone(s, w, id);
      ProcessViews(s, w);
      OrderedKept(s, s', id);
    }
  }

  lemma ProcessViews(s: State, w: nat)
    requires WorkersOrdered(s) && Enabled(s, Process(w)) && s.workers[w].phase.packet.jobId != DISCRETE
    ensures var id := s.workers[w].phase.packet.jobId; var s' := ProcessStep(s, w);
            SameViews(s, s', id) && WorkerOrdered(s', s'.workers[w])
  {
    assert WorkerOrdered(s, s.workers[w]);
  }

  lemma NextGone(s: State, w: nat)
    requires Ordered(s) && Enabled(s, Next(w)) && !Live(s.jobs, s.workers[w].phase.jobId)
    ensures Ordered(NextStep(s, w))
  {
    var s' := NextStep(s, w);
    assert SameViews(s, s', DISCRETE);
    OrderedKept(s, s', DISCRETE);
  }

  lemma NextLive(s: State, w: nat)
    requires Ordered(s) && DistinctJobs(s) && WellFormed(s) && OneInFlight(s)
    requires Enabled(s, Next(w)) && Live(s.jobs, s.workers[w].phase.jobId)
    ensures Ordered(NextStep(s, w))
  {
    var id := s.workers[w].phase.jobId;
    assert WorkerOk(s.workers[w], |s.pools|) && WorkerOrdered(s, s.workers[w]) && IsHeld(s, w, id);
    HeldAlone(s, w, id);
    NextViews(s, w);
    NextReady(s, w);
    NextJobs(s, w);
    OrderedKept(s, NextStep(s, w), id);
  }

  lemma NextViews(s: State, w: nat)
    requires WellFormed(s) && Enabled(s, Next(w)) && Live(s.jobs, s.workers[w].phase.jobId)
    ensures var s' := NextStep(s, w);
            && SameViews(s, s', s.workers[w].phase.jobId) && WorkerOrdered(s', s'.workers[w])
            && forall v :: 0 <= v < |s'.workers| && v != w ==> s'.workers[v] == s.workers[v]
  {
    var s' := NextStep(s, w);
    var i := FindJob(s.jobs, s.workers[w].phase.jobId);
    assert JobOk(s.jobs[i], |s.pools|);
    NextIs(s, w, i);
    forall j ensures FindJob(s'.jobs, j) == FindJob(s.jobs, j) {
      FindUpdate(s.jobs, i, s'.jobs[i], j);
    }
  }

  lemma NextReady(s: State, w: nat)
    requires DistinctJobs(s) && WellFormed(s) && OneInFlight(s) && Enabled(s, Next(w))
    requires Live(s.jobs, s.workers[w].phase.jobId)
    requires BegunInOrder(JobView(s, s.workers[w].phase.jobId), 0)
    ensures var s' := NextStep(s, w);
            forall l, m :: 0 <= l < |s'.pools| && 0 <= m < |s'.pools[l].ready| ==>
              var p := s'.pools[l].ready[m]; var id := s.workers[w].phase.jobId;
              (p.jobId == id && QueuedInOrder(JobView(s', id), p)) ||
              (p.jobId != id && l < |s.pools| && m < |s.pools[l].ready| && s.pools[l].ready[m] == p)
  {
    var s' := NextStep(s, w);
    var id := s.workers[w].phase.jobId;
    var i := FindJob(s.jobs, id);
    var q := s.jobs[i].msgQue;
    assert JobOk(s.jobs[i], |s.pools|) && WorkerOk(s.workers[w], |s.pools|) && IsHeld(s, w, id);
    NextIs(s, w, i);
    HeldAlone(s, w, id);
    if q != [] {
      NextQueued(s, w);
      forall l, m | 0 <= l < |s'.pools| && 0 <= m < |s'.pools[l].ready|
        ensures s'.pools[l].ready[m] == q[0] ||
                (m < |s.pools[l].ready| && s.pools[l].ready[m] == s'.pools[l].ready[m])
      {
        PutReadyKeeps(s.pools, GetPool(q[0].poolId, |s.pools|).value, q[0], l, m);
      }
    }
  }

  /** The message that is fed to its pool is next in the order of its job. */
  lemma NextQueued(s: State, w: nat)
    requires WellFormed(s) && Enabled(s, Next(w)) && Live(s.jobs, s.workers[w].phase.jobId)
    requires BegunInOrder(JobView(s, s.workers[w].phase.jobId), 0)
    requires s.jobs[FindJob(s.jobs, s.workers[w].phase.jobId)].msgQue != []
    ensures var id := s.workers[w].phase.jobId; var p := s.jobs[FindJob(s.jobs, id)].msgQue[0];
            p.jobId == id && QueuedInOrder(JobView(NextStep(s, w), id), p)
  {
    var s' := NextStep(s, w);
    var id := s.workers[w].phase.jobId;
    var i := FindJob(s.jobs, id);
    var q, h := s.jobs[i].msgQue, s.history[id];
    assert JobOk(s.jobs[i], |s.pools|);
    NextIs(s, w, i);
    FindUpdate(s.jobs, i, s'.jobs[i], id);
    assert h.accepted == h.begun + [q[0]] + q[1..];
  }

  lemma NextJobs(s: State, w: nat)
    requires DistinctJobs(s) && WellFormed(s) && OneInFlight(s) && Enabled(s, Next(w))
    requires Live(s.jobs, s.workers[w].phase.jobId)
    requires BegunInOrder(JobView(s, s.workers[w].phase.jobId), 0)
    ensures var s' := NextStep(s, w); var id := s.workers[w].phase.jobId;
            forall k :: 0 <= k < |s'.jobs| && s'.jobs[k].empty ==>
              (s'.jobs[k].id == id && BegunInOrder(JobView(s', id), 0)) ||
              (s'.jobs[k].id != id && s'.jobs[k] in s.jobs)
  {
    var s' := NextStep(s, w);
    var id := s.workers[w].phase.jobId;
    var i := FindJob(s.jobs, id);
    assert JobOk(s.jobs[i], |s.pools|);
    TakeNextSplits(s.jobs[i].msgQue, |s.pools|);
    FindUpdate(s.jobs, i, s'.jobs[i], id);
    assert IsHeld(s, w, id);
    HeldResting(s, w, id);
    assert !s.jobs[i].empty;
  }

  lemma StepOrder(s: State, a: Action)
    requires Ordered(s) && DistinctJobs(s) && WellFormed(s) && JobsKnown(s) && OneInFlight(s)
    requires Enabled(s, a) && Careful(s, a)
    ensures Ordered(Apply(s, a))
  {
    match a
    case Acquire => AcquireOrder(s);
    case Release(id) => ReleaseOrder(s, id);
    case Dispatch(p) => DispatchOrder(s, p);
    case Get(w) => GetOrder(s, w);
    case Process(w) => ProcessOrder(s, w);
    case Next(w) =>
      if Live(s.jobs, s.workers[w].phase.jobId) {
        NextLive(s, w);
      } else {
        NextGone(s, w);
      }
    case Retry(w) => NeverRetrying(s, w);
    case _ => QuietOrder(s, a);
  }

  // ---------------------------------------------------------------- whole runs

  /** Shape, semaphores and packets are kept by every step, reissued ids or not. */
  lemma StepSound(s: State, a: Action)
    requires Sound(s) && Enabled(s, a)
    ensures Sound(Apply(s, a))
  {
    StepShape(s, a);
    StepSemaphores(s, a);
    StepConserves(s, a);
  }

  /** One message in flight, in order, is kept by every careful step. */
  lemma StepKeeps(s: State, a: Action)
    requires Inv(s) && Enabled(s, a) && Careful(s, a)
    ensures Inv(Apply(s, a))
  {
    StepSound(s, a);
    StepOne(s, a);
    StepOrder(s, a);
  }

  lemma InitialSound(s: State)
    requires Initial(s)
    ensures Sound(s)
  {
    forall k | 0 <= k < |s.pools| ensures SemOk(s, k) {
      SumZero(s.workers, WokenIn(k));
      SumZero(s.workers, OwesPost(k));
    }
    forall p ensures Places(s, p) == 0 {
      SumZero(s.pools, InReady(p));
      SumZero(s.workers, InWorker(p));
    }
  }

  lemma InitialInv(s: State)
    requires Initial(s)
    ensures Inv(s)
  {
    InitialSound(s);
    forall j ensures InFlight(s, j) == 0 {
      SumZero(s.pools, ReadyOfJob(j));
      SumZero(s.workers, HeldOfJob(j));
    }
  }

  lemma {:induction false} RunSound(s: State, acts: seq<Action>, s': State)
    requires Sound(s) && Run(s, acts, s')
    ensures Sound(s')
    decreases |acts|
  {
    if acts != [] {
      StepSound(s, acts[0]);
      RunSound(Apply(s, acts[0]), acts[1..], s');
    }
  }

  lemma {:induction false} RunKeepsInv(s: State, acts: seq<Action>, s': State)
    requires Inv(s) && CarefulRun(s, acts, s')
    ensures Inv(s')
    decreases |acts|
  {
    if acts != [] {
      StepKeeps(s, acts[0]);
      RunKeepsInv(Apply(s, acts[0]), acts[1..], s');
    }
  }

  lemma ReachableSound(s: State)
    requires Reachable(s)
    ensures Sound(s)
  {
    var s0, acts :| Initial(s0) && Run(s0, acts, s);
    InitialSound(s0);
    RunSound(s0, acts, s);
  }

  lemma ReachableInv(s: State)
    requires CarefullyReachable(s)
    ensures Inv(s)
  {
    var s0, acts :| Initial(s0) && CarefulRun(s0, acts, s);
    InitialInv(s0);
    RunKeepsInv(s0, acts, s);
  }

  // ---------------------------------------------------------------- what every run keeps

  /** Live job ids are valid and pairwise distinct. */
  lemma LiveIdsDistinct(s: State, i: nat, k: nat)
    requires Reachable(s) && i < k < |s.jobs|
    ensures 1 <= s.jobs[i].id <= MAX_ID && s.jobs[i].id != s.jobs[k].id
  {
    ReachableSound(s);
  }

  /** Every packet given to dispatch is in exactly one place, before and after job releases. */
  lemma PacketsAreConserved(s: State, p: Packet)
    requires Reachable(s)
    ensures Sum(s.pools, InReady(p)) + Sum(s.jobs, InJob(p)) + Sum(s.workers, InWorker(p)) + multiset(s.releasing)[p]
            + multiset(s.processed)[p] + Sum(s.returned, IsReply(p)) == if p in s.given then 1 else 0
  {
    ReachableSound(s);
    assert Places(s, p) == if p in s.given then 1 else 0;
  }

  /** Semaphore count, woken workers and posts to come make up the length of the ready queue. */
  lemma SemaphoresMatchQueues(s: State, k: nat)
    requires Reachable(s) && k < |s.pools|
    ensures s.pools[k].sem + Sum(s.workers, WokenIn(k)) + Owed(s, k) == |s.pools[k].ready|
  {
    ReachableSound(s);
    assert SemOk(s, k);
  }

  /** No worker ever meets an invalid pool id. */
  lemma PoolErrorUnreachable(s: State, w: nat)
    requires Reachable(s) && w < |s.workers|
    ensures !s.workers[w].phase.Retrying?
    ensures s.workers[w].phase.Finishing? ==>
              var i := FindJob(s.jobs, s.workers[w].phase.jobId);
              i < |s.jobs| ==> TakeNext(s.jobs[i].msgQue, |s.pools|).refused == []
  {
    ReachableSound(s);
    NeverRetrying(s, w);
  }

  // ---------------------------------------------------------------- what careful runs keep

  /** The packet that worker w takes up next is the next one accepted, and all before it have ended. */
  predicate TakesNext(s: State, w: nat)
    requires Enabled(s, Get(w))
  {
    var ready := s.pools[s.workers[w].pool].ready;
    ready != [] && ready[0].jobId != DISCRETE ==>
      ready[0].jobId in s.history &&
      var h := s.history[ready[0].jobId];
      h.ended == |h.begun| < |h.accepted| && h.begun == h.accepted[..|h.begun|] && h.accepted[|h.begun|] == ready[0]
  }

  lemma InvTakesNext(s: State, w: nat)
    requires Inv(s) && Enabled(s, Get(w))
    ensures s.pools[s.workers[w].pool].ready != [] && TakesNext(s, w)
  {
    WokenFindsMessage(s, w);
    var p := s.pools[s.workers[w].pool].ready[0];
    if p.jobId != DISCRETE {
      assert QueuedInOrder(JobView(s, p.jobId), p);
      var h := s.history[p.jobId];
      assert (h.begun + [p])[|h.begun|] == p;
    }
  }

  /** A job message that a worker takes up is the next one accepted, and all before it have ended. */
  lemma JobsRunInSequence(s: State, w: nat)
    requires CarefullyReachable(s) && Enabled(s, Get(w))
    ensures s.pools[s.workers[w].pool].ready != []
    ensures var p := s.pools[s.workers[w].pool].ready[0];
            p.jobId != DISCRETE ==>
              p.jobId in s.history &&
              var h := s.history[p.jobId];
              h.ended == |h.begun| < |h.accepted| && h.begun == h.accepted[..|h.begun|] && h.accepted[|h.begun|] == p
  {
    ReachableInv(s);
    InvTakesNext(s, w);
  }

  /** A live job has one message in flight when `empty` is false, and nothing at all when it is true. */
  lemma EmptyFlagIsExact(s: State, i: nat)
    requires CarefullyReachable(s) && i < |s.jobs|
    ensures InFlight(s, s.jobs[i].id) == if s.jobs[i].empty then 0 else 1
    ensures s.jobs[i].empty ==> s.jobs[i].msgQue == []
    ensures s.jobs[i].empty ==> s.jobs[i].id in s.history
    ensures s.jobs[i].empty ==> var h := s.history[s.jobs[i].id]; h.begun == h.accepted && h.ended == |h.begun|
  {
    ReachableInv(s);
    if s.jobs[i].empty {
      JobAt(s, i);
      assert BegunInOrder(JobView(s, s.jobs[i].id), 0);
    }
  }
}
