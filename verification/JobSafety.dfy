/**
  What every step of the server keeps: each pool's semaphore matches its ready queue, packets
  are conserved, and a job has one message in flight at a time, taken in dispatch order.
 */
module JobSafety {
  import opened Types
  import opened Sums
  import opened JobStreams

  // ---------------------------------------------------------------- job ids

  lemma {:induction false} LiveIff(jobs: seq<Job>, id: nat)
    ensures Live(jobs, id) <==> exists i :: 0 <= i < |jobs| && jobs[i].id == id
  {
  }

  /** n steps of the rotation. */
  function Rotate(last: nat, n: nat): nat
    decreases n
  {
    if n == 0 then last else Rotate(NextId(last), n - 1)
  }

  lemma {:induction false} RotateIs(last: nat, n: nat)
    requires 1 <= last <= MAX_ID
    ensures Rotate(last, n) == 1 + (last - 1 + n) % MAX_ID
    decreases n
  {
    if n > 0 {
      RotateIs(NextId(last), n - 1);
    }
  }

  /** The search stops at its n-th try: the first free id, or the last of `count` that are all in use. */
  lemma {:induction false} SearchResult(jobs: seq<Job>, last: nat, count: nat) returns (n: nat)
    requires 1 <= last <= MAX_ID
    ensures n <= count && Search(jobs, last, count).1 == Rotate(last, n)
    ensures 1 <= Search(jobs, last, count).1 <= MAX_ID
    ensures forall k :: 1 <= k < n ==> Live(jobs, Rotate(last, k))
    ensures Search(jobs, last, count).0 == DISCRETE ==> n == count && forall k :: 1 <= k <= n ==> Live(jobs, Rotate(last, k))
    ensures Search(jobs, last, count).0 != DISCRETE ==>
              n >= 1 && Search(jobs, last, count).0 == Rotate(last, n) && !Live(jobs, Rotate(last, n))
    decreases count
  {
    n := 0;
    if count > 0 {
      var next := NextId(last);
      assert Rotate(last, 1) == Rotate(next, 0) == next;
      n := 1;
      if Live(jobs, next) {
        var m := SearchResult(jobs, next, count - 1);
        n := m + 1;
        forall k | 1 <= k <= n ensures Rotate(last, k) == Rotate(next, k - 1) {
        }
        forall k | 2 <= k < n ensures Live(jobs, Rotate(last, k)) {
          assert Live(jobs, Rotate(next, k - 1));
        }
        if Search(jobs, last, count).0 == DISCRETE {
          forall k | 2 <= k <= n ensures Live(jobs, Rotate(last, k)) {
            assert Live(jobs, Rotate(next, k - 1));
          }
        }
      }
    }
  }

  /** Any id between 1 and 65535 is reached within 65535 steps of the rotation. */
  lemma RotateReaches(last: nat, id: nat) returns (n: nat)
    requires 1 <= last <= MAX_ID && 1 <= id <= MAX_ID
    ensures 1 <= n <= MAX_ID && Rotate(last, n) == id
  {
    n := if id > last then id - last else id - last + MAX_ID;
    RotateIs(last, n);
  }

  lemma RemaindersDiffer(x: nat, y: nat)
    requires x < y < x + MAX_ID
    ensures x % MAX_ID != y % MAX_ID
  {
    var a, b := x / MAX_ID, y / MAX_ID;
    assert y - x == (b - a) * MAX_ID + (y % MAX_ID - x % MAX_ID);
  }

  /** No two of 65535 consecutive tries are the same id. */
  lemma TriedOnce(last: nat, m: nat, n: nat)
    requires 1 <= last <= MAX_ID && 1 <= m < n <= MAX_ID
    ensures Rotate(last, m) != Rotate(last, n)
    ensures 1 <= Rotate(last, n) <= MAX_ID
  {
    RotateIs(last, m);
    RotateIs(last, n);
    RemaindersDiffer(last - 1 + m, last - 1 + n);
  }

  /** The id that the search finds is valid and free; the last id tried is valid. */
  lemma FoundFree(jobs: seq<Job>, last: nat)
    requires 1 <= last <= MAX_ID
    ensures 1 <= Search(jobs, last, MAX_ID).1 <= MAX_ID
    ensures Search(jobs, last, MAX_ID).0 != DISCRETE ==>
      Search(jobs, last, MAX_ID).0 == Search(jobs, last, MAX_ID).1 && !Live(jobs, Search(jobs, last, MAX_ID).0)
  {
    var n := SearchResult(jobs, last, MAX_ID);
  }

  /** acqJobId reports that no id is available exactly when all 65535 are in use. */
  lemma SearchComplete(jobs: seq<Job>, last: nat)
    requires 1 <= last <= MAX_ID
    ensures Search(jobs, last, MAX_ID).0 == DISCRETE <==> forall id :: 1 <= id <= MAX_ID ==> Live(jobs, id)
    ensures Search(jobs, last, MAX_ID).0 == DISCRETE ==> Search(jobs, last, MAX_ID).1 == last
  {
    if Search(jobs, last, MAX_ID).0 == DISCRETE {
      SearchFails(jobs, last);
    } else {
      var tries := SearchResult(jobs, last, MAX_ID);
      RotateIs(last, tries);
      assert !Live(jobs, Rotate(last, tries));
    }
  }

  /** The k-th id tried after the last one. */
  function Try(last: nat, k: nat): nat
    requires last >= 1
  {
    1 + (last - 1 + k) % MAX_ID
  }

  predicate AllInUse(jobs: seq<Job>) {
    forall id :: 1 <= id <= MAX_ID ==> Live(jobs, id)
  }

  lemma FoundAfter(jobs: seq<Job>, last: nat) returns (n: nat)
    requires 1 <= last <= MAX_ID && !AllInUse(jobs)
    ensures 1 <= n <= MAX_ID && !Live(jobs, Try(last, n)) && forall k: nat :: 1 <= k < n ==> Live(jobs, Try(last, k))
    ensures Search(jobs, last, MAX_ID) == (Try(last, n), Try(last, n))
  {
    SearchComplete(jobs, last);
    n := SearchResult(jobs, last, MAX_ID);
    RotateIs(last, n);
    forall k: nat | 1 <= k < n ensures Live(jobs, Try(last, k)) {
      RotateIs(last, k);
      assert Live(jobs, Rotate(last, k));
    }
  }

  /**
    Unless all are in use a new job gets the first free id after the last one tried, and the next
    search starts from there.
   */
  lemma AcquireTakesNextFree(s: State) returns (n: nat)
    requires 1 <= s.jobId <= MAX_ID && !AllInUse(s.jobs)
    ensures 1 <= n <= MAX_ID && !Live(s.jobs, Try(s.jobId, n)) && forall k: nat :: 1 <= k < n ==> Live(s.jobs, Try(s.jobId, k))
    ensures AcquireStep(s).jobs == s.jobs + [Job(Try(s.jobId, n), true, [])] && AcquireStep(s).jobId == Try(s.jobId, n)
  {
    n := FoundAfter(s.jobs, s.jobId);
  }

  lemma SearchFails(jobs: seq<Job>, last: nat)
    requires 1 <= last <= MAX_ID && Search(jobs, last, MAX_ID).0 == DISCRETE
    ensures Search(jobs, last, MAX_ID).1 == last
    ensures forall id :: 1 <= id <= MAX_ID ==> Live(jobs, id)
  {
    var tries := SearchResult(jobs, last, MAX_ID);
    FullTurn(last);
    forall id | 1 <= id <= MAX_ID ensures Live(jobs, id) {
      AllLive(jobs, last, id);
    }
  }

  lemma FullTurn(last: nat)
    requires 1 <= last <= MAX_ID
    ensures Rotate(last, MAX_ID) == last
  {
    RotateIs(last, MAX_ID);
  }

  lemma AllLive(jobs: seq<Job>, last: nat, id: nat)
    requires 1 <= last <= MAX_ID && 1 <= id <= MAX_ID
    requires forall k :: 1 <= k <= MAX_ID ==> Live(jobs, Rotate(last, k))
    ensures Live(jobs, id)
  {
    var n := RotateReaches(last, id);
  }

  // ---------------------------------------------------------------- shape

  lemma {:induction false} TakeNextSplits(que: seq<Packet>, count: nat)
    requires forall i :: 0 <= i < |que| ==> GetPool(que[i].poolId, count).Some?
    ensures que == [] ==> TakeNext(que, count) == Feed([], [], None)
    ensures que != [] ==> TakeNext(que, count) == Feed(que[1..], [], Some(que[0]))
  {
  }

  lemma AcquireShape(s: State)
    requires DistinctJobs(s) && WellFormed(s) && JobsKnown(s)
    ensures DistinctJobs(AcquireStep(s)) && WellFormed(AcquireStep(s)) && JobsKnown(AcquireStep(s))
  {
    var (id, last) := Search(s.jobs, s.jobId, MAX_ID);
    FoundFree(s.jobs, s.jobId);
    if id != DISCRETE {
      AddJobShape(s, id, last);
    }
  }

  /** The state after a new job with this id has been added. */
  function AddJob(s: State, id: nat, last: nat): State {
    s.(jobId := last, jobs := s.jobs + [Job(id, true, [])], history := s.history[id := History([], [], 0)])
  }

  lemma AddJobShape(s: State, id: nat, last: nat)
    requires DistinctJobs(s) && WellFormed(s) && JobsKnown(s) && !Live(s.jobs, id)
    requires 1 <= id <= MAX_ID && 1 <= last <= MAX_ID
    ensures var t := AddJob(s, id, last); DistinctJobs(t) && WellFormed(t) && JobsKnown(t)
  {
    forall i | 0 <= i < |s.jobs| ensures s.jobs[i].id != id {
      LiveIff(s.jobs, id);
    }
  }

  lemma JobAt(s: State, i: nat)
    requires DistinctJobs(s) && i < |s.jobs|
    ensures FindJob(s.jobs, s.jobs[i].id) == i && Live(s.jobs, s.jobs[i].id)
  {
    var k := FindJob(s.jobs, s.jobs[i].id);
  }

  /** The jobs that stay when the i-th is taken out. */
  lemma OthersStay(jobs: seq<Job>, i: nat, k: nat)
    requires i < |jobs| && k < |jobs| - 1
    ensures (jobs[..i] + jobs[i + 1..])[k] == jobs[if k < i then k else k + 1]
  {
  }

  lemma ReleaseShape(s: State, id: nat)
    requires DistinctJobs(s) && WellFormed(s) && JobsKnown(s)
    ensures var s' := ReleaseStep(s, id); DistinctJobs(s') && WellFormed(s') && JobsKnown(s')
  {
    var s' := ReleaseStep(s, id);
    var i := FindJob(s.jobs, id);
    if i < |s.jobs| {
      forall k | 0 <= k < |s'.jobs|
        ensures JobOk(s'.jobs[k], |s.pools|) && 1 <= s'.jobs[k].id <= MAX_ID && s'.jobs[k].id in s.history
      {
        OthersStay(s.jobs, i, k);
      }
      forall k, l | 0 <= k < l < |s'.jobs| ensures s'.jobs[k].id != s'.jobs[l].id {
        OthersStay(s.jobs, i, k);
        OthersStay(s.jobs, i, l);
      }
    }
  }

  lemma DispatchShape(s: State, p: Packet)
    requires DistinctJobs(s) && WellFormed(s) && JobsKnown(s) && Enabled(s, Dispatch(p))
    ensures var s' := DispatchStep(s, p); DistinctJobs(s') && WellFormed(s') && JobsKnown(s')
  {
  }

  lemma NextShape(s: State, w: nat)
    requires DistinctJobs(s) && WellFormed(s) && JobsKnown(s) && Enabled(s, Next(w))
    ensures var s' := NextStep(s, w); DistinctJobs(s') && WellFormed(s') && JobsKnown(s')
  {
    var i := FindJob(s.jobs, s.workers[w].phase.jobId);
    if i < |s.jobs| {
      assert JobOk(s.jobs[i], |s.pools|);
      NextIs(s, w, i);
      if s.jobs[i].msgQue == [] {
        RestedShape(s, w, i);
      } else {
        FedShape(s, w, i);
      }
    }
  }

  lemma RestedShape(s: State, w: nat, i: nat)
    requires DistinctJobs(s) && WellFormed(s) && JobsKnown(s) && w < |s.workers| && i < |s.jobs|
    ensures var s' := Rested(s, w, i); DistinctJobs(s') && WellFormed(s') && JobsKnown(s')
  {
  }

  lemma FedShape(s: State, w: nat, i: nat)
    requires DistinctJobs(s) && WellFormed(s) && JobsKnown(s) && w < |s.workers| && i < |s.jobs|
    requires s.jobs[i].msgQue != [] && GetPool(s.jobs[i].msgQue[0].poolId, |s.pools|).Some?
    ensures var s' := Fed(s, w, i); DistinctJobs(s') && WellFormed(s') && JobsKnown(s')
  {
    assert JobOk(s.jobs[i], |s.pools|);
  }

  lemma StepShape(s: State, a: Action)
    requires DistinctJobs(s) && WellFormed(s) && JobsKnown(s) && Enabled(s, a)
    ensures var s' := Apply(s, a); DistinctJobs(s') && WellFormed(s') && JobsKnown(s')
  {
    match a
    case Acquire => AcquireShape(s);
    case Release(id) => ReleaseShape(s, id);
    case Dispatch(p) => DispatchShape(s, p);
    case Next(w) => NextShape(s, w);
    case Process(w) => ProcessShape(s, w);
    case _ => OtherShape(s, a);
  }

  lemma ProcessShape(s: State, w: nat)
    requires DistinctJobs(s) && WellFormed(s) && JobsKnown(s) && Enabled(s, Process(w))
    ensures var s' := ProcessStep(s, w); DistinctJobs(s') && WellFormed(s') && JobsKnown(s')
  {
  }

  lemma OtherShape(s: State, a: Action)
    requires DistinctJobs(s) && WellFormed(s) && JobsKnown(s) && Enabled(s, a)
    requires a.Return? || a.ServerPost? || a.Pend? || a.Get? || a.Post? || a.Retry?
    ensures var s' := Apply(s, a); DistinctJobs(s') && WellFormed(s') && JobsKnown(s')
  {
  }

  // ---------------------------------------------------------------- semaphores

  /** One worker changes phase and pools change at most at one place. */
  lemma SemKept(s: State, s': State, k: nat, w: nat)
    requires k < |s.pools| == |s'.pools| && w < |s.workers| == |s'.workers|
    requires s'.workers == s.workers[w := s'.workers[w]]
    ensures Sum(s'.workers, WokenIn(k)) + WokenIn(k)(s.workers[w]) == Sum(s.workers, WokenIn(k)) + WokenIn(k)(s'.workers[w])
    ensures Sum(s'.workers, OwesPost(k)) + OwesPost(k)(s.workers[w]) == Sum(s.workers, OwesPost(k)) + OwesPost(k)(s'.workers[w])
  {
    SumUpdate(s.workers, w, s'.workers[w], WokenIn(k));
    SumUpdate(s.workers, w, s'.workers[w], OwesPost(k));
  }

  lemma PendSemaphores(s: State, w: nat, k: nat)
    requires Enabled(s, Pend(w)) && k < |s.pools| && SemOk(s, k)
    ensures SemOk(PendStep(s, w), k)
  {
    SemKept(s, PendStep(s, w), k, w);
  }

  lemma GetSemaphores(s: State, w: nat, k: nat)
    requires Enabled(s, Get(w)) && k < |s.pools| && SemOk(s, k)
    ensures SemOk(GetStep(s, w), k)
  {
    SemKept(s, GetStep(s, w), k, w);
    SumSplit(s.workers, w, WokenIn(k));
  }

  lemma ProcessSemaphores(s: State, w: nat, k: nat)
    requires Enabled(s, Process(w)) && k < |s.pools| && SemOk(s, k)
    ensures SemOk(ProcessStep(s, w), k)
  {
    SemKept(s, ProcessStep(s, w), k, w);
  }

  lemma PostSemaphores(s: State, w: nat, k: nat)
    requires Enabled(s, Post(w)) && k < |s.pools| && SemOk(s, k)
    ensures SemOk(PostStep(s, w), k)
  {
    SemKept(s, PostStep(s, w), k, w);
  }

  lemma ServerPostSemaphores(s: State, k: nat)
    requires Enabled(s, ServerPost) && k < |s.pools| && SemOk(s, k)
    ensures SemOk(ServerPostStep(s), k)
  {
  }

  lemma DispatchSemaphores(s: State, p: Packet, k: nat)
    requires Enabled(s, Dispatch(p)) && k < |s.pools| && SemOk(s, k)
    ensures |DispatchStep(s, p).pools| == |s.pools| && SemOk(DispatchStep(s, p), k)
  {
  }

  lemma NextSemaphores(s: State, w: nat, k: nat)
    requires WellFormed(s) && Enabled(s, Next(w)) && k < |s.pools| && SemOk(s, k)
    ensures |NextStep(s, w).pools| == |s.pools| && SemOk(NextStep(s, w), k)
  {
    var i := FindJob(s.jobs, s.workers[w].phase.jobId);
    if i < |s.jobs| {
      TakeNextSplits(s.jobs[i].msgQue, |s.pools|);
    }
    SemKept(s, NextStep(s, w), k, w);
  }

  lemma StepSemaphores(s: State, a: Action)
    requires WellFormed(s) && SemaphoresMatch(s) && Enabled(s, a)
    ensures SemaphoresMatch(Apply(s, a))
  {
    forall k | 0 <= k < |s.pools| ensures |Apply(s, a).pools| == |s.pools| && SemOk(Apply(s, a), k) {
      assert SemOk(s, k);
      match a
      case Pend(w) => PendSemaphores(s, w, k);
      case Get(w) => GetSemaphores(s, w, k);
      case Process(w) => ProcessSemaphores(s, w, k);
      case Post(w) => PostSemaphores(s, w, k);
      case Retry(w) => NeverRetrying(s, w);
      case Next(w) => NextSemaphores(s, w, k);
      case Dispatch(p) => DispatchSemaphores(s, p, k);
      case ServerPost => ServerPostSemaphores(s, k);
      case _ =>
    }
    PoolsKept(s, a);
  }

  lemma PoolsKept(s: State, a: Action)
    requires Enabled(s, a)
    ensures |Apply(s, a).pools| == |s.pools| && |Apply(s, a).workers| == |s.workers|
  {
    if a.Next? {
      NextSizes(s, a.w);
    }
  }

  lemma NextSizes(s: State, w: nat)
    requires Enabled(s, Next(w))
    ensures |NextStep(s, w).pools| == |s.pools| && |NextStep(s, w).workers| == |s.workers|
  {
  }

  /** The worker's pool error branch is never taken: dispatch has validated every queued pool id. */
  lemma NeverRetrying(s: State, w: nat)
    requires WellFormed(s) && w < |s.workers|
    ensures !s.workers[w].phase.Retrying?
    ensures s.workers[w].phase.Finishing? ==>
              var i := FindJob(s.jobs, s.workers[w].phase.jobId);
              i < |s.jobs| ==> TakeNext(s.jobs[i].msgQue, |s.pools|).refused == []
  {
    assert WorkerOk(s.workers[w], |s.pools|);
    if s.workers[w].phase.Finishing? {
      var i := FindJob(s.jobs, s.workers[w].phase.jobId);
      if i < |s.jobs| {
        TakeNextSplits(s.jobs[i].msgQue, |s.pools|);
      }
    }
  }

  /** A woken worker always finds a message on its pool's ready queue. */
  lemma WokenFindsMessage(s: State, w: nat)
    requires WellFormed(s) && SemaphoresMatch(s) && InPhase(s, w, Woken)
    ensures s.pools[s.workers[w].pool].ready != []
  {
    assert SemOk(s, s.workers[w].pool);
    SumSplit(s.workers, w, WokenIn(s.workers[w].pool));
  }

  // ---------------------------------------------------------------- conservation

  lemma MultisetWithout<T>(q: seq<T>, i: nat)
    requires i < |q|
    ensures multiset(q) == multiset(q[..i] + q[i + 1..]) + multiset{q[i]}
  {
    assert q == q[..i] + [q[i]] + q[i + 1..];
  }

  lemma MultisetHead<T>(q: seq<T>)
    requires q != []
    ensures multiset(q) == multiset{q[0]} + multiset(q[1..])
  {
    assert q == [q[0]] + q[1..];
  }

  lemma ReturnedOne(rs: seq<Reply>, r: Reply, p: Packet)
    ensures Sum(rs + [r], IsReply(p)) == Sum(rs, IsReply(p)) + IsReply(p)(r)
  {
    SumAppend(rs, [r], IsReply(p));
    SumOne(r, IsReply(p));
  }

  lemma AcquirePlaces(s: State, p: Packet)
    ensures Places(AcquireStep(s), p) == Places(s, p)
  {
    var (id, last) := Search(s.jobs, s.jobId, MAX_ID);
    if id != DISCRETE {
      SumAppend(s.jobs, [Job(id, true, [])], InJob(p));
      SumOne(Job(id, true, []), InJob(p));
    }
  }

  lemma ReleasePlaces(s: State, id: nat, p: Packet)
    ensures Places(ReleaseStep(s, id), p) == Places(s, p)
  {
    var i := FindJob(s.jobs, id);
    if i < |s.jobs| {
      SumSplit(s.jobs, i, InJob(p));
    }
  }

  lemma ReturnPlaces(s: State, i: nat, p: Packet)
    requires i < |s.releasing|
    ensures Places(ReturnStep(s, i), p) == Places(s, p)
  {
    MultisetWithout(s.releasing, i);
    ReturnedOne(s.returned, Reply(s.releasing[i], Unprocessed), p);
  }

  lemma PoolMoves(pools: seq<Pool>, k: nat, pool: Pool, p: Packet)
    requires k < |pools|
    ensures Sum(pools[k := pool], InReady(p)) + multiset(pools[k].ready)[p] ==
            Sum(pools, InReady(p)) + multiset(pool.ready)[p]
  {
    SumUpdate(pools, k, pool, InReady(p));
  }

  lemma WorkerMoves(s: State, w: nat, phase: Phase, p: Packet)
    requires w < |s.workers|
    ensures Sum(SetPhase(s, w, phase).workers, InWorker(p)) + (if s.workers[w].phase == Processing(p) then 1 else 0) ==
            Sum(s.workers, InWorker(p)) + if phase == Processing(p) then 1 else 0
  {
    SumUpdate(s.workers, w, s.workers[w].(phase := phase), InWorker(p));
  }

  lemma JobMoves(jobs: seq<Job>, i: nat, job: Job, p: Packet)
    requires i < |jobs|
    ensures Sum(jobs[i := job], InJob(p)) + multiset(jobs[i].msgQue)[p] == Sum(jobs, InJob(p)) + multiset(job.msgQue)[p]
  {
    SumUpdate(jobs, i, job, InJob(p));
  }

  lemma PutPlaces(pools: seq<Pool>, k: nat, q: Packet, p: Packet)
    requires k < |pools|
    ensures Sum(PutReady(pools, k, q), InReady(p)) == Sum(pools, InReady(p)) + if p == q then 1 else 0
  {
    PoolMoves(pools, k, pools[k].(ready := pools[k].ready + [q]), p);
  }

  lemma DispatchJobPlaces(s: State, i: nat, k: nat, q: Packet, p: Packet)
    requires i < |s.jobs| && k < |s.pools|
    ensures Places(Accept(s, q).(jobs := s.jobs[i := s.jobs[i].(empty := false)],
                                 pools := PutReady(s.pools, k, q), server := Some(k)), p) ==
            Places(s, p) + if p == q then 1 else 0
    ensures Places(Accept(s, q).(jobs := s.jobs[i := s.jobs[i].(msgQue := s.jobs[i].msgQue + [q])]), p) ==
            Places(s, p) + if p == q then 1 else 0
  {
    PutPlaces(s.pools, k, q, p);
    JobMoves(s.jobs, i, s.jobs[i].(empty := false), p);
    JobMoves(s.jobs, i, s.jobs[i].(msgQue := s.jobs[i].msgQue + [q]), p);
  }

  lemma DispatchPlaces(s: State, q: Packet, p: Packet)
    ensures Places(DispatchStep(s, q), p) == Places(s, p) + if p == q then 1 else 0
  {
    var pool := GetPool(q.poolId, |s.pools|);
    if pool.Some? {
      DispatchFound(s, pool.value, q, p);
    } else {
      ReturnedOne(s.returned, Reply(q, PoolNotFound), p);
    }
  }

  lemma DispatchFound(s: State, k: nat, q: Packet, p: Packet)
    requires GetPool(q.poolId, |s.pools|) == Some(k)
    ensures Places(DispatchStep(s, q), p) == Places(s, p) + if p == q then 1 else 0
  {
    var i := FindJob(s.jobs, q.jobId);
    if q.jobId == DISCRETE {
      PutPlaces(s.pools, k, q, p);
    } else if i < |s.jobs| {
      PutPlaces(s.pools, k, q, p);
      DispatchJobPlaces(s.(given := s.given + {q}), i, k, q, p);
    } else {
      ReturnedOne(s.returned, Reply(q, JobNotFound), p);
    }
  }

  lemma PostPlaces(s: State, k: nat, p: Packet)
    requires k < |s.pools|
    ensures Sum(PostSem(s.pools, k), InReady(p)) == Sum(s.pools, InReady(p))
  {
    SumUpdate(s.pools, k, s.pools[k].(sem := s.pools[k].sem + 1), InReady(p));
  }

  lemma PendPlaces(s: State, w: nat, p: Packet)
    requires Enabled(s, Pend(w))
    ensures Places(PendStep(s, w), p) == Places(s, p)
  {
    var k := s.workers[w].pool;
    SumUpdate(s.pools, k, s.pools[k].(sem := s.pools[k].sem - 1), InReady(p));
    SumUpdate(s.workers, w, s.workers[w].(phase := Woken), InWorker(p));
  }

  lemma BeginPlaces(s: State, q: Packet, p: Packet)
    ensures Places(Begin(s, q), p) == Places(s, p) == Places(End(s, q), p)
  {
  }

  lemma GetPlaces(s: State, w: nat, p: Packet)
    requires Enabled(s, Get(w))
    ensures Places(GetStep(s, w), p) == Places(s, p)
  {
    var k := s.workers[w].pool;
    if s.pools[k].ready == [] {
      WorkerMoves(s, w, Waiting, p);
    } else {
      var q := s.pools[k].ready[0];
      MultisetHead(s.pools[k].ready);
      PoolMoves(s.pools, k, s.pools[k].(ready := s.pools[k].ready[1..]), p);
      var s1 := s.(pools := s.pools[k := s.pools[k].(ready := s.pools[k].ready[1..])]);
      WorkerMoves(s1, w, Processing(q), p);
      BeginPlaces(SetPhase(s1, w, Processing(q)), q, p);
    }
  }

  lemma ProcessedOne(s: State, q: Packet, p: Packet)
    ensures Places(s.(processed := s.processed + [q]), p) == Places(s, p) + if p == q then 1 else 0
  {
  }

  lemma LeavesProcessing(s: State, w: nat, phase: Phase, p: Packet)
    requires w < |s.workers| && s.workers[w].phase.Processing? && !phase.Processing?
    ensures Places(SetPhase(s, w, phase), p) + (if p == s.workers[w].phase.packet then 1 else 0) == Places(s, p)
  {
    WorkerMoves(s, w, phase, p);
  }

  lemma ProcessPlaces(s: State, w: nat, p: Packet)
    requires Enabled(s, Process(w))
    ensures Places(ProcessStep(s, w), p) == Places(s, p)
  {
    var q := s.workers[w].phase.packet;
    var s1 := s.(processed := s.processed + [q]);
    ProcessedOne(s, q, p);
    if q.jobId == DISCRETE {
      LeavesProcessing(s1, w, Waiting, p);
    } else {
      BeginPlaces(s1, q, p);
      LeavesProcessing(End(s1, q), w, Finishing(q.jobId), p);
    }
  }

  lemma NextPlaces(s: State, w: nat, p: Packet)
    requires WellFormed(s) && Enabled(s, Next(w))
    ensures Places(NextStep(s, w), p) == Places(s, p)
  {
    var i := FindJob(s.jobs, s.workers[w].phase.jobId);
    if i == |s.jobs| {
      SumUpdate(s.workers, w, s.workers[w].(phase := Waiting), InWorker(p));
    } else {
      assert JobOk(s.jobs[i], |s.pools|);
      NextIs(s, w, i);
      if s.jobs[i].msgQue == [] {
        RestPlaces(s, w, i, p);
      } else {
        FeedPlaces(s, w, i, p);
      }
    }
  }

  /** The worker finds the job's queue empty. */
  function Rested(s: State, w: nat, i: nat): State
    requires w < |s.workers| && i < |s.jobs|
  {
    SetPhase(s.(jobs := s.jobs[i := Job(s.jobs[i].id, true, [])]), w, Waiting)
  }

  /** The worker puts the job's next message on its pool's ready queue. */
  function Fed(s: State, w: nat, i: nat): State
    requires w < |s.workers| && i < |s.jobs| && s.jobs[i].msgQue != []
    requires GetPool(s.jobs[i].msgQue[0].poolId, |s.pools|).Some?
  {
    var q := s.jobs[i].msgQue;
    var k := GetPool(q[0].poolId, |s.pools|).value;
    SetPhase(s.(jobs := s.jobs[i := s.jobs[i].(msgQue := q[1..])], pools := PutReady(s.pools, k, q[0])), w, Posting(k))
  }

  /** With every queued pool id good, nothing is refused. */
  lemma NextIs(s: State, w: nat, i: nat)
    requires Enabled(s, Next(w)) && i == FindJob(s.jobs, s.workers[w].phase.jobId) && i < |s.jobs|
    requires JobOk(s.jobs[i], |s.pools|)
    ensures NextStep(s, w) == if s.jobs[i].msgQue == [] then Rested(s, w, i) else Fed(s, w, i)
  {
    TakeNextSplits(s.jobs[i].msgQue, |s.pools|);
    assert Replies([], PoolNotFound) == [];
    assert s.returned + [] == s.returned;
  }

  lemma RestPlaces(s: State, w: nat, i: nat, p: Packet)
    requires Enabled(s, Next(w)) && i < |s.jobs| && s.jobs[i].msgQue == []
    ensures Places(Rested(s, w, i), p) == Places(s, p)
  {
    SumUpdate(s.workers, w, s.workers[w].(phase := Waiting), InWorker(p));
    SumUpdate(s.jobs, i, Job(s.jobs[i].id, true, []), InJob(p));
  }

  lemma FeedPlaces(s: State, w: nat, i: nat, p: Packet)
    requires Enabled(s, Next(w)) && i < |s.jobs| && s.jobs[i].msgQue != []
    requires GetPool(s.jobs[i].msgQue[0].poolId, |s.pools|).Some?
    ensures Places(Fed(s, w, i), p) == Places(s, p)
  {
    var q := s.jobs[i].msgQue;
    var k := GetPool(q[0].poolId, |s.pools|).value;
    MultisetHead(q);
    SumUpdate(s.jobs, i, s.jobs[i].(msgQue := q[1..]), InJob(p));
    SumUpdate(s.pools, k, s.pools[k].(ready := s.pools[k].ready + [q[0]]), InReady(p));
    SumUpdate(s.workers, w, s.workers[w].(phase := Posting(k)), InWorker(p));
  }

  lemma WorkerPostPlaces(s: State, w: nat, p: Packet)
    requires Enabled(s, Post(w))
    ensures Places(PostStep(s, w), p) == Places(s, p)
  {
    PostPlaces(s, s.workers[w].phase.pool, p);
    SumUpdate(s.workers, w, s.workers[w].(phase := Waiting), InWorker(p));
  }

  lemma StepPlaces(s: State, a: Action, p: Packet)
    requires WellFormed(s) && Enabled(s, a)
    ensures Places(Apply(s, a), p) == Places(s, p) + if a == Dispatch(p) then 1 else 0
  {
    match a
    case Acquire => AcquirePlaces(s, p);
    case Release(id) => ReleasePlaces(s, id, p);
    case Return(i) => ReturnPlaces(s, i, p);
    case Dispatch(q) => DispatchPlaces(s, q, p);
    case ServerPost => PostPlaces(s, s.server.value, p);
    case Pend(w) => PendPlaces(s, w, p);
    case Get(w) => GetPlaces(s, w, p);
    case Process(w) => ProcessPlaces(s, w, p);
    case Next(w) => NextPlaces(s, w, p);
    case Post(w) => WorkerPostPlaces(s, w, p);
    case Retry(w) => NeverRetrying(s, w);
  }

  lemma StepGiven(s: State, a: Action)
    requires Enabled(s, a)
    ensures Apply(s, a).given == s.given + if a.Dispatch? then {a.packet} else {}
  {
  }

  lemma StepConserves(s: State, a: Action)
    requires WellFormed(s) && Conserved(s) && Enabled(s, a)
    ensures Conserved(Apply(s, a))
  {
    StepGiven(s, a);
    forall p ensures Places(Apply(s, a), p) == if p in Apply(s, a).given then 1 else 0 {
      assert Places(s, p) == if p in s.given then 1 else 0;
      StepPlaces(s, a, p);
    }
  }
}
