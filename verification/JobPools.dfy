/**
  Where packets go and how they come back: a packet runs in the pool that it is addressed to, in the
  order in which packets were put there, and the status of a returned one says why it came back.
 */
module JobPools {
  import opened Types
  import opened Sums
  import opened JobStreams
  import opened JobSafety
  import opened JobOrder

  /** The pool that a static id names: its low byte. */
  function PoolNumber(p: Packet): nat
    requires StaticPool(p.poolId)
  {
    (p.poolId - 0x8000) % 256
  }

  predicate At(p: Packet, k: nat) {
    StaticPool(p.poolId) && PoolNumber(p) == k
  }

  predicate Valid(p: Packet, count: nat) {
    StaticPool(p.poolId) && PoolNumber(p) < count
  }

  /** Packets are on the ready queue, or with a worker, of the pool they are addressed to. */
  ghost predicate Homed(s: State) {
    && (forall k, i :: 0 <= k < |s.pools| && 0 <= i < |s.pools[k].ready| ==> At(s.pools[k].ready[i], k))
    && (forall w :: 0 <= w < |s.workers| && s.workers[w].phase.Processing? ==> At(s.workers[w].phase.packet, s.workers[w].pool))
    && (forall i, k :: 0 <= i < |s.jobs| && 0 <= k < |s.jobs[i].msgQue| ==> Valid(s.jobs[i].msgQue[k], |s.pools|))
    && (forall i :: 0 <= i < |s.releasing| ==> Valid(s.releasing[i], |s.pools|))
  }

  lemma PoolIs(p: Packet, count: nat)
    requires StaticPool(p.poolId)
    ensures GetPool(p.poolId, count) == if PoolNumber(p) < count then Some(PoolNumber(p)) else None
  {
  }

  // ---------------------------------------------------------------- the right pool

  lemma PutHomed(s: State, k: nat, p: Packet)
    requires Homed(s) && k < |s.pools| && At(p, k)
    ensures Homed(s.(pools := PutReady(s.pools, k, p)))
  {
    forall l, i | 0 <= l < |s.pools| && 0 <= i < |PutReady(s.pools, k, p)[l].ready|
      ensures At(PutReady(s.pools, k, p)[l].ready[i], l)
    {
      PutReadyKeeps(s.pools, k, p, l, i);
    }
  }

  lemma DispatchHomed(s: State, p: Packet)
    requires Homed(s) && Enabled(s, Dispatch(p))
    ensures Homed(DispatchStep(s, p))
  {
    PoolIs(p, |s.pools|);
    if PoolNumber(p) < |s.pools| {
      PutHomed(s, PoolNumber(p), p);
    }
  }

  lemma ReleaseHomed(s: State, id: nat)
    requires Homed(s)
    ensures Homed(ReleaseStep(s, id))
  {
    var s' := ReleaseStep(s, id);
    var i := FindJob(s.jobs, id);
    if i < |s.jobs| {
      forall j, k | 0 <= j < |s'.jobs| && 0 <= k < |s'.jobs[j].msgQue| ensures Valid(s'.jobs[j].msgQue[k], |s.pools|) {
        OthersStay(s.jobs, i, j);
      }
    }
  }

  lemma GetHomed(s: State, w: nat)
    requires Homed(s) && Enabled(s, Get(w))
    ensures Homed(GetStep(s, w))
  {
    var s' := GetStep(s, w);
    forall l, i | 0 <= l < |s'.pools| && 0 <= i < |s'.pools[l].ready| ensures At(s'.pools[l].ready[i], l) {
      GetReady(s, w, l, i);
    }
  }

  lemma NextHomed(s: State, w: nat)
    requires Homed(s) && WellFormed(s) && Enabled(s, Next(w))
    ensures Homed(NextStep(s, w))
  {
    var i := FindJob(s.jobs, s.workers[w].phase.jobId);
    if i < |s.jobs| {
      assert JobOk(s.jobs[i], |s.pools|);
      NextIs(s, w, i);
      if s.jobs[i].msgQue != [] {
        var p := s.jobs[i].msgQue[0];
        assert Valid(p, |s.pools|);
        PoolIs(p, |s.pools|);
        PutHomed(s, PoolNumber(p), p);
      }
    }
  }

  lemma OtherHomed(s: State, a: Action)
    requires Homed(s) && Enabled(s, a)
    requires a.Acquire? || a.Return? || a.ServerPost? || a.Pend? || a.Process? || a.Post?
    ensures Homed(Apply(s, a))
  {
  }

  lemma StepHomed(s: State, a: Action)
    requires Homed(s) && WellFormed(s) && Enabled(s, a)
    ensures Homed(Apply(s, a))
  {
    match a
    case Release(id) => ReleaseHomed(s, id);
    case Dispatch(p) => DispatchHomed(s, p);
    case Get(w) => GetHomed(s, w);
    case Next(w) => NextHomed(s, w);
    case Retry(w) => NeverRetrying(s, w);
    case _ => OtherHomed(s, a);
  }

  lemma {:induction false} RunHomed(s: State, acts: seq<Action>, t: State)
    requires Sound(s) && Homed(s) && Run(s, acts, t)
    ensures Sound(t) && Homed(t)
    decreases |acts|
  {
    if acts != [] {
      StepSound(s, acts[0]);
      StepHomed(s, acts[0]);
      RunHomed(Apply(s, acts[0]), acts[1..], t);
    }
  }

  /**
    In every reachable state the packets on a ready queue, and the one that a worker processes, carry
    in the low byte of their pool id the number of the pool.
   */
  lemma RunsWhereAddressed(s: State)
    requires Reachable(s)
    ensures forall k, i :: 0 <= k < |s.pools| && 0 <= i < |s.pools[k].ready| ==>
              s.pools[k].ready[i].poolId >= 0x8000 && (s.pools[k].ready[i].poolId - 0x8000) % 256 == k
    ensures forall w :: 0 <= w < |s.workers| && s.workers[w].phase.Processing? ==>
              var p := s.workers[w].phase.packet; p.poolId >= 0x8000 && (p.poolId - 0x8000) % 256 == s.workers[w].pool
  {
    var s0, acts :| Initial(s0) && Run(s0, acts, s);
    InitialSound(s0);
    RunHomed(s0, acts, s);
    forall k, i | 0 <= k < |s.pools| && 0 <= i < |s.pools[k].ready|
      ensures s.pools[k].ready[i].poolId >= 0x8000 && (s.pools[k].ready[i].poolId - 0x8000) % 256 == k
    {
      assert At(s.pools[k].ready[i], k);
    }
  }

  // ---------------------------------------------------------------- replies

  predicate HasJob(s: State, id: nat) {
    exists i :: 0 <= i < |s.jobs| && s.jobs[i].id == id
  }

  /** The replies that a step sends, and why. */
  ghost function Answer(s: State, a: Action): seq<Reply>
    requires Enabled(s, a)
  {
    match a
    case Dispatch(p) =>
      if PoolNumber(p) >= |s.pools| then [Reply(p, PoolNotFound)]
      else if p.jobId != 0 && !HasJob(s, p.jobId) then [Reply(p, JobNotFound)]
      else []
    case Return(i) => [Reply(s.releasing[i], Unprocessed)]
    case _ => []
  }

  lemma JobFound(s: State, id: nat)
    ensures HasJob(s, id) <==> FindJob(s.jobs, id) < |s.jobs|
  {
  }

  lemma DispatchAnswers(s: State, p: Packet)
    requires Enabled(s, Dispatch(p))
    ensures DispatchStep(s, p).returned == s.returned + Answer(s, Dispatch(p))
  {
    PoolIs(p, |s.pools|);
    JobFound(s, p.jobId);
  }

  lemma NextAnswers(s: State, w: nat)
    requires WellFormed(s) && Enabled(s, Next(w))
    ensures NextStep(s, w).returned == s.returned
  {
    var i := FindJob(s.jobs, s.workers[w].phase.jobId);
    if i < |s.jobs| {
      assert JobOk(s.jobs[i], |s.pools|);
      NextIs(s, w, i);
    }
  }

  /** Every step sends exactly these replies. */
  lemma StepAnswers(s: State, a: Action)
    requires WellFormed(s) && Enabled(s, a)
    ensures Apply(s, a).returned == s.returned + Answer(s, a)
  {
    match a
    case Dispatch(p) => DispatchAnswers(s, p);
    case Next(w) => NextAnswers(s, w);
    case Retry(w) => NeverRetrying(s, w);
    case _ =>
  }

  /** The state before the n-th step of a run. */
  ghost predicate Before(s: State, acts: seq<Action>, n: nat, x: State) {
    n < |acts| && Run(s, acts[..n], x) && Enabled(x, acts[n])
  }

  lemma BeforeLater(s: State, acts: seq<Action>, n: nat, x: State)
    requires acts != [] && Enabled(s, acts[0]) && Before(Apply(s, acts[0]), acts[1..], n, x)
    ensures Before(s, acts, n + 1, x)
  {
    assert acts[..n + 1][1..] == acts[1..][..n];
  }

  /** A reply was sent by some step. */
  lemma {:induction false} Sent(s: State, acts: seq<Action>, t: State, r: Reply) returns (n: nat, x: State)
    requires Sound(s) && Run(s, acts, t) && r in t.returned && r !in s.returned
    ensures Before(s, acts, n, x) && r in Answer(x, acts[n])
    decreases |acts|
  {
    var s1 := Apply(s, acts[0]);
    StepAnswers(s, acts[0]);
    StepSound(s, acts[0]);
    if r in s1.returned {
      n, x := 0, s;
      assert acts[..0] == [];
    } else {
      n, x := Sent(s1, acts[1..], t, r);
      BeforeLater(s, acts, n, x);
      n := n + 1;
    }
  }

  /** What a release takes from its job. */
  lemma ReleaseTakes(s: State, a: Action, p: Packet)
    requires WellFormed(s) && Enabled(s, a) && p in Apply(s, a).releasing && p !in s.releasing
    ensures a.Release? && p.jobId == a.id && exists i :: 0 <= i < |s.jobs| && s.jobs[i].id == a.id && p in s.jobs[i].msgQue
  {
    match a
    case Release(id) =>
      var i := FindJob(s.jobs, id);
      assert JobOk(s.jobs[i], |s.pools|);
    case Return(i) => assert false;
    case Next(w) => NextReleases(s, w);
    case _ =>
  }

  lemma NextReleases(s: State, w: nat)
    requires Enabled(s, Next(w))
    ensures NextStep(s, w).releasing == s.releasing
  {
  }

  lemma {:induction false} Released(s: State, acts: seq<Action>, t: State, p: Packet) returns (n: nat, x: State)
    requires Sound(s) && Run(s, acts, t) && p in t.releasing && p !in s.releasing
    ensures Before(s, acts, n, x) && Takes(x, acts[n], p)
    decreases |acts|
  {
    var s1 := Apply(s, acts[0]);
    StepSound(s, acts[0]);
    if p in s1.releasing {
      ReleaseTakes(s, acts[0], p);
      n, x := 0, s;
      assert acts[..0] == [];
    } else {
      n, x := Released(s1, acts[1..], t, p);
      BeforeLater(s, acts, n, x);
      n := n + 1;
    }
  }

  /** The action releases the packet's job while the packet is in the job's queue. */
  ghost predicate Takes(s: State, a: Action, p: Packet) {
    a.Release? && p.jobId == a.id && exists i :: 0 <= i < |s.jobs| && s.jobs[i].id == a.id && p in s.jobs[i].msgQue
  }

  /** Dispatch met the packet when the server had no such pool; and when it had one, but no such job. */
  ghost predicate NoPool(s: State, a: Action, p: Packet) {
    a == Dispatch(p) && Enabled(s, a) && PoolNumber(p) >= |s.pools|
  }

  ghost predicate NoJob(s: State, a: Action, p: Packet) {
    a == Dispatch(p) && Enabled(s, a) && PoolNumber(p) < |s.pools| && p.jobId != 0 && !HasJob(s, p.jobId)
  }

  /**
    The status of a returned packet says which step of the run sent it back: a dispatch for a pool
    that is not there, a dispatch for a job that was not live then, or the release of its job.
   */
  lemma StatusTells(s: State, acts: seq<Action>, t: State, r: Reply)
    requires Initial(s) && Run(s, acts, t) && r in t.returned
    ensures r.status == PoolNotFound ==> exists n: nat, x :: Before(s, acts, n, x) && NoPool(x, acts[n], r.packet)
    ensures r.status == JobNotFound ==> exists n: nat, x :: Before(s, acts, n, x) && NoJob(x, acts[n], r.packet)
    ensures r.status == Unprocessed ==> exists n: nat, x :: Before(s, acts, n, x) && Takes(x, acts[n], r.packet)
  {
    InitialSound(s);
    var n, x := Sent(s, acts, t, r);
    if r.status == Unprocessed {
      var m, y := Released(s, acts[..n], x, r.packet);
      assert acts[..n][..m] == acts[..m];
      assert Before(s, acts, m, y);
    }
  }

  lemma RepliesOnce(s: State, p: Packet, i: nat, k: nat)
    requires Conserved(s) && i < k < |s.returned| && s.returned[i].packet == p
    ensures s.returned[k].packet != p
  {
    assert Places(s, p) == if p in s.given then 1 else 0;
    if s.returned[k].packet == p {
      SumTwo(s.returned, i, k, IsReply(p));
    }
  }

  /** And no packet is returned twice, so the status is the only one. */
  lemma StatusIsUnique(s: State, i: nat, k: nat)
    requires Reachable(s) && i < k < |s.returned|
    ensures s.returned[i].packet != s.returned[k].packet
  {
    ReachableSound(s);
    RepliesOnce(s, s.returned[i].packet, i, k);
  }

  // ---------------------------------------------------------------- first in, first out

  /** What a step puts on the ready queue of pool k. */
  ghost function Puts(s: State, a: Action, k: nat): seq<Packet>
    requires Enabled(s, a)
  {
    match a
    case Dispatch(p) =>
      if PoolNumber(p) == k && (p.jobId == 0 || exists i :: 0 <= i < |s.jobs| && s.jobs[i].id == p.jobId && s.jobs[i].empty)
      then [p] else []
    case Next(w) =>
      if j :| 0 <= j < |s.jobs| && s.jobs[j].id == s.workers[w].phase.jobId && s.jobs[j].msgQue != [] && At(s.jobs[j].msgQue[0], k)
      then [s.jobs[j].msgQue[0]] else []
    case _ => []
  }

  /** What a worker of pool k begins in a step. */
  function Begins(s: State, a: Action, k: nat): seq<Packet>
    requires Enabled(s, a)
  {
    match a
    case Get(w) =>
      var worker := Apply(s, a).workers[w];
      if worker.pool == k && worker.phase.Processing? then [worker.phase.packet] else []
    case _ => []
  }

  ghost function AllPut(s: State, acts: seq<Action>, k: nat): seq<Packet>
    decreases |acts|
  {
    if acts == [] || !Enabled(s, acts[0]) then []
    else Puts(s, acts[0], k) + AllPut(Apply(s, acts[0]), acts[1..], k)
  }

  function AllBegun(s: State, acts: seq<Action>, k: nat): seq<Packet>
    decreases |acts|
  {
    if acts == [] || !Enabled(s, acts[0]) then []
    else Begins(s, acts[0], k) + AllBegun(Apply(s, acts[0]), acts[1..], k)
  }

  /** One step takes from the front of a ready queue and puts at its end. */
  ghost predicate Queues(s: State, a: Action, k: nat)
    requires Enabled(s, a) && k < |s.pools|
  {
    |Apply(s, a).pools| == |s.pools| &&
    Begins(s, a, k) + Apply(s, a).pools[k].ready == s.pools[k].ready + Puts(s, a, k)
  }

  lemma DispatchQueues(s: State, p: Packet, k: nat)
    requires DistinctJobs(s) && Enabled(s, Dispatch(p)) && k < |s.pools|
    ensures Queues(s, Dispatch(p), k)
  {
    PoolIs(p, |s.pools|);
    JobFound(s, p.jobId);
  }

  lemma GetQueues(s: State, w: nat, k: nat)
    requires Enabled(s, Get(w)) && k < |s.pools|
    ensures Queues(s, Get(w), k)
  {
  }

  lemma NextQueues(s: State, w: nat, k: nat)
    requires DistinctJobs(s) && WellFormed(s) && Homed(s) && Enabled(s, Next(w)) && k < |s.pools|
    ensures Queues(s, Next(w), k)
  {
    var i := FindJob(s.jobs, s.workers[w].phase.jobId);
    JobFound(s, s.workers[w].phase.jobId);
    if i < |s.jobs| {
      assert JobOk(s.jobs[i], |s.pools|);
      NextIs(s, w, i);
      if s.jobs[i].msgQue != [] {
        assert Valid(s.jobs[i].msgQue[0], |s.pools|);
        PoolIs(s.jobs[i].msgQue[0], |s.pools|);
      }
    }
  }

  lemma StepQueues(s: State, a: Action, k: nat)
    requires DistinctJobs(s) && WellFormed(s) && Homed(s) && Enabled(s, a) && k < |s.pools|
    ensures Queues(s, a, k)
  {
    match a
    case Dispatch(p) => DispatchQueues(s, p, k);
    case Get(w) => GetQueues(s, w, k);
    case Next(w) => NextQueues(s, w, k);
    case _ =>
  }

  lemma {:induction false} RunQueues(s: State, acts: seq<Action>, t: State, k: nat)
    requires Sound(s) && Homed(s) && Run(s, acts, t) && k < |s.pools|
    ensures k < |t.pools|
    ensures AllBegun(s, acts, k) + t.pools[k].ready == s.pools[k].ready + AllPut(s, acts, k)
    decreases |acts|
  {
    if acts != [] {
      var s1 := Apply(s, acts[0]);
      StepSound(s, acts[0]);
      StepHomed(s, acts[0]);
      StepQueues(s, acts[0], k);
      RunQueues(s1, acts[1..], t, k);
      Joined(Begins(s, acts[0], k), AllBegun(s1, acts[1..], k), t.pools[k].ready, s1.pools[k].ready,
        AllPut(s1, acts[1..], k), s.pools[k].ready, Puts(s, acts[0], k));
    }
  }

  lemma Joined<T>(b: seq<T>, c: seq<T>, r: seq<T>, q: seq<T>, d: seq<T>, o: seq<T>, e: seq<T>)
    requires c + r == q + d && b + q == o + e
    ensures (b + c) + r == o + (e + d)
  {
    assert (b + c) + r == b + (c + r);
    assert b + (q + d) == (b + q) + d;
    assert (o + e) + d == o + (e + d);
  }

  /** What the workers of a pool have begun is what was put on its queue first, in that order. */
  lemma FirstInFirstOut(s: State, acts: seq<Action>, t: State, k: nat)
    requires Initial(s) && Run(s, acts, t) && k < |s.pools|
    ensures k < |t.pools| && AllBegun(s, acts, k) + t.pools[k].ready == AllPut(s, acts, k)
  {
    InitialSound(s);
    RunQueues(s, acts, t, k);
    assert s.pools[k].ready == [];
  }

  function Discrete(ps: seq<Packet>): seq<Packet> {
    if ps == [] then [] else (if ps[0].jobId == 0 then [ps[0]] else []) + Discrete(ps[1..])
  }

  lemma {:induction false} DiscreteAppend(a: seq<Packet>, b: seq<Packet>)
    ensures Discrete(a + b) == Discrete(a) + Discrete(b)
  {
    if a == [] {
      assert a + b == b;
    } else {
      var head := if a[0].jobId == 0 then [a[0]] else [];
      assert (a + b)[0] == a[0] && (a + b)[1..] == a[1..] + b;
      DiscreteAppend(a[1..], b);
      assert head + (Discrete(a[1..]) + Discrete(b)) == (head + Discrete(a[1..])) + Discrete(b);
    }
  }

  /** The messages without a job that clients have sent to pool k. */
  function SentTo(acts: seq<Action>, k: nat): seq<Packet> {
    if acts == [] then []
    else
      (if acts[0].Dispatch? && At(acts[0].packet, k) && acts[0].packet.jobId == 0 then [acts[0].packet] else []) +
      SentTo(acts[1..], k)
  }

  lemma PutsDiscrete(s: State, a: Action, k: nat)
    requires DistinctJobs(s) && WellFormed(s) && Enabled(s, a)
    ensures Discrete(Puts(s, a, k)) == if a.Dispatch? && At(a.packet, k) && a.packet.jobId == 0 then [a.packet] else []
  {
    if a.Next? {
      forall j | 0 <= j < |s.jobs| && s.jobs[j].msgQue != [] ensures s.jobs[j].msgQue[0].jobId != 0 {
        assert JobOk(s.jobs[j], |s.pools|);
      }
    }
  }

  lemma {:induction false} AllPutDiscrete(s: State, acts: seq<Action>, t: State, k: nat)
    requires Sound(s) && Run(s, acts, t)
    ensures Discrete(AllPut(s, acts, k)) == SentTo(acts, k)
    decreases |acts|
  {
    if acts != [] {
      var s1 := Apply(s, acts[0]);
      StepSound(s, acts[0]);
      PutsDiscrete(s, acts[0], k);
      AllPutDiscrete(s1, acts[1..], t, k);
      DiscreteAppend(Puts(s, acts[0], k), AllPut(s1, acts[1..], k));
    }
  }

  /** Messages without a job begin, in each pool, in the order in which clients sent them. */
  lemma DiscreteInOrder(s: State, acts: seq<Action>, t: State, k: nat)
    requires Initial(s) && Run(s, acts, t) && k < |s.pools|
    ensures k < |t.pools| && Discrete(AllBegun(s, acts, k)) + Discrete(t.pools[k].ready) == SentTo(acts, k)
  {
    InitialSound(s);
    FirstInFirstOut(s, acts, t, k);
    DiscreteAppend(AllBegun(s, acts, k), t.pools[k].ready);
    AllPutDiscrete(s, acts, t, k);
  }
}
