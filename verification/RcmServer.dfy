/**
  The server object of src/ti/grcm/RcmServer.c: dispatch, the worker thread, and the job list.
  Each method is proved to be the step of the same name in module JobStreams.
 */
module RcmServer {
  import opened Types
  import opened JobStreams

  /** relJobId without interruption: the released queue goes back to the clients in order. */
  function ReleaseAll(s: State, id: nat): State {
    var i := FindJob(s.jobs, id);
    if i == |s.jobs| then s
    else s.(jobs := s.jobs[..i] + s.jobs[i + 1..], returned := s.returned + Replies(s.jobs[i].msgQue, Unprocessed))
  }

  function ReturnsAt(i: nat, n: nat): seq<Action> {
    seq(n, _ => Return(i))
  }

  /** The whole of relJobId is its critical section followed by one return for each packet. */
  lemma ReleaseIsRun(s: State, id: nat)
    requires Live(s.jobs, id)
    ensures Run(ReleaseStep(s, id), ReturnsAt(|s.releasing|, |s.jobs[FindJob(s.jobs, id)].msgQue|), ReleaseAll(s, id))
  {
    var q := s.jobs[FindJob(s.jobs, id)].msgQue;
    ReturnRun(ReleaseStep(s, id), s.releasing, q);
  }

  lemma {:induction false} ReturnRun(s: State, before: seq<Packet>, q: seq<Packet>)
    requires s.releasing == before + q
    ensures Run(s, ReturnsAt(|before|, |q|), s.(releasing := before, returned := s.returned + Replies(q, Unprocessed)))
    decreases |q|
  {
    var acts := ReturnsAt(|before|, |q|);
    var s' := s.(releasing := before, returned := s.returned + Replies(q, Unprocessed));
    if q == [] {
      assert before + q == before && s.returned + Replies(q, Unprocessed) == s.returned;
      assert s == s';
    } else {
      var s1 := ReturnStep(s, |before|);
      assert s1.releasing == before + q[1..];
      ReturnRun(s1, before, q[1..]);
      assert acts[0] == Return(|before|) && acts[1..] == ReturnsAt(|before|, |q| - 1);
      assert s1.returned + Replies(q[1..], Unprocessed) == s.returned + Replies(q, Unprocessed);
    }
  }

  /** `rest` is what is left of the loop's whole result after `refused` have been returned. */
  ghost predicate Remaining(all: JobStreams.Feed, refused: seq<Packet>, rest: JobStreams.Feed) {
    all.rest == rest.rest && all.fed == rest.fed && all.refused == refused + rest.refused
  }

  lemma RefusedOne(all: JobStreams.Feed, refused: seq<Packet>, que: seq<Packet>, count: nat)
    requires que != [] && GetPool(que[0].poolId, count).None? && Remaining(all, refused, TakeNext(que, count))
    ensures Remaining(all, refused + [que[0]], TakeNext(que[1..], count))
    ensures Replies(refused + [que[0]], PoolNotFound) == Replies(refused, PoolNotFound) + [Reply(que[0], PoolNotFound)]
  {
  }

  /** The loop's result when it meets a packet with a valid pool, and when it comes to the end. */
  lemma FedAtLast(all: JobStreams.Feed, refused: seq<Packet>, que: seq<Packet>, count: nat)
    requires Remaining(all, refused, TakeNext(que, count))
    ensures que != [] && GetPool(que[0].poolId, count).Some? ==> all == JobStreams.Feed(que[1..], refused, Some(que[0]))
    ensures que == [] ==> all == JobStreams.Feed([], refused, None)
  {
  }

  class Server {
    var pools: seq<Pool>
    var jobList: seq<Job>
    var jobId: nat
    var workers: seq<Worker>
    var server: Option<nat>
    var releasing: seq<Packet>
    var processed: seq<Packet>
    var returned: seq<Reply>
    ghost var given: set<Packet>
    ghost var history: map<nat, History>

    ghost function View(): State
      reads this
    {
      State(pools, jobList, jobId, workers, server, releasing, processed, returned, given, history)
    }

    constructor (poolCount: nat, threads: seq<nat>)
      requires forall w :: 0 <= w < |threads| ==> threads[w] < poolCount
      ensures Initial(View()) && |pools| == poolCount && |workers| == |threads|
      ensures forall w :: 0 <= w < |threads| ==> workers[w].pool == threads[w]
    {
      pools := seq(poolCount, _ => Pool([], 0));
      workers := seq(|threads|, i requires 0 <= i < |threads| => Worker(threads[i], Waiting));
      jobList, jobId, server := [], MAX_ID, None;
      releasing, processed, returned := [], [], [];
      given, history := {}, map[];
    }

    /** The search of the job list that four operations share. */
    method Locate(id: nat) returns (i: nat)
      ensures i == FindJob(jobList, id)
    {
      i := 0;
      while i < |jobList| && jobList[i].id != id
        invariant i <= |jobList|
        invariant forall k :: 0 <= k < i ==> jobList[k].id != id
      {
        i := i + 1;
      }
    }

    /** RcmServer_acqJobId_P; 0 means that no id is available. */
    method AcqJobId() returns (id: nat)
      modifies this`jobId, this`jobList, this`history
      ensures View() == AcquireStep(old(View())) && id == Search(old(jobList), old(jobId), MAX_ID).0
    {
      ghost var want := Search(jobList, jobId, MAX_ID);
      var count: nat := MAX_ID;
      id := DISCRETE;
      while count > 0
        invariant id == DISCRETE && jobList == old(jobList) && history == old(history)
        invariant Search(jobList, jobId, count) == want
      {
        jobId := if jobId == MAX_ID then 1 else jobId + 1;
        id := jobId;
        var i := Locate(id);
        if i < |jobList| {
          id := DISCRETE;
        }
        if id != DISCRETE {
          break;
        }
        count := count - 1;
      }
      assert want == (id, jobId);
      if id == DISCRETE {
        return;
      }
      jobList := jobList + [Job(id, true, [])];
      history := history[id := History([], [], 0)];
    }

    /** RcmServer_relJobId_P; false is RcmServer_E_JobIdNotFound. */
    method RelJobId(id: nat) returns (found: bool)
      modifies this`jobList, this`returned
      ensures View() == ReleaseAll(old(View()), id) && found == Live(old(jobList), id)
    {
      var i := Locate(id);
      if i == |jobList| {
        return false;
      }
      var msgQue := jobList[i].msgQue;
      ghost var all := msgQue;
      jobList := jobList[..i] + jobList[i + 1..];
      var n := 0;
      while msgQue != []
        invariant n <= |all| && msgQue == all[n..]
        invariant jobList == old(jobList)[..i] + old(jobList)[i + 1..]
        invariant returned == old(returned) + Replies(all[..n], Unprocessed)
        decreases |msgQue|
      {
        assert Replies(all[..n + 1], Unprocessed) == Replies(all[..n], Unprocessed) + [Reply(msgQue[0], Unprocessed)];
        returned := returned + [Reply(msgQue[0], Unprocessed)];
        msgQue := msgQue[1..];
        n := n + 1;
      }
      assert all[..n] == all;
      found := true;
    }

    /** RcmServer_dispatch_P up to its post, and the error path of the server thread. */
    method Dispatch(p: Packet)
      requires Enabled(View(), Action.Dispatch(p))
      modifies this
      ensures View() == DispatchStep(old(View()), p)
    {
      given := given + {p};
      var pool := GetPool(p.poolId, |pools|);
      if pool.None? {
        returned := returned + [Reply(p, PoolNotFound)];
        return;
      }
      var k := pool.value;
      if p.jobId == DISCRETE {
        pools := pools[k := pools[k].(ready := pools[k].ready + [p])];
        server := Some(k);
        return;
      }
      var i := Locate(p.jobId);
      if i == |jobList| {
        returned := returned + [Reply(p, JobNotFound)];
        return;
      }
      if p.jobId in history {
        history := history[p.jobId := history[p.jobId].(accepted := history[p.jobId].accepted + [p])];
      }
      if jobList[i].empty {
        jobList := jobList[i := jobList[i].(empty := false)];
        pools := pools[k := pools[k].(ready := pools[k].ready + [p])];
        server := Some(k);
      } else {
        jobList := jobList[i := jobList[i].(msgQue := jobList[i].msgQue + [p])];
      }
    }

    /** The server thread posts the pool's semaphore. */
    method ServerPost()
      requires Enabled(View(), Action.ServerPost)
      modifies this`pools, this`server
      ensures View() == ServerPostStep(old(View()))
    {
      var k := server.value;
      pools := pools[k := pools[k].(sem := pools[k].sem + 1)];
      server := None;
    }

    /** A worker's Semaphore_pend returns. */
    method Pend(w: nat)
      requires Enabled(View(), Action.Pend(w))
      modifies this`pools, this`workers
      ensures View() == PendStep(old(View()), w)
    {
      var k := workers[w].pool;
      pools := pools[k := pools[k].(sem := pools[k].sem - 1)];
      workers := workers[w := workers[w].(phase := Woken)];
    }

    /** A woken worker takes the next message from its pool's ready queue. */
    method Get(w: nat)
      requires Enabled(View(), Action.Get(w))
      modifies this`pools, this`workers, this`history
      ensures View() == GetStep(old(View()), w)
    {
      var k := workers[w].pool;
      if pools[k].ready == [] {
        workers := workers[w := workers[w].(phase := Waiting)];
      } else {
        var p := pools[k].ready[0];
        pools := pools[k := pools[k].(ready := pools[k].ready[1..])];
        workers := workers[w := workers[w].(phase := Processing(p))];
        if p.jobId in history {
          history := history[p.jobId := history[p.jobId].(begun := history[p.jobId].begun + [p])];
        }
      }
    }

    /** RcmServer_process_P returns to the worker. */
    method Process(w: nat)
      requires Enabled(View(), Action.Process(w))
      modifies this`processed, this`workers, this`history
      ensures View() == ProcessStep(old(View()), w)
    {
      var p := workers[w].phase.packet;
      processed := processed + [p];
      if p.jobId == DISCRETE {
        workers := workers[w := workers[w].(phase := Waiting)];
      } else {
        if p.jobId in history && p in history[p.jobId].begun {
          history := history[p.jobId := history[p.jobId].(ended := history[p.jobId].ended + 1)];
        }
        workers := workers[w := workers[w].(phase := Finishing(p.jobId))];
      }
    }

    /**
      Takes packets from a job's queue until one has a valid pool or the queue is empty; packets
      without a valid pool go back to their clients.  `packet` is the last one taken.
     */
    method Feed(i: nat) returns (fed: bool, packet: Option<Packet>)
      requires i < |jobList|
      modifies this`jobList, this`returned
      ensures var f := TakeNext(old(jobList[i].msgQue), |pools|);
              && jobList == old(jobList)[i := old(jobList[i]).(msgQue := f.rest)]
              && returned == old(returned) + Replies(f.refused, PoolNotFound)
              && fed == f.fed.Some?
              && packet == if fed then f.fed else if f.refused == [] then None else Some(f.refused[|f.refused| - 1])
    {
      ghost var all := TakeNext(jobList[i].msgQue, |pools|);
      ghost var refused: seq<Packet> := [];
      var msgQue := jobList[i].msgQue;
      packet, fed := None, false;
      assert [] + all.refused == all.refused;
      while msgQue != []
        invariant jobList == old(jobList)[i := old(jobList[i]).(msgQue := msgQue)]
        invariant Remaining(all, refused, TakeNext(msgQue, |pools|))
        invariant returned == old(returned) + Replies(refused, PoolNotFound)
        invariant packet == if refused == [] then None else Some(refused[|refused| - 1])
        decreases |msgQue|
      {
        FedAtLast(all, refused, msgQue, |pools|);
        packet := Some(msgQue[0]);
        ghost var was := msgQue;
        msgQue := msgQue[1..];
        SetQueue(i, msgQue);
        if GetPool(packet.value.poolId, |pools|).Some? {
          return true, packet;
        }
        RefusedOne(all, refused, was, |pools|);
        returned := returned + [Reply(packet.value, PoolNotFound)];
        refused := refused + [packet.value];
      }
      FedAtLast(all, refused, msgQue, |pools|);
    }

    method SetQueue(i: nat, msgQue: seq<Packet>)
      requires i < |jobList|
      modifies this`jobList
      ensures jobList == old(jobList)[i := old(jobList[i]).(msgQue := msgQue)]
    {
      jobList := jobList[i := jobList[i].(msgQue := msgQue)];
    }

    /** The worker's critical section after a job message. */
    method Next(w: nat)
      requires Enabled(View(), Action.Next(w))
      modifies this`jobList, this`pools, this`returned, this`workers
      ensures View() == NextStep(old(View()), w)
    {
      var i := Locate(workers[w].phase.jobId);
      if i == |jobList| {
        workers := workers[w := workers[w].(phase := Waiting)];
        return;
      }
      var fed, packet := Feed(i);
      if fed {
        var k := GetPool(packet.value.poolId, |pools|).value;
        pools := pools[k := pools[k].(ready := pools[k].ready + [packet.value])];
        workers := workers[w := workers[w].(phase := Posting(k))];
      } else {
        jobList := jobList[i := jobList[i].(empty := true)];
        workers := workers[w := workers[w].(phase := if packet == None then Waiting else Retrying(packet.value))];
      }
    }

    /** The worker posts the semaphore of the pool it has fed. */
    method Post(w: nat)
      requires Enabled(View(), Action.Post(w))
      modifies this`pools, this`workers
      ensures View() == PostStep(old(View()), w)
    {
      var k := workers[w].phase.pool;
      pools := pools[k := pools[k].(sem := pools[k].sem + 1)];
      workers := workers[w := workers[w].(phase := Waiting)];
    }
  }
}
