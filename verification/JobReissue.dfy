/**
  What happens when acqJobId gives out the id of a released job that still has a message in flight:
  exactly then the new job's messages can be taken out of sequence and run at the same time.
 */
module JobReissue {
  import opened Types
  import opened Sums
  import opened JobStreams
  import opened JobSafety
  import opened JobOrder
  import opened JobLiveness

  // ---------------------------------------------------------------- runs

  /** A run is extended at its front. */
  lemma RunCons(s: State, a: Action, s1: State, acts: seq<Action>, t: State)
    requires Enabled(s, a) && Careful(s, a) && s1 == Apply(s, a) && CarefulRun(s1, acts, t)
    ensures CarefulRun(s, [a] + acts, t)
  {
    assert ([a] + acts)[1..] == acts;
  }

  // ---------------------------------------------------------------- such a state is reached

  const OLD := Packet(0, 0x8000, 1)

  /** One pool with two workers; job 1 is released and the first worker still has its message. */
  predicate Waits(s: State, last: nat) {
    s.jobs == [] && s.jobId == last && s.server == None && s.releasing == [] && s.given == {OLD} &&
    s.pools == [Pool([], 0)] && s.workers == [Worker(0, Processing(OLD)), Worker(0, Waiting)]
  }

  lemma OnlyOld(s: State, last: nat, j: nat)
    requires Waits(s, last)
    ensures InFlight(s, j) == if j == 1 then 1 else 0
  {
    SumOne(s.pools[0], ReadyOfJob(j));
    assert s.workers == [s.workers[0]] + [s.workers[1]];
    SumAppend([s.workers[0]], [s.workers[1]], HeldOfJob(j));
    SumOne(s.workers[0], HeldOfJob(j));
    SumOne(s.workers[1], HeldOfJob(j));
  }

  lemma FirstFree(s: State)
    requires s.jobs == []
    ensures Search(s.jobs, s.jobId, MAX_ID) == (NextId(s.jobId), NextId(s.jobId))
  {
  }

  lemma OnePair(s: State, last: nat)
    requires Waits(s, last) && 1 <= last < MAX_ID
    ensures FoundIdIsFree(s) && Waits(ReleaseStep(AcquireStep(s), last + 1), last + 1)
  {
    FirstFree(s);
    OnlyOld(s, last, last + 1);
  }

  /** A client acquires and releases n jobs. */
  lemma {:induction false} Pairs(s: State, last: nat, n: nat) returns (acts: seq<Action>, t: State)
    requires Waits(s, last) && 1 <= last && last + n <= MAX_ID
    ensures CarefulRun(s, acts, t) && Waits(t, last + n)
    decreases n
  {
    acts, t := [], s;
    if n > 0 {
      OnePair(s, last);
      var s1 := AcquireStep(s);
      var s2 := ReleaseStep(s1, last + 1);
      acts, t := Pairs(s2, last + 1, n - 1);
      RunCons(s1, Release(last + 1), s2, acts, t);
      acts := [Release(last + 1)] + acts;
      RunCons(s, Acquire, s1, acts, t);
      acts := [Acquire] + acts;
    }
  }

  function Fresh(): State {
    State([Pool([], 0)], [], MAX_ID, [Worker(0, Waiting), Worker(0, Waiting)], None, [], [], [], {}, map[])
  }

  /** One job, which is not empty, and one pool and two workers that all stand as given. */
  predicate Busy(s: State, pool: Pool, first: Phase, server: Option<nat>) {
    s.jobs == [Job(1, false, [])] && s.jobId == 1 && s.server == server && s.releasing == [] && s.given == {OLD} &&
    s.pools == [pool] && s.workers == [Worker(0, first), Worker(0, Waiting)]
  }

  lemma FirstAcquired()
    ensures FoundIdIsFree(Fresh())
    ensures AcquireStep(Fresh()) == Fresh().(jobs := [Job(1, true, [])], jobId := 1, history := map[1 := History([], [], 0)])
  {
    FirstFree(Fresh());
    SumOne(Fresh().pools[0], ReadyOfJob(1));
    SumZero(Fresh().workers, HeldOfJob(1));
  }

  lemma FirstDispatched(s: State)
    requires s == Fresh().(jobs := [Job(1, true, [])], jobId := 1, history := map[1 := History([], [], 0)])
    ensures Enabled(s, Dispatch(OLD)) && Busy(DispatchStep(s, OLD), Pool([OLD], 0), Waiting, Some(0))
  {
    assert GetPool(OLD.poolId, 1) == Some(0) && FindJob(s.jobs, 1) == 0;
    assert PutReady(s.pools, 0, OLD) == [Pool([] + [OLD], 0)] && [] + [OLD] == [OLD];
  }

  lemma FirstTaken(s: State)
    requires Busy(s, Pool([OLD], 0), Woken, None)
    ensures Enabled(s, Get(0)) && Busy(GetStep(s, 0), Pool([], 0), Processing(OLD), None)
  {
    assert [OLD][1..] == [];
  }

  lemma FirstReleased(s: State)
    requires Busy(s, Pool([], 0), Processing(OLD), None)
    ensures Waits(ReleaseStep(s, 1), 1)
  {
  }

  /** From a message dispatched for job 1 to the job's release with the message taken up, and on. */
  lemma TakenUp(s: State, n: nat) returns (acts: seq<Action>, t: State)
    requires Busy(s, Pool([OLD], 0), Waiting, Some(0)) && 1 + n <= MAX_ID
    ensures CarefulRun(s, acts, t) && Waits(t, 1 + n)
  {
    var s1 := ServerPostStep(s);
    assert Busy(s1, Pool([OLD], 1), Waiting, None);
    var s2 := PendStep(s1, 0);
    assert Busy(s2, Pool([OLD], 0), Woken, None);
    acts, t := Released(s2, n);
    RunCons(s1, Pend(0), s2, acts, t);
    acts := [Pend(0)] + acts;
    RunCons(s, ServerPost, s1, acts, t);
    acts := [ServerPost] + acts;
  }

  lemma Released(s: State, n: nat) returns (acts: seq<Action>, t: State)
    requires Busy(s, Pool([OLD], 0), Woken, None) && 1 + n <= MAX_ID
    ensures CarefulRun(s, acts, t) && Waits(t, 1 + n)
  {
    FirstTaken(s);
    var s1 := GetStep(s, 0);
    FirstReleased(s1);
    var s2 := ReleaseStep(s1, 1);
    acts, t := Pairs(s2, 1, n);
    RunCons(s1, Release(1), s2, acts, t);
    acts := [Release(1)] + acts;
    RunCons(s, Get(0), s1, acts, t);
    acts := [Get(0)] + acts;
  }

  /** Job 1 gets a message that a worker takes up; it is released, and n more jobs come and go. */
  lemma FirstJob(n: nat) returns (acts: seq<Action>, t: State)
    requires 1 + n <= MAX_ID
    ensures CarefulRun(Fresh(), acts, t) && Waits(t, 1 + n)
  {
    var s := Fresh();
    FirstAcquired();
    var s1 := AcquireStep(s);
    FirstDispatched(s1);
    var s2 := DispatchStep(s1, OLD);
    acts, t := TakenUp(s2, n);
    RunCons(s1, Dispatch(OLD), s2, acts, t);
    acts := [Dispatch(OLD)] + acts;
    RunCons(s, Acquire, s1, acts, t);
    acts := [Acquire] + acts;
  }

  /** Pool k has two workers, and a static pool id. */
  predicate TwoWorkers(s: State, k: nat, a: nat, b: nat) {
    k < |s.pools| && k < 256 && a < |s.workers| && b < |s.workers| && a != b &&
    s.workers[a].pool == k && s.workers[b].pool == k
  }

  /**
    After 65534 further jobs the search finds id 1 again, while a worker still has the message of
    the job that was released.
   */
  lemma OldMessageMeetsNewId() returns (s: State)
    ensures CarefullyReachable(s) && Staffed(s) && TwoWorkers(s, 0, 0, 1)
    ensures Search(s.jobs, s.jobId, MAX_ID).0 == 1 && InFlight(s, 1) == 1 && !FoundIdIsFree(s)
  {
    var acts;
    acts, s := FirstJob(MAX_ID - 1);
    assert Initial(Fresh());
    FirstFree(s);
    OnlyOld(s, MAX_ID, 1);
    assert HasWorker(s, 0);
  }

  // ---------------------------------------------------------------- driving the server

  /**
    The id's job has just been added; one message of an earlier job of the id is in flight, and
    none has been accepted since.
   */
  ghost predicate Haunted(s: State, id: nat) {
    && Sound(s) && Staffed(s) && id != DISCRETE && InFlight(s, id) == 1
    && Live(s.jobs, id) && s.jobs[FindJob(s.jobs, id)] == Job(id, true, [])
    && id in s.history && s.history[id].accepted == [] && (s.history[id].begun == [] ==> s.history[id].ended == 0)
  }

  /** Server thread idle, all workers waiting but w, which is about to look for the id's next message. */
  ghost predicate Still(s: State, id: nat, w: nat) {
    && w < |s.workers| && s.workers[w].phase == Finishing(id) && s.server == None
    && forall v :: 0 <= v < |s.workers| && v != w ==> s.workers[v].phase == Waiting
  }

  /** Steps of the server other than the old message's last one. */
  predicate Harmless(s: State, a: Action, id: nat) {
    Internal(a) && !(a.Next? && a.w < |s.workers| && s.workers[a.w].phase == Finishing(id))
  }

  lemma NextElsewhere(s: State, w: nat, id: nat)
    requires Sound(s) && Enabled(s, Next(w)) && s.workers[w].phase != Finishing(id) && Live(s.jobs, id)
    ensures var s' := NextStep(s, w);
            InFlight(s', id) == InFlight(s, id) && FindJob(s'.jobs, id) == FindJob(s.jobs, id) &&
            |s'.jobs| == |s.jobs| && s'.jobs[FindJob(s.jobs, id)] == s.jobs[FindJob(s.jobs, id)] && s'.history == s.history
  {
    NextFlight(s, w, id);
    var i := FindJob(s.jobs, s.workers[w].phase.jobId);
    if i < |s.jobs| {
      assert JobOk(s.jobs[i], |s.pools|);
      NextIs(s, w, i);
      FindUpdate(s.jobs, i, NextStep(s, w).jobs[i], id);
    }
  }

  lemma HarmlessFlight(s: State, a: Action, id: nat)
    requires Sound(s) && Enabled(s, a) && Harmless(s, a, id) && id != DISCRETE && Live(s.jobs, id)
    ensures InFlight(Apply(s, a), id) == InFlight(s, id)
    ensures FindJob(Apply(s, a).jobs, id) == FindJob(s.jobs, id) && |Apply(s, a).jobs| == |s.jobs|
    ensures Apply(s, a).jobs[FindJob(s.jobs, id)] == s.jobs[FindJob(s.jobs, id)]
  {
    match a
    case Get(w) => GetFlight(s, w, id);
    case Process(w) => ProcessFlight(s, w, id);
    case Next(w) => NextElsewhere(s, w, id);
    case Retry(w) => NeverRetrying(s, w);
    case Return(_) =>
    case _ => QuietFlight(s, a, id);
  }

  /** An id's history changes only by messages that begin or end. */
  lemma HarmlessHistory(s: State, a: Action, id: nat)
    requires Sound(s) && Enabled(s, a) && Harmless(s, a, id) && id in s.history
    ensures var t := Apply(s, a);
            id in t.history && t.history[id].accepted == s.history[id].accepted &&
            (t.history[id].begun == [] ==> s.history[id].begun == [] && t.history[id].ended == s.history[id].ended)
  {
    match a
    case Next(w) =>
    case _ =>
  }

  lemma HarmlessStep(s: State, a: Action, id: nat)
    requires Haunted(s, id) && Enabled(s, a) && Harmless(s, a, id)
    ensures Haunted(Apply(s, a), id)
    ensures Work(Apply(s, a)) < Work(s)
  {
    StepSound(s, a);
    OneStepStaffed(s, a);
    StepFalls(s, a);
    HarmlessFlight(s, a, id);
    HarmlessHistory(s, a, id);
  }

  /** The next step of a worker that neither waits nor looks for the id's next message. */
  function StepOf(s: State, v: nat): Action
    requires v < |s.workers|
  {
    match s.workers[v].phase
    case Waiting => Pend(v)
    case Woken => Get(v)
    case Processing(_) => Process(v)
    case Finishing(_) => Next(v)
    case Posting(_) => Post(v)
    case Retrying(_) => Retry(v)
  }

  lemma BusyWorkerMoves(s: State, v: nat, id: nat)
    requires WellFormed(s) && v < |s.workers| && s.workers[v].phase != Waiting && s.workers[v].phase != Finishing(id)
    ensures Enabled(s, StepOf(s, v)) && Harmless(s, StepOf(s, v), id)
  {
    assert WorkerOk(s.workers[v], |s.pools|);
  }

  /** Everyone waits or looks for the id's next message. */
  predicate Idle(s: State, id: nat) {
    s.server == None && forall v :: 0 <= v < |s.workers| ==> s.workers[v].phase in {Waiting, Finishing(id)}
  }

  lemma IdleSem(s: State, id: nat, k: nat)
    requires Sound(s) && Idle(s, id) && k < |s.pools|
    ensures s.pools[k].sem == |s.pools[k].ready|
  {
    forall v | 0 <= v < |s.workers| ensures WokenIn(k)(s.workers[v]) == 0 && OwesPost(k)(s.workers[v]) == 0 {
      assert s.workers[v].phase in {Waiting, Finishing(id)};
    }
    SumZero(s.workers, WokenIn(k));
    SumZero(s.workers, OwesPost(k));
    assert SemOk(s, k);
  }

  /** Only one worker can hold the old message. */
  lemma OneFinishes(s: State, id: nat, v: nat, w: nat)
    requires InFlight(s, id) == 1 && v < |s.workers| && w < |s.workers| && v != w
    requires s.workers[v].phase == Finishing(id)
    ensures s.workers[w].phase != Finishing(id)
  {
    assert IsHeld(s, v, id);
    OnlyHeld(s, v, id);
    assert s.workers[w].phase == Finishing(id) ==> IsHeld(s, w, id);
  }

  /** If the old message is on a ready queue, that pool's worker waits and can be woken. */
  lemma TokenOnQueue(s: State, id: nat, k: nat) returns (v: nat)
    requires Haunted(s, id) && Idle(s, id) && k < |s.pools| && ReadyOfJob(id)(s.pools[k]) != 0
    ensures v < |s.workers| && Enabled(s, Pend(v))
  {
    assert HasWorker(s, k);
    v :| 0 <= v < |s.workers| && s.workers[v].pool == k;
    IdleSem(s, id, k);
    assert s.workers[v].phase in {Waiting, Finishing(id)};
    SumSplit(s.pools, k, ReadyOfJob(id));
    if s.workers[v].phase == Finishing(id) {
      assert IsHeld(s, v, id);
      HeldCounts(s, v, id);
    }
  }

  lemma TokenSomewhere(s: State, id: nat)
    requires InFlight(s, id) == 1 && Idle(s, id)
    requires forall k :: 0 <= k < |s.pools| ==> ReadyOfJob(id)(s.pools[k]) == 0
    ensures exists w :: 0 <= w < |s.workers| && s.workers[w].phase == Finishing(id)
  {
    SumZero(s.pools, ReadyOfJob(id));
    SumZero(s.workers, HeldOfJob(id));
    var w :| 0 <= w < |s.workers| && HeldOfJob(id)(s.workers[w]) != 0;
    assert s.workers[w].phase in {Waiting, Finishing(id)};
  }

  /** What the next step is, or who holds the old message when there is none but its last. */
  datatype Drive = Step(a: Action) | Arrived(w: nat)

  lemma NextDrive(s: State, id: nat, k: nat, a: nat, b: nat) returns (d: Drive)
    requires Haunted(s, id) && TwoWorkers(s, k, a, b)
    ensures d.Step? ==> Enabled(s, d.a) && Harmless(s, d.a, id)
    ensures d.Arrived? ==> Still(s, id, d.w) && s.pools[k] == Pool([], 0)
  {
    if s.server.Some? {
      return Step(ServerPost);
    }
    if v :| 0 <= v < |s.workers| && s.workers[v].phase !in {Waiting, Finishing(id)} {
      BusyWorkerMoves(s, v, id);
      return Step(StepOf(s, v));
    }
    assert Idle(s, id);
    if l :| 0 <= l < |s.pools| && ReadyOfJob(id)(s.pools[l]) != 0 {
      var v := TokenOnQueue(s, id, l);
      return Step(Pend(v));
    }
    TokenSomewhere(s, id);
    var w :| 0 <= w < |s.workers| && s.workers[w].phase == Finishing(id);
    d := IdleDrive(s, id, k, if a == w then b else a, w);
  }

  lemma IdleDrive(s: State, id: nat, k: nat, u: nat, w: nat) returns (d: Drive)
    requires Haunted(s, id) && Idle(s, id) && w < |s.workers| && s.workers[w].phase == Finishing(id)
    requires u < |s.workers| && u != w && k < |s.pools| && s.workers[u].pool == k
    ensures d.Step? ==> Enabled(s, d.a) && Harmless(s, d.a, id)
    ensures d.Arrived? ==> Still(s, id, d.w) && s.pools[k] == Pool([], 0)
  {
    forall v | 0 <= v < |s.workers| && v != w ensures s.workers[v].phase == Waiting {
      OneFinishes(s, id, w, v);
      assert s.workers[v].phase in {Waiting, Finishing(id)};
    }
    IdleSem(s, id, k);
    d := if s.pools[k].sem > 0 then Step(Pend(u)) else Arrived(w);
  }

  // ---------------------------------------------------------------- two messages of the new job

  /** Job i, pool k, the server thread and the history of the id, all at once. */
  predicate Scene(s: State, i: nat, job: Job, k: nat, pool: Pool, server: Option<nat>, h: History) {
    && i < |s.jobs| && FindJob(s.jobs, job.id) == i && s.jobs[i] == job
    && k < |s.pools| && s.pools[k] == pool && s.server == server
    && job.id in s.history && s.history[job.id] == h
  }

  predicate Stands(s: State, v: nat, k: nat, p: Phase) {
    v < |s.workers| && s.workers[v] == Worker(k, p)
  }

  /** A message for job id that goes to pool k. */
  predicate Addressed(p: Packet, id: nat, k: nat, pools: nat) {
    p.jobId == id && id != DISCRETE && StaticPool(p.poolId) && GetPool(p.poolId, pools) == Some(k)
  }

  lemma FirstGoesOut(s: State, i: nat, id: nat, k: nat, h: History, p: Packet)
    requires Scene(s, i, Job(id, true, []), k, Pool([], 0), None, h) && h.accepted == []
    requires Addressed(p, id, k, |s.pools|) && p !in s.given
    ensures Enabled(s, Dispatch(p))
    ensures var t := DispatchStep(s, p);
            && Scene(t, i, Job(id, false, []), k, Pool([p], 0), Some(k), h.(accepted := [p]))
            && t.workers == s.workers && t.given == s.given + {p} && |t.pools| == |s.pools|
  {
    FindUpdate(s.jobs, i, Job(id, false, []), id);
  }

  lemma FirstTakenUp(s: State, i: nat, job: Job, k: nat, h: History, p: Packet, u: nat)
    requires Scene(s, i, job, k, Pool([p], 0), Some(k), h) && p.jobId == job.id && Stands(s, u, k, Waiting)
    ensures Enabled(s, ServerPost)
    ensures Enabled(ServerPostStep(s), Pend(u))
    ensures Enabled(PendStep(ServerPostStep(s), u), Get(u))
    ensures var t := GetStep(PendStep(ServerPostStep(s), u), u);
            && Scene(t, i, job, k, Pool([], 0), None, h.(begun := h.begun + [p]))
            && t.workers == s.workers[u := Worker(k, Processing(p))] && t.given == s.given && |t.pools| == |s.pools|
  {
    assert [p][1..] == [];
  }

  lemma SecondIsQueued(s: State, i: nat, id: nat, k: nat, h: History, p: Packet, q: Packet)
    requires Scene(s, i, Job(id, false, []), k, Pool([], 0), None, h) && h.accepted == [p]
    requires Addressed(q, id, k, |s.pools|) && q !in s.given
    ensures Enabled(s, Dispatch(q))
    ensures var t := DispatchStep(s, q);
            && Scene(t, i, Job(id, false, [q]), k, Pool([], 0), None, h.(accepted := [p, q]))
            && t.workers == s.workers && |t.pools| == |s.pools|
  {
    assert [] + [q] == [q];
    FindUpdate(s.jobs, i, Job(id, false, [q]), id);
    assert [p] + [q] == [p, q];
  }

  /** The worker that held the old message feeds the new job's second one. */
  lemma SecondIsFed(s: State, i: nat, id: nat, k: nat, h: History, q: Packet, w: nat)
    requires Scene(s, i, Job(id, false, [q]), k, Pool([], 0), None, h) && Addressed(q, id, k, |s.pools|)
    requires w < |s.workers| && s.workers[w].phase == Finishing(id)
    ensures Enabled(s, Next(w)) && Enabled(NextStep(s, w), Post(w))
    ensures var t := PostStep(NextStep(s, w), w);
            && Scene(t, i, Job(id, false, []), k, Pool([q], 1), None, h)
            && t.workers == s.workers[w := s.workers[w].(phase := Waiting)]
  {
    TakeNextSplits([q], |s.pools|);
    assert JobOk(s.jobs[i], |s.pools|);
    NextIs(s, w, i);
    FindUpdate(s.jobs, i, Job(id, false, []), id);
    assert [q][1..] == [];
  }

  /** Two different workers process two different messages that the live job of the id accepted. */
  ghost predicate Overlaps(s: State, id: nat) {
    Live(s.jobs, id) && id in s.history &&
    exists u: nat, v: nat :: u != v && Runs(s, u, id) && Runs(s, v, id) && s.workers[u].phase != s.workers[v].phase
  }

  ghost predicate Runs(s: State, u: nat, id: nat) {
    u < |s.workers| && s.workers[u].phase.Processing? && s.workers[u].phase.packet.jobId == id &&
    id in s.history && s.workers[u].phase.packet in s.history[id].accepted
  }

  /** Worker v is about to take up a message of the id out of sequence, beside one that is running. */
  ghost predicate Breaks(s: State, v: nat, id: nat) {
    Enabled(s, Get(v)) && !TakesNext(s, v) && Overlaps(GetStep(s, v), id)
  }

  lemma SecondOverlaps(s: State, i: nat, id: nat, k: nat, h: History, p: Packet, q: Packet, u: nat, v: nat)
    requires Scene(s, i, Job(id, false, []), k, Pool([q], 1), None, h) && h.accepted == [p, q] && p != q
    requires h.begun != [] && (|h.begun| == 1 ==> h.ended == 0)
    requires id != DISCRETE && p.jobId == q.jobId == id && u != v && Stands(s, u, k, Processing(p)) && Stands(s, v, k, Waiting)
    ensures Enabled(s, Pend(v)) && Breaks(PendStep(s, v), v, id)
  {
    var x := PendStep(s, v);
    var t := GetStep(x, v);
    assert x.pools[k].ready == [q] && [q][1..] == [];
    assert t.history[id].accepted == [p, q];
    assert Runs(t, u, id) && Runs(t, v, id);
  }

  lemma {:induction false} AboveAll(given: set<Packet>) returns (n: nat)
    ensures forall p :: p in given ==> p.serial < n
    decreases |given|
  {
    n := 0;
    if given != {} {
      var p :| p in given;
      var m := AboveAll(given - {p});
      n := if m > p.serial then m else p.serial + 1;
    }
  }

  lemma TheSecond(s: State, i: nat, id: nat, k: nat, h: History, p: Packet, q: Packet, u: nat, v: nat, w: nat)
    returns (acts: seq<Action>, x: State)
    requires Scene(s, i, Job(id, false, []), k, Pool([], 0), None, h) && h.accepted == [p] && q !in s.given && p != q
    requires h.begun != [] && (|h.begun| == 1 ==> h.ended == 0)
    requires Addressed(q, id, k, |s.pools|) && p.jobId == id && Stands(s, u, k, Processing(p)) && u != v && u != w
    requires w < |s.workers| && s.workers[w].phase == Finishing(id)
    requires if v == w then s.workers[w].pool == k else Stands(s, v, k, Waiting)
    ensures CarefulRun(s, acts, x) && Breaks(x, v, id)
  {
    SecondIsQueued(s, i, id, k, h, p, q);
    var s1 := DispatchStep(s, q);
    var h1 := h.(accepted := [p, q]);
    SecondIsFed(s1, i, id, k, h1, q, w);
    var s2 := NextStep(s1, w);
    var s3 := PostStep(s2, w);
    SecondOverlaps(s3, i, id, k, h1, p, q, u, v);
    x := PendStep(s3, v);
    RunCons(s3, Pend(v), x, [], x);
    acts := [Pend(v)] + [];
    RunCons(s2, Post(w), s3, acts, x);
    acts := [Post(w)] + acts;
    RunCons(s1, Next(w), s2, acts, x);
    acts := [Next(w)] + acts;
    RunCons(s, Dispatch(q), s1, acts, x);
    acts := [Dispatch(q)] + acts;
  }

  lemma TheFirst(s: State, i: nat, id: nat, k: nat, h: History, p: Packet, q: Packet, u: nat, v: nat, w: nat)
    returns (acts: seq<Action>, x: State)
    requires Scene(s, i, Job(id, true, []), k, Pool([], 0), None, h) && h.accepted == [] && (h.begun == [] ==> h.ended == 0)
    requires p !in s.given && q !in s.given && p != q
    requires Addressed(p, id, k, |s.pools|) && Addressed(q, id, k, |s.pools|)
    requires Stands(s, u, k, Waiting) && u != v && u != w && w < |s.workers| && s.workers[w].phase == Finishing(id)
    requires if v == w then s.workers[w].pool == k else Stands(s, v, k, Waiting)
    ensures CarefulRun(s, acts, x) && Breaks(x, v, id)
  {
    FirstGoesOut(s, i, id, k, h, p);
    var s1 := DispatchStep(s, p);
    var h1 := h.(accepted := [p]);
    FirstTakenUp(s1, i, Job(id, false, []), k, h1, p, u);
    var s2 := ServerPostStep(s1);
    var s3 := PendStep(s2, u);
    var s4 := GetStep(s3, u);
    acts, x := TheSecond(s4, i, id, k, h1.(begun := h1.begun + [p]), p, q, u, v, w);
    RunCons(s3, Get(u), s4, acts, x);
    acts := [Get(u)] + acts;
    RunCons(s2, Pend(u), s3, acts, x);
    acts := [Pend(u)] + acts;
    RunCons(s1, ServerPost, s2, acts, x);
    acts := [ServerPost] + acts;
    RunCons(s, Dispatch(p), s1, acts, x);
    acts := [Dispatch(p)] + acts;
  }

  /** From a still server: two messages to pool k, whose two workers take them up together. */
  lemma BreakStill(s: State, id: nat, k: nat, a: nat, b: nat, w: nat) returns (acts: seq<Action>, x: State, v: nat)
    requires Haunted(s, id) && Still(s, id, w) && TwoWorkers(s, k, a, b) && s.pools[k] == Pool([], 0)
    ensures CarefulRun(s, acts, x) && Breaks(x, v, id)
  {
    var p, q := TwoMessages(s.given, id, k, |s.pools|);
    var u := if a == w then b else a;
    v := if a == w then a else b;
    assert Stands(s, u, k, Waiting);
    assert v != w ==> Stands(s, v, k, Waiting);
    acts, x := TheFirst(s, FindJob(s.jobs, id), id, k, s.history[id], p, q, u, v, w);
  }

  lemma TwoMessages(given: set<Packet>, id: nat, k: nat, pools: nat) returns (p: Packet, q: Packet)
    requires k < 256 && k < pools && id != DISCRETE
    ensures p !in given && q !in given && p != q && Addressed(p, id, k, pools) && Addressed(q, id, k, pools)
  {
    var n := AboveAll(given);
    p, q := Packet(n, 0x8000 + k, id), Packet(n + 1, 0x8000 + k, id);
    assert (0x8000 + k) % 256 == k;
  }

  /** The server is driven until it is still, and then broken. */
  lemma {:induction false} BreakSoon(s: State, id: nat, k: nat, a: nat, b: nat)
    returns (acts: seq<Action>, x: State, v: nat)
    requires Haunted(s, id) && TwoWorkers(s, k, a, b)
    ensures CarefulRun(s, acts, x) && Breaks(x, v, id)
    decreases Work(s)
  {
    var d := NextDrive(s, id, k, a, b);
    match d
    case Arrived(w) => acts, x, v := BreakStill(s, id, k, a, b, w);
    case Step(step) =>
      HarmlessStep(s, step, id);
      StepStaffed(s, step);
      var s1 := Apply(s, step);
      acts, x, v := BreakSoon(s1, id, k, a, b);
      RunCons(s, step, s1, acts, x);
      acts := [step] + acts;
  }

  // ---------------------------------------------------------------- the exact condition

  lemma AcquireHaunts(s: State)
    requires Inv(s) && Staffed(s) && !FoundIdIsFree(s)
    ensures Haunted(AcquireStep(s), Search(s.jobs, s.jobId, MAX_ID).0)
  {
    var (id, last) := Search(s.jobs, s.jobId, MAX_ID);
    StepSound(s, Acquire);
    OneStepStaffed(s, Acquire);
    FoundFree(s.jobs, s.jobId);
    FindAppend(s.jobs, Job(id, true, []), id);
  }

  /** Every run goes on in sequence: whatever a worker takes up is next, and no two messages overlap. */
  ghost predicate StaysInSequence(s: State) {
    forall acts, t :: CarefulRun(s, acts, t) ==>
      (forall v :: Enabled(t, Get(v)) ==> TakesNext(t, v)) && forall id :: id != DISCRETE ==> !Overlaps(t, id)
  }

  lemma InvNoOverlap(s: State, id: nat)
    requires Inv(s) && id != DISCRETE
    ensures !Overlaps(s, id)
  {
    forall u: nat, v: nat | u != v && Runs(s, u, id) && Runs(s, v, id) ensures false {
      assert IsHeld(s, u, id) && IsHeld(s, v, id);
      OnlyHeld(s, u, id);
    }
  }

  lemma InvStaysInSequence(s: State)
    requires Inv(s)
    ensures StaysInSequence(s)
  {
    forall acts, t | CarefulRun(s, acts, t)
      ensures (forall v :: Enabled(t, Get(v)) ==> TakesNext(t, v)) && forall id :: id != DISCRETE ==> !Overlaps(t, id)
    {
      RunKeepsInv(s, acts, t);
      forall v | Enabled(t, Get(v)) ensures TakesNext(t, v) {
        InvTakesNext(t, v);
      }
      forall id | id != DISCRETE ensures !Overlaps(t, id) {
        InvNoOverlap(t, id);
      }
    }
  }

  /** After a reissue some run takes a message of the new job up out of sequence, beside another one. */
  lemma ReissueBreaks(s: State, k: nat, a: nat, b: nat) returns (acts: seq<Action>, x: State, v: nat)
    requires CarefullyReachable(s) && Staffed(s) && TwoWorkers(s, k, a, b) && !FoundIdIsFree(s)
    ensures CarefulRun(AcquireStep(s), acts, x) && Breaks(x, v, Search(s.jobs, s.jobId, MAX_ID).0)
  {
    ReachableInv(s);
    AcquireHaunts(s);
    StepStaffed(s, Acquire);
    acts, x, v := BreakSoon(AcquireStep(s), Search(s.jobs, s.jobId, MAX_ID).0, k, a, b);
  }

  /**
    The main result.  In any state reached without a reissue, on a server with a worker in every
    pool and two in some pool, what acqJobId does next keeps all further runs in sequence if and
    only if the id it finds has no message of an earlier job in flight.
   */
  lemma SequenceCondition(s: State, k: nat, a: nat, b: nat)
    requires CarefullyReachable(s) && Staffed(s) && TwoWorkers(s, k, a, b)
    ensures StaysInSequence(AcquireStep(s)) <==> FoundIdIsFree(s)
  {
    ReachableInv(s);
    if FoundIdIsFree(s) {
      StepKeeps(s, Acquire);
      InvStaysInSequence(AcquireStep(s));
    } else {
      var acts, x, v := ReissueBreaks(s, k, a, b);
      assert !TakesNext(x, v);
    }
  }

  /** And it happens: a reachable server on which two messages of one live job run together. */
  lemma SequenceIsBroken() returns (s: State, t: State)
    ensures CarefullyReachable(s) && !StaysInSequence(AcquireStep(s))
    ensures Overlaps(t, 1)
    ensures exists acts :: Run(AcquireStep(s), acts, t)
  {
    s := OldMessageMeetsNewId();
    SequenceCondition(s, 0, 0, 1);
    var acts, x, v := ReissueBreaks(s, 0, 0, 1);
    t := GetStep(x, v);
    RunEndsWith(AcquireStep(s), acts, x, Get(v));
  }

  lemma {:induction false} RunEndsWith(s: State, acts: seq<Action>, t: State, a: Action)
    requires CarefulRun(s, acts, t) && Enabled(t, a)
    ensures Run(s, acts + [a], Apply(t, a))
    decreases |acts|
  {
    if acts == [] {
      assert acts + [a] == [a] && [a][1..] == [];
    } else {
      assert (acts + [a])[1..] == acts[1..] + [a];
      RunEndsWith(Apply(s, acts[0]), acts[1..], t, a);
    }
  }
}
