/**
  What can still happen to a job: every accepted job can be brought to its end unless the
  channel was full when it was accepted, and the jobs lost that way never close the queue.
 */
module QueueProgress {
  import opened ScanEvents
  import opened JobTable
  import opened QueueProtocol
  import opened QueueTheorems
  import opened Runs
  import opened Sequences

  lemma LeadsKeeps(s: State, t: State)
    requires Inv(s) && Leads(Next, s, t)
    ensures Inv(t) && Advances(s, t)
  {
    AdvancingStarts(s);
    AdvancingIsKept(s);
    InvariantHoldsAfter(Next, AdvancesFrom(s), s, t);
  }

  // -------------------------------------------------------- one worker's way

  /** Moves left for a worker that takes the shortest way out. */
  function PhaseRank(p: Phase): nat {
    match p
    case Received => 14
    case Marked => 13
    case Announced => 12
    case Missed => 8
    case Fetching => 7
    case Parsing => 6
    case Detecting => 5
    case Crawling => 5
    case NavFailed => 4
    case Scanned(_) => 4
    case FailurePublished => 2
    case SuccessPublished(_) => 2
    case Hit => 1
  }

  function WorkerRank(w: Worker): nat {
    match w
    case Idle => 0
    case Busy(_, p, sending) => 2 * PhaseRank(p) + (if sending then 2 else 1)
  }

  /** Worker w has moved on with its job, or is done with it. */
  ghost predicate MovesOn(s: State, s': State, w: nat) {
    && OnlyWorkerMoves(s, s', w) && s.workers[w].id in s'.objects
    && WorkerRank(s'.workers[w]) < WorkerRank(s.workers[w])
    && match s'.workers[w]
       case Idle => Finished(s'.objects[s.workers[w].id])
       case Busy(id, _, _) => id == s.workers[w].id
  }

  predicate Silently(p: Phase) {
    p == Announced || p == Fetching || p == Detecting || p == Crawling
  }

  function QuietPhase(p: Phase): Phase {
    match p
    case Announced => Hit
    case Fetching => NavFailed
    case Detecting => Scanned(0)
    case _ => Scanned(1)
  }

  function LoudPhase(p: Phase): Phase {
    match p
    case Marked => Announced
    case Missed => Fetching
    case Parsing => Detecting
    case Scanned(n) => SuccessPublished(n)
    case _ => FailurePublished
  }

  function LoudEvent(p: Phase): Event {
    match p
    case Marked => PICKED_UP
    case Missed => FETCHING
    case Parsing => DETECTING
    case Scanned(_) => SCAN_COMPLETED
    case _ => SCAN_FAILED
  }

  lemma SendingWorkerMoves(s: State, w: nat) returns (s': State)
    requires w < |s.workers| && WorkersInv(s) && s.workers[w].Busy? && s.workers[w].sending
    ensures Next(s, s') && MovesOn(s, s', w)
  {
    assert WorkerOk(s, w);
    s' := s.(workers := s.workers[w := s.workers[w].(sending := false)]);
    assert WorkSent(s, s', w);
  }

  lemma LockingWorkerMoves(s: State, w: nat) returns (s': State)
    requires s.lock == Free && Ready(s, w) && (s.workers[w].phase == Received || CanFinish(s.workers[w].phase))
    ensures Next(s, s') && MovesOn(s, s', w)
  {
    var id, p := s.workers[w].id, s.workers[w].phase;
    if p == Received {
      s' := s.(objects := s.objects[id := RunningRecord(s.objects[id])], workers := s.workers[w := Busy(id, Marked, false)]);
      assert MarkRunning(s, s', w);
    } else {
      s' := s.(objects := s.objects[id := FinalRecord(s.objects[id], p)], workers := s.workers[w := Idle]);
      assert Finish(s, s', w);
    }
  }

  lemma QuietWorkerMoves(s: State, w: nat) returns (s': State)
    requires Ready(s, w) && Silently(s.workers[w].phase)
    ensures Next(s, s') && MovesOn(s, s', w)
  {
    var id, p := s.workers[w].id, s.workers[w].phase;
    s' := s.(workers := s.workers[w := Busy(id, QuietPhase(p), false)]);
    assert WorkSilently(s, s', w, QuietPhase(p));
  }

  lemma LoudPhases(p: Phase)
    requires p != Received && !CanFinish(p) && !Silently(p)
    ensures Publishes(p, LoudPhase(p), LoudEvent(p)) && PhaseRank(LoudPhase(p)) < PhaseRank(p)
  {
  }

  lemma LoudWorkerMoves(s: State, w: nat) returns (s': State)
    requires Ready(s, w) && s.workers[w].phase != Received && !CanFinish(s.workers[w].phase)
    requires !Silently(s.workers[w].phase)
    ensures Next(s, s') && MovesOn(s, s', w)
  {
    var id, p := s.workers[w].id, s.workers[w].phase;
    var q, e := LoudPhase(p), LoudEvent(p);
    LoudPhases(p);
    s' := s.(workers := s.workers[w := Busy(id, q, true)], published := s.published[id := s.published[id] + [e]]);
    assert WorkPublish(s, s', w, q, e);
  }

  lemma BusyWorkerMoves(s: State, w: nat) returns (s': State)
    requires WorkersInv(s) && s.lock == Free && w < |s.workers| && s.workers[w].Busy?
    ensures Next(s, s') && MovesOn(s, s', w)
  {
    assert WorkerOk(s, w);
    if s.workers[w].sending {
      s' := SendingWorkerMoves(s, w);
    } else if s.workers[w].phase == Received || CanFinish(s.workers[w].phase) {
      s' := LockingWorkerMoves(s, w);
    } else if Silently(s.workers[w].phase) {
      s' := QuietWorkerMoves(s, w);
    } else {
      s' := LoudWorkerMoves(s, w);
    }
  }

  /** What a continuation keeps in which only worker w moves. */
  ghost predicate SameQueue(s: State, t: State) {
    && t.lock == Free && t.table == s.table && t.stranded == s.stranded && |t.workers| == |s.workers|
  }

  /** A busy worker can be run to the end of its job. */
  lemma {:induction false} RunOut(s: State, w: nat) returns (t: State)
    requires Inv(s) && s.lock == Free && w < |s.workers|
    ensures Leads(Next, s, t) && Inv(t) && SameQueue(s, t) && t.channel == s.channel
    ensures t.workers[w] == Idle
    ensures s.workers[w].Busy? ==> FinishedIn(t, s.workers[w].id)
    decreases WorkerRank(s.workers[w])
  {
    if s.workers[w] == Idle {
      t := s;
      LeadsToItself(Next, s);
    } else {
      var s' := BusyWorkerMoves(s, w);
      NextKeepsInv(s, s');
      LeadsToItself(Next, s);
      LeadsOn(Next, s, s, s');
      t := RunOut(s', w);
      LeadsTransitively(Next, s, s', t);
      LeadsKeeps(s', t);
    }
  }

  // ------------------------------------------------------------ the channel

  /** Receiving takes no lock: an idle worker can always take the head of the channel. */
  lemma IdleWorkerReceives(s: State, w: nat) returns (s': State)
    requires w < |s.workers| && s.workers[w] == Idle && s.channel != []
    ensures Next(s, s') && s'.channel == s.channel[1..] && s'.workers == s.workers[w := Busy(s.channel[0], Received, false)]
  {
    s' := s.(channel := s.channel[1..], received := s.received + [s.channel[0]],
             workers := s.workers[w := Busy(s.channel[0], Received, false)]);
    assert Receive(s, s', w);
  }

  /** Worker w, once idle, takes the job at the head of the channel and finishes it. */
  lemma ServeHead(s: State, w: nat) returns (t: State)
    requires Inv(s) && s.lock == Free && w < |s.workers| && s.channel != []
    ensures Leads(Next, s, t) && Inv(t) && SameQueue(s, t) && t.channel == s.channel[1..]
    ensures FinishedIn(t, s.channel[0])
  {
    var idle := RunOut(s, w);
    var took := idle.(channel := idle.channel[1..], received := idle.received + [idle.channel[0]],
                      workers := idle.workers[w := Busy(idle.channel[0], Received, false)]);
    assert Receive(idle, took, w);
    NextKeepsInv(idle, took);
    LeadsOn(Next, s, idle, took);
    t := RunOut(took, w);
    LeadsTransitively(Next, s, took, t);
  }

  lemma Tail<T>(s: seq<T>, k: nat)
    requires 0 < k <= |s|
    ensures s[1..][k - 1..] == s[k..]
  {
  }

  /** The first k jobs of the channel can be brought to their end. */
  lemma {:induction false} ServeFirst(s: State, w: nat, k: nat) returns (t: State)
    requires Inv(s) && s.lock == Free && w < |s.workers| && k <= |s.channel|
    ensures Leads(Next, s, t) && Inv(t) && SameQueue(s, t) && t.channel == s.channel[k..]
    decreases k
  {
    if k == 0 {
      t := s;
      LeadsToItself(Next, s);
    } else {
      var u := ServeHead(s, w);
      t := ServeFirst(u, w, k - 1);
      Tail(s.channel, k);
      LeadsTransitively(Next, s, u, t);
    }
  }

  /** An Enqueue call under way can return. */
  lemma Release(s: State) returns (t: State)
    requires Inv(s)
    ensures Leads(Next, s, t) && Inv(t) && SameQueue(s, t)
    ensures t.channel == s.channel && t.workers == s.workers && t.objects == s.objects
  {
    var u := s;
    LeadsToItself(Next, s);
    if s.lock.Enqueuing? && !s.lock.announced {
      u := s.(published := s.published[s.lock.id := s.published[s.lock.id] + [QUEUED]], lock := Enqueuing(s.lock.id, true));
      assert EnqueuePublish(s, u);
      LeadsOn(Next, s, s, u);
    }
    t := u;
    if u.lock.Enqueuing? {
      t := u.(lock := Free);
      assert EnqueueEnd(u, t);
      LeadsOn(Next, s, u, t);
    }
    LeadsKeeps(s, t);
  }

  // --------------------------------------------------- which jobs can finish

  /** Some continuation finishes the job. */
  ghost predicate CanStillFinish(s: State, id: Id) {
    exists t :: Leads(Next, s, t) && FinishedIn(t, id)
  }

  lemma Finishing(s: State, id: Id) returns (t: State)
    requires Inv(s) && |s.workers| > 0 && id in s.objects && id !in s.stranded
    ensures Leads(Next, s, t) && Inv(t) && SameQueue(s, t) && FinishedIn(t, id)
  {
    assert Placed(s, id);
    var free := Release(s);
    if id in s.channel {
      var k: nat :| k < |s.channel| && s.channel[k] == id;
      var next := ServeFirst(free, 0, k);
      t := ServeHead(next, 0);
      LeadsTransitively(Next, s, free, next);
      LeadsTransitively(Next, s, next, t);
    } else if w :| HeldBy(s, w, id) {
      t := RunOut(free, w);
      LeadsTransitively(Next, s, free, t);
    } else {
      t := free;
    }
  }

  lemma StrandedNeverFinishes(s: State, t: State, id: Id)
    requires Inv(s) && id in s.stranded && Leads(Next, s, t)
    ensures id in t.stranded && Waiting(t, id)
  {
    LeadsKeeps(s, t);
    assert Waiting(s, id);
  }

  lemma CanStillFinishIff(s: State, id: Id)
    requires Inv(s) && |s.workers| > 0 && id in s.objects
    ensures CanStillFinish(s, id) <==> id !in s.stranded
  {
    if id !in s.stranded {
      var t := Finishing(s, id);
    } else if t :| Leads(Next, s, t) && FinishedIn(t, id) {
      StrandedNeverFinishes(s, t, id);
      assert false;
    }
  }

  lemma WorkersNeverLeave(run: seq<State>, i: nat)
    requires IsRun(run) && i < |run|
    ensures |run[i].workers| > 0
  {
    RunAdvances(run, 0, i);
  }

  lemma EnqueueStrands(s: State, s': State, id: Id, now: int, kept: set<Id>)
    requires ChannelInv(s) && StrandedInv(s) && EnqueueBegin(s, s', id, now, kept)
    ensures id in s'.objects && (id in s'.stranded <==> |s.channel| == CHANNEL_CAPACITY)
  {
  }

  lemma StrandedFromTheStart(run: seq<State>, i: nat, j: nat, id: Id)
    requires IsRun(run) && i <= j < |run| && id in run[i].objects
    ensures id in run[j].objects && (id in run[j].stranded <==> id in run[i].stranded)
  {
    RunAdvances(run, i, j);
  }

  lemma EnqueuedJobIsStrandedIff(run: seq<State>, i: nat, j: nat, id: Id, now: int, kept: set<Id>)
    requires IsRun(run) && i < j < |run| && EnqueueBegin(run[i], run[i + 1], id, now, kept)
    ensures id in run[j].objects && (id in run[j].stranded <==> |run[i].channel| == CHANNEL_CAPACITY)
    ensures |run[i].channel| <= CHANNEL_CAPACITY
  {
    RunKeepsInv(run, i);
    EnqueueStrands(run[i], run[i + 1], id, now, kept);
    StrandedFromTheStart(run, i + 1, j, id);
  }

  /**
    An accepted job can be finished by some continuation, from any later state, exactly when
    the channel had room at its Enqueue. Otherwise it is in the table, pending, with no more
    than its first event, in every later state.
   */
  lemma FinishableIffChannelHadRoom(run: seq<State>, i: nat, j: nat, id: Id, now: int, kept: set<Id>)
    requires IsRun(run) && i < j < |run|
    requires EnqueueBegin(run[i], run[i + 1], id, now, kept)
    ensures CanStillFinish(run[j], id) <==> |run[i].channel| < 100
    ensures |run[i].channel| == 100 ==>
              && id in run[j].table && id in run[j].objects && id in run[j].published
              && run[j].objects[id].status == Pending && run[j].published[id] <= [QUEUED]
  {
    EnqueuedJobIsStrandedIff(run, i, j, id, now, kept);
    RunKeepsInv(run, j);
    WorkersNeverLeave(run, j);
    CanStillFinishIff(run[j], id);
    if id in run[j].stranded {
      assert Waiting(run[j], id);
    }
  }

  // ------------------------------------------------- how many can be stranded

  const MAX_STRANDED: nat := MAX_JOBS - CHANNEL_CAPACITY

  ghost predicate FewStranded(s: State) {
    Inv(s) && |s.stranded| <= MAX_STRANDED
  }

  /** A job is stranded only beside a full channel, in a table that holds both. */
  lemma StrandingIsBounded(s: State, s': State, id: Id, now: int, kept: set<Id>)
    requires Inv(s') && EnqueueBegin(s, s', id, now, kept) && |s.channel| >= CHANNEL_CAPACITY
    ensures |s'.stranded| <= MAX_STRANDED
  {
    PartsAddUp(s');
  }

  /** Only an Enqueue strands a job. */
  lemma OthersStrandNothing(s: State, s': State)
    requires Next(s, s') && s'.stranded != s.stranded
    ensures exists id, now, kept :: EnqueueBegin(s, s', id, now, kept) && |s.channel| >= CHANNEL_CAPACITY
  {
  }

  lemma NextKeepsFewStranded(s: State, s': State)
    requires FewStranded(s) && Next(s, s')
    ensures FewStranded(s')
  {
    NextKeepsInv(s, s');
    if s'.stranded != s.stranded {
      OthersStrandNothing(s, s');
      var id, now, kept :| EnqueueBegin(s, s', id, now, kept) && |s.channel| >= CHANNEL_CAPACITY;
      StrandingIsBounded(s, s', id, now, kept);
    }
  }

  /** In every reachable state at most 900 jobs are stranded. */
  lemma AtMostNineHundredStranded(run: seq<State>, i: nat)
    requires IsRun(run) && i < |run|
    ensures |run[i].stranded| <= 900
  {
    forall s, s' | FewStranded(s) && Next(s, s') ensures FewStranded(s') {
      NextKeepsFewStranded(s, s');
    }
    RunKeepsInv(run, 0);
    InvariantHolds(Next, FewStranded, run, 0, i);
  }

  lemma StrandedCountGrows(run: seq<State>, i: nat, j: nat)
    requires IsRun(run) && i <= j < |run|
    ensures |run[i].stranded| <= |run[j].stranded|
  {
    RunKeepsInv(run, i);
    RunAdvances(run, i, j);
    StrandedStays(run[i], run[j]);
    SubsetSize(run[i].stranded, run[j].stranded);
  }

  lemma StrandedStays(s: State, t: State)
    requires Inv(s) && Advances(s, t)
    ensures s.stranded <= t.stranded
  {
    forall id | id in s.stranded ensures id in t.stranded {
      assert Waiting(s, id);
    }
  }

  lemma LimitLeavesRoom(s: State, s': State, id: Id, now: int, kept: set<Id>)
    requires StrandedInv(s) && Inv(s') && |s.stranded| >= MAX_STRANDED && EnqueueBegin(s, s', id, now, kept)
    ensures |s.channel| < CHANNEL_CAPACITY
  {
    if |s.channel| >= CHANNEL_CAPACITY {
      StrandingIsBounded(s, s', id, now, kept);
    }
  }

  /** Once 900 jobs are stranded no Enqueue strands another: every one admitted is sent. */
  lemma NoneStrandedAtTheLimit(run: seq<State>, i: nat, j: nat, s': State, id: Id, now: int, kept: set<Id>)
    requires IsRun(run) && i <= j < |run| && |run[i].stranded| == 900
    requires EnqueueBegin(run[j], s', id, now, kept)
    ensures s'.channel == run[j].channel + [id] && s'.stranded == run[j].stranded
  {
    StrandedCountGrows(run, i, j);
    RunKeepsInv(run, j);
    EnqueueBeginKeepsInv(run[j], s', id, now, kept);
    LimitLeavesRoom(run[j], s', id, now, kept);
  }

  /** A table of n jobs that no worker has touched. */
  ghost predicate Untouched(t: State, n: nat) {
    && Inv(t) && |t.table| == n
    && |t.channel| == (if n < CHANNEL_CAPACITY then n else CHANNEL_CAPACITY)
    && |t.stranded| == n - |t.channel|
  }

  lemma AcceptUntouched(t: State, n: nat) returns (s': State)
    requires Untouched(t, n) && t.lock == Free && n < MAX_JOBS
    ensures Next(t, s') && Untouched(s', n + 1)
  {
    var id := FreshNat(t.objects.Keys);
    assert View(t).Keys == t.table && id !in t.table && id !in t.stranded;
    s' := Accepted(t, id, 0);
    assert EnqueueBegin(t, s', id, 0, t.table);
    EnqueueBeginKeepsInv(t, s', id, 0, t.table);
  }

  lemma EnqueueUntouched(t: State, n: nat) returns (u: State)
    requires Untouched(t, n) && t.lock == Free && n < MAX_JOBS
    ensures Leads(Next, t, u) && Untouched(u, n + 1) && u.lock == Free
  {
    var s' := AcceptUntouched(t, n);
    LeadsToItself(Next, t);
    LeadsOn(Next, t, t, s');
    u := Release(s');
    LeadsTransitively(Next, t, s', u);
  }

  lemma {:induction false} EnqueueMany(s: State, n: nat) returns (t: State)
    requires Untouched(s, 0) && s.lock == Free && n <= MAX_JOBS
    ensures Leads(Next, s, t) && Untouched(t, n) && t.lock == Free
  {
    if n == 0 {
      t := s;
      LeadsToItself(Next, s);
    } else {
      var u := EnqueueMany(s, n - 1);
      t := EnqueueUntouched(u, n - 1);
      LeadsTransitively(Next, s, u, t);
    }
  }

  /** The bound is reached: a thousand calls before any worker moves strand 900 jobs. */
  lemma NineHundredCanBeStranded(s: State)
    requires Init(s)
    ensures exists t :: Leads(Next, s, t) && |t.stranded| == 900
  {
    var t := EnqueueMany(s, MAX_JOBS);
  }

  // ------------------------------------------------ the queue stays open

  lemma {:induction false} BusyExists(workers: seq<Worker>) returns (w: nat)
    requires BusyCount(workers) > 0
    ensures w < |workers| && workers[w].Busy?
  {
    var n := |workers| - 1;
    if workers[n].Busy? {
      w := n;
    } else {
      w := BusyExists(workers[..n]);
    }
  }

  /** The table is below capacity or holds a finished job. */
  ghost predicate Roomy(s: State) {
    |s.table| < MAX_JOBS || exists id :: id in s.table && FinishedIn(s, id)
  }

  lemma ServedTableIsRoomy(s: State) returns (t: State)
    requires Inv(s) && s.lock == Free && |s.workers| > 0 && s.channel != []
    ensures Leads(Next, s, t) && Inv(t) && t.lock == Free && |t.channel| < CHANNEL_CAPACITY && Roomy(t)
  {
    assert Waiting(s, s.channel[0]);
    t := ServeHead(s, 0);
    assert s.channel[0] in t.table && FinishedIn(t, s.channel[0]);
  }

  lemma EmptiedTableIsRoomy(s: State) returns (t: State)
    requires Inv(s) && s.lock == Free && s.channel == [] && |s.stranded| <= MAX_STRANDED
    ensures Leads(Next, s, t) && Inv(t) && t.lock == Free && t.channel == [] && Roomy(t)
  {
    LeadsToItself(Next, s);
    t := s;
    if !Roomy(s) {
      PartsAddUp(s);
      assert Retained(s) == {};
      var w := BusyExists(s.workers);
      assert WorkerOk(s, w);
      t := RunOut(s, w);
      assert s.workers[w].id in t.table && FinishedIn(t, s.workers[w].id);
    }
  }

  ghost predicate Accepts(t: State, s': State, id: Id) {
    exists now, kept :: EnqueueBegin(t, s', id, now, kept)
  }

  lemma RoomyAccepts(t: State) returns (s': State, id: Id)
    requires Inv(t) && t.lock == Free && |t.channel| < CHANNEL_CAPACITY && Roomy(t)
    ensures Accepts(t, s', id) && id in s'.channel
  {
    id := FreshNat(t.objects.Keys);
    var kept := AdmissionExists(View(t), 0);
    assert View(t).Keys == t.table;
    RejectedIffFullOfLiveJobs(View(t), kept, 0);
    if x :| x in t.table && FinishedIn(t, x) {
      assert x in View(t) && Finished(View(t)[x]);
    }
    s' := Accepted(t.(table := kept), id, 0);
    assert EnqueueBegin(t, s', id, 0, kept);
  }

  /**
    The queue never closes for good: from every reachable state some continuation arrives
    where an Enqueue is admitted and its job enters the channel.
   */
  lemma QueueNeverClosesForGood(run: seq<State>, i: nat)
    requires IsRun(run) && i < |run|
    ensures exists t, s', id :: Leads(Next, run[i], t) && Accepts(t, s', id) && id in s'.channel
  {
    RunKeepsInv(run, i);
    AtMostNineHundredStranded(run, i);
    WorkersNeverLeave(run, i);
    var free := Release(run[i]);
    var t;
    if free.channel == [] {
      t := EmptiedTableIsRoomy(free);
    } else {
      t := ServedTableIsRoomy(free);
    }
    LeadsTransitively(Next, run[i], free, t);
    var s', id := RoomyAccepts(t);
  }
}
