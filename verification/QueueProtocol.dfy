/**
  The job queue as a transition system: Enqueue calls, a pool of workers and the clean-up
  goroutine interleave at every lock, channel and publish operation.

  A Publish is two steps: its critical section, which orders the event, and the end of its
  sends, which run after the hub lock is released.
 */
module QueueProtocol {
  import opened ScanEvents
  import opened JobTable
  import opened Sequences

  /** Where a worker stands inside processJob (and inside the scan it calls). */
  datatype Phase =
    | Received               // taken from the channel, not yet marked running
    | Marked
    | Announced
    | Hit                    // the cache answered
    | Missed
    | Fetching
    | NavFailed              // the browser returned an error
    | Parsing
    | Detecting
    | Crawling               // looking at contact pages
    | Scanned(emails: nat)   // the scan returned without error after this many e-mail events
    | FailurePublished
    | SuccessPublished(emails: nat)

  datatype Worker = Idle | Busy(id: Id, phase: Phase, sending: bool)

  /** The queue mutex; an Enqueue call holds it from its insertion to the end of its Publish. */
  datatype Lock = Free | Enqueuing(id: Id, announced: bool)

  /**
    objects are all jobs ever created (a worker keeps its pointer even if the table drops it);
    table, channel and workers are what the program holds; stranded, published, sent and
    received are histories.
   */
  datatype State = State(
    objects: map<Id, JobRecord>,
    table: set<Id>,
    channel: seq<Id>,
    workers: seq<Worker>,
    lock: Lock,
    stranded: set<Id>,
    published: map<Id, seq<Event>>,
    sent: seq<Id>,
    received: seq<Id>)

  // ---------------------------------------------------------------- steps

  /** A worker's move that neither publishes nor takes the lock. */
  predicate Silent(p: Phase, q: Phase) {
    || (p == Announced && (q == Hit || q == Missed))
    || (p == Fetching && q == NavFailed)
    || (p == Detecting && q == Scanned(0))
    || (p == Crawling && q == Scanned(1))
  }

  /** A worker's move that publishes e. */
  predicate Publishes(p: Phase, q: Phase, e: Event) {
    || (p == Marked && q == Announced && e == PICKED_UP)
    || (p == Missed && q == Fetching && e == FETCHING)
    || (p == Fetching && q == Parsing && e == PARSING)
    || (p == Parsing && q == Detecting && e == DETECTING)
    || (p == Detecting && (q == Scanned(1) || q == Crawling) && e == EMAILS)
    || (p == Crawling && q == Scanned(2) && e == CRAWLED_EMAILS)
    || (p.Scanned? && q == SuccessPublished(p.emails) && e == SCAN_COMPLETED)
    || (p == NavFailed && q == FailurePublished && e == SCAN_FAILED)
  }

  predicate CanFinish(p: Phase) {
    p == Hit || p == FailurePublished || p.SuccessPublished?
  }

  /** What the worker's first critical section makes of the job. */
  function RunningRecord(j: JobRecord): JobRecord {
    j.(status := Running)
  }

  /** What its last one does, on each of the three ways out of processJob. */
  function FinalRecord(j: JobRecord, p: Phase): JobRecord
    requires CanFinish(p)
  {
    j.(status := if p == FailurePublished then Failed else Completed, fromCache := j.fromCache || p == Hit)
  }

  function View(s: State): map<Id, JobRecord> {
    map id | id in s.table && id in s.objects :: s.objects[id]
  }

  ghost predicate Init(s: State) {
    && s.objects == map[] && s.table == {} && s.channel == [] && s.lock == Free
    && s.stranded == {} && s.published == map[] && s.sent == [] && s.received == []
    && |s.workers| > 0 && forall w :: 0 <= w < |s.workers| ==> s.workers[w] == Idle
  }

  /** The insertion of a new job and the non-blocking channel send. */
  function Accepted(t: State, id: Id, now: int): State {
    var full := |t.channel| >= CHANNEL_CAPACITY;
    t.(objects := t.objects[id := JobRecord(Pending, now, false)],
       table := t.table + {id},
       channel := if full then t.channel else t.channel + [id],
       sent := if full then t.sent else t.sent + [id],
       stranded := if full then t.stranded + {id} else t.stranded,
       published := t.published[id := []],
       lock := Enqueuing(id, false))
  }

  /** Admission, insertion and send, under the lock. */
  ghost predicate EnqueueBegin(s: State, s': State, id: Id, now: int, kept: set<Id>) {
    && s.lock == Free
    && id !in s.objects
    && AdmissionLeaves(View(s), kept, now)
    && |kept| < MAX_JOBS
    && s' == Accepted(s.(table := kept), id, now)
  }

  ghost predicate EnqueueRejected(s: State, s': State, now: int, kept: set<Id>) {
    && s.lock == Free
    && AdmissionLeaves(View(s), kept, now)
    && |kept| >= MAX_JOBS
    && s' == s.(table := kept)
  }

  ghost predicate EnqueuePublish(s: State, s': State) {
    && s.lock.Enqueuing? && !s.lock.announced && s.lock.id in s.published
    && s' == s.(published := s.published[s.lock.id := s.published[s.lock.id] + [QUEUED]],
                lock := Enqueuing(s.lock.id, true))
  }

  ghost predicate EnqueueEnd(s: State, s': State) {
    s.lock.Enqueuing? && s.lock.announced && s' == s.(lock := Free)
  }

  ghost predicate Receive(s: State, s': State, w: nat) {
    && w < |s.workers| && s.workers[w] == Idle && |s.channel| > 0
    && s' == s.(channel := s.channel[1..],
                received := s.received + [s.channel[0]],
                workers := s.workers[w := Busy(s.channel[0], Received, false)])
  }

  predicate Ready(s: State, w: nat) {
    && w < |s.workers| && s.workers[w].Busy? && !s.workers[w].sending
    && s.workers[w].id in s.objects && s.workers[w].id in s.published
  }

  ghost predicate MarkRunning(s: State, s': State, w: nat) {
    && s.lock == Free && Ready(s, w) && s.workers[w].phase == Received
    && var id := s.workers[w].id;
       s' == s.(objects := s.objects[id := RunningRecord(s.objects[id])],
                workers := s.workers[w := Busy(id, Marked, false)])
  }

  ghost predicate WorkSilently(s: State, s': State, w: nat, q: Phase) {
    && Ready(s, w) && Silent(s.workers[w].phase, q)
    && s' == s.(workers := s.workers[w := Busy(s.workers[w].id, q, false)])
  }

  ghost predicate WorkPublish(s: State, s': State, w: nat, q: Phase, e: Event) {
    && Ready(s, w) && Publishes(s.workers[w].phase, q, e)
    && var id := s.workers[w].id;
       s' == s.(workers := s.workers[w := Busy(id, q, true)],
                published := s.published[id := s.published[id] + [e]])
  }

  ghost predicate WorkSent(s: State, s': State, w: nat) {
    && w < |s.workers| && s.workers[w].Busy? && s.workers[w].sending
    && s' == s.(workers := s.workers[w := s.workers[w].(sending := false)])
  }

  ghost predicate Finish(s: State, s': State, w: nat) {
    && s.lock == Free && Ready(s, w) && CanFinish(s.workers[w].phase)
    && var id := s.workers[w].id;
       s' == s.(objects := s.objects[id := FinalRecord(s.objects[id], s.workers[w].phase)],
                workers := s.workers[w := Idle])
  }

  ghost predicate Cleanup(s: State, s': State, now: int, kept: set<Id>) {
    && s.lock == Free
    && CleanedTo(View(s), kept, now)
    && s' == s.(table := kept)
  }

  ghost predicate Next(s: State, s': State) {
    || (exists id, now, kept :: EnqueueBegin(s, s', id, now, kept))
    || (exists now, kept :: EnqueueRejected(s, s', now, kept))
    || EnqueuePublish(s, s')
    || EnqueueEnd(s, s')
    || (exists w :: Receive(s, s', w))
    || (exists w :: MarkRunning(s, s', w))
    || (exists w, q :: WorkSilently(s, s', w, q))
    || (exists w, q, e :: WorkPublish(s, s', w, q, e))
    || (exists w :: WorkSent(s, s', w))
    || (exists w :: Finish(s, s', w))
    || (exists now, kept :: Cleanup(s, s', now, kept))
  }

  // ------------------------------------------------------------ invariant

  /** The events published once a worker has passed its first publish. */
  function EventsAt(p: Phase): seq<Event> {
    match p
    case Received => [QUEUED]
    case Marked => [QUEUED]
    case Announced => CACHE_HIT_TRACE
    case Hit => CACHE_HIT_TRACE
    case Missed => CACHE_HIT_TRACE
    case Fetching => SCAN_PREFIX[..3]
    case NavFailed => SCAN_PREFIX[..3]
    case Parsing => SCAN_PREFIX[..4]
    case Detecting => SCAN_PREFIX
    case Crawling => SCAN_PREFIX + [EMAILS]
    case Scanned(n) => if n <= 2 then SCAN_PREFIX + EmailEvents(n) else []
    case FailurePublished => FAILED_TRACE
    case SuccessPublished(n) => if n <= 2 then SCAN_PREFIX + EmailEvents(n) + [SCAN_COMPLETED] else []
  }

  predicate PhaseOk(p: Phase) {
    match p
    case Scanned(n) => n <= 2
    case SuccessPublished(n) => n <= 2
    case _ => true
  }

  /** What a job that no worker has marked running has published. */
  function WaitingEvents(s: State, id: Id): seq<Event> {
    if s.lock == Enqueuing(id, false) then [] else [QUEUED]
  }

  ghost predicate Waiting(s: State, id: Id) {
    && id in s.objects && id in s.published && id in s.table
    && s.objects[id].status == Pending && !s.objects[id].fromCache
    && s.published[id] == WaitingEvents(s, id)
  }

  ghost predicate HeldBy(s: State, w: int, id: Id) {
    0 <= w < |s.workers| && s.workers[w].Busy? && s.workers[w].id == id
  }

  ghost predicate Held(s: State, id: Id) {
    exists w :: HeldBy(s, w, id)
  }

  ghost predicate WorkerOk(s: State, w: nat)
    requires w < |s.workers| && s.workers[w].Busy?
  {
    var id, p := s.workers[w].id, s.workers[w].phase;
    && id in s.objects && id in s.published && id in s.table
    && id !in s.channel && id !in s.stranded
    && PhaseOk(p)
    && (p == Received ==> Waiting(s, id) && !s.workers[w].sending)
    && (p != Received ==>
      && s.objects[id].status == Running && !s.objects[id].fromCache
      && s.published[id] == EventsAt(p)
      && !(s.lock.Enqueuing? && s.lock.id == id))
  }

  /** A finished job has published the complete trace its record calls for. */
  ghost predicate TraceMatches(j: JobRecord, t: seq<Event>) {
    && Finished(j)
    && (j.status == Failed ==> !j.fromCache && t == FAILED_TRACE)
    && (j.status == Completed && j.fromCache ==> t == CACHE_HIT_TRACE)
    && (j.status == Completed && !j.fromCache ==> SuccessTrace(t))
  }

  ghost predicate Retired(s: State, id: Id) {
    && id in s.objects && id in s.published
    && TraceMatches(s.objects[id], s.published[id])
  }

  ghost predicate Placed(s: State, id: Id) {
    id in s.channel || id in s.stranded || Held(s, id) || Retired(s, id)
  }

  ghost predicate ChannelInv(s: State) {
    && |s.channel| <= CHANNEL_CAPACITY
    && (forall i, j :: 0 <= i < j < |s.channel| ==> s.channel[i] != s.channel[j])
    && (forall i :: 0 <= i < |s.channel| ==> Waiting(s, s.channel[i]) && s.channel[i] !in s.stranded)
    && s.sent == s.received + s.channel
  }

  ghost predicate WorkersInv(s: State) {
    && (forall w :: 0 <= w < |s.workers| && s.workers[w].Busy? ==> WorkerOk(s, w))
    && (forall v, w :: 0 <= v < w < |s.workers| && s.workers[v].Busy? && s.workers[w].Busy?
          ==> s.workers[v].id != s.workers[w].id)
  }

  ghost predicate TableInv(s: State) {
    && s.objects.Keys == s.published.Keys
    && s.table <= s.objects.Keys
    && |s.table| <= MAX_JOBS
  }

  ghost predicate StrandedInv(s: State) {
    forall id :: id in s.stranded ==> Waiting(s, id)
  }

  ghost predicate AllPlaced(s: State) {
    forall id :: id in s.objects ==> Placed(s, id)
  }

  ghost predicate LockInv(s: State) {
    s.lock.Enqueuing? ==> Waiting(s, s.lock.id)
  }

  ghost predicate Inv(s: State) {
    && TableInv(s) && ChannelInv(s) && StrandedInv(s) && WorkersInv(s) && AllPlaced(s) && LockInv(s)
  }

  // ------------------------------------------------------ the steps keep it

  /** A job keeps its place when channel, stranded set, workers and its own records do. */
  lemma PlaceKept(s: State, s': State, id: Id)
    requires Placed(s, id)
    requires id in s.channel ==> id in s'.channel
    requires id in s.stranded ==> id in s'.stranded
    requires s'.workers == s.workers
    requires Retired(s, id) ==> Retired(s', id)
    ensures Placed(s', id)
  {
    if w :| HeldBy(s, w, id) {
      assert HeldBy(s', w, id);
    }
  }

  /** A change of the table that drops only finished jobs keeps the invariant. */
  lemma TrimKeepsInv(s: State, kept: set<Id>)
    requires Inv(s)
    requires kept <= s.table
    requires forall id :: id in s.table && id !in kept ==> Finished(s.objects[id])
    ensures Inv(s.(table := kept))
  {
    var s' := s.(table := kept);
    SubsetSize(kept, s.table);
    assert forall id :: Waiting(s, id) ==> Waiting(s', id);
    assert WorkersInv(s') by {
      forall w | 0 <= w < |s.workers| && s.workers[w].Busy? ensures WorkerOk(s', w) {
        assert WorkerOk(s, w);
      }
    }
    forall id | id in s.objects ensures Placed(s', id) {
      PlaceKept(s, s', id);
    }
  }

  lemma AdmissionTrims(s: State, kept: set<Id>, now: int)
    requires TableInv(s)
    requires AdmissionLeaves(View(s), kept, now) || CleanedTo(View(s), kept, now)
    ensures kept <= s.table
    ensures forall id :: id in s.table && id !in kept ==> Finished(s.objects[id])
  {
    assert View(s).Keys == s.table;
    if CleanedTo(View(s), kept, now) {
      CleanupDropsOnlyFinished(View(s), kept, now);
    }
  }

  /** The insertion of a new job into a table that has room. */
  ghost predicate Inserted(t: State, s': State, id: Id, now: int) {
    t.lock == Free && id !in t.objects && |t.table| < MAX_JOBS && s' == Accepted(t, id, now)
  }

  lemma InsertionKeepsPlaces(t: State, s': State, id: Id, now: int)
    requires AllPlaced(t) && Inserted(t, s', id, now)
    ensures AllPlaced(s')
  {
    forall x | x in s'.objects ensures Placed(s', x) {
      if x == id {
        assert id in s'.stranded || s'.channel[|s'.channel| - 1] == id;
      } else {
        PlaceKept(t, s', x);
      }
    }
  }

  lemma InsertionKeepsChannel(t: State, s': State, id: Id, now: int)
    requires ChannelInv(t) && StrandedInv(t) && Inserted(t, s', id, now)
    ensures ChannelInv(s') && StrandedInv(s')
  {
    assert forall x :: x in t.objects && Waiting(t, x) ==> Waiting(s', x);
    assert Waiting(s', id);
    assert s'.sent == s'.received + s'.channel;
    assert forall i :: 0 <= i < |t.channel| ==> t.channel[i] in t.objects;
    assert id !in t.channel && id !in t.stranded;
  }

  lemma InsertionKeepsWorkers(t: State, s': State, id: Id, now: int)
    requires WorkersInv(t) && Inserted(t, s', id, now)
    ensures WorkersInv(s')
  {
    forall w | 0 <= w < |s'.workers| && s'.workers[w].Busy? ensures WorkerOk(s', w) {
      assert WorkerOk(t, w);
      assert s'.workers[w].id != id;
    }
  }

  lemma EnqueueBeginKeepsInv(s: State, s': State, id: Id, now: int, kept: set<Id>)
    requires Inv(s) && EnqueueBegin(s, s', id, now, kept)
    ensures Inv(s')
  {
    AdmissionTrims(s, kept, now);
    TrimKeepsInv(s, kept);
    var t := s.(table := kept);
    assert Inserted(t, s', id, now);
    InsertionKeepsPlaces(t, s', id, now);
    InsertionKeepsChannel(t, s', id, now);
    InsertionKeepsWorkers(t, s', id, now);
    assert TableInv(s') && LockInv(s');
  }

  /** The critical section and the end of Enqueue's Publish: only the lock's job sees a change. */
  ghost predicate LockMoves(s: State, s': State) {
    && s.lock.Enqueuing?
    && s' == s.(lock := s'.lock, published := s'.published)
    && s'.published.Keys == s.published.Keys
    && (forall x :: x in s.published && x != s.lock.id ==> s'.published[x] == s.published[x])
    && (s'.lock == Free || s'.lock == Enqueuing(s.lock.id, true))
    && Waiting(s', s.lock.id)
  }

  lemma LockMoveKeepsWaiting(s: State, s': State, id: Id)
    requires LockMoves(s, s') && Waiting(s, id)
    ensures Waiting(s', id)
  {
  }

  lemma LockMoveKeepsWorkers(s: State, s': State)
    requires WorkersInv(s) && LockMoves(s, s')
    ensures WorkersInv(s')
  {
    forall w | 0 <= w < |s'.workers| && s'.workers[w].Busy? ensures WorkerOk(s', w) {
      assert WorkerOk(s, w);
      if s.workers[w].phase == Received {
        LockMoveKeepsWaiting(s, s', s.workers[w].id);
      }
    }
  }

  lemma LockMoveKeepsInv(s: State, s': State)
    requires Inv(s) && LockMoves(s, s')
    ensures Inv(s')
  {
    LockMoveKeepsWorkers(s, s');
    forall id | Waiting(s, id) ensures Waiting(s', id) {
      LockMoveKeepsWaiting(s, s', id);
    }
    forall x | x in s'.objects ensures Placed(s', x) {
      PlaceKept(s, s', x);
    }
  }

  lemma EnqueuePublishKeepsInv(s: State, s': State)
    requires Inv(s) && (EnqueuePublish(s, s') || EnqueueEnd(s, s'))
    ensures Inv(s')
  {
    assert LockMoves(s, s');
    LockMoveKeepsInv(s, s');
  }

  lemma ReceiveKeepsWorkers(s: State, s': State, w: nat)
    requires ChannelInv(s) && WorkersInv(s) && Receive(s, s', w)
    ensures WorkersInv(s')
  {
    var id := s.channel[0];
    assert id !in s'.channel by {
      assert forall i :: 0 <= i < |s'.channel| ==> s'.channel[i] == s.channel[i + 1];
    }
    assert Waiting(s, id);
    forall v | 0 <= v < |s'.workers| && s'.workers[v].Busy? ensures WorkerOk(s', v) {
      if v != w {
        assert WorkerOk(s, v);
        assert s'.workers[v].id != id;
      }
    }
  }

  lemma ReceiveKeepsChannel(s: State, s': State, w: nat)
    requires ChannelInv(s) && Receive(s, s', w)
    ensures ChannelInv(s')
  {
    assert s.channel == [s.channel[0]] + s'.channel;
    assert s'.sent == s'.received + s'.channel;
    forall i | 0 <= i < |s'.channel| ensures Waiting(s', s'.channel[i]) && s'.channel[i] !in s'.stranded {
      assert s'.channel[i] == s.channel[i + 1];
      assert Waiting(s, s.channel[i + 1]);
    }
  }

  lemma ReceiveKeepsPlaces(s: State, s': State, w: nat)
    requires AllPlaced(s) && Receive(s, s', w)
    ensures AllPlaced(s')
  {
    forall x | x in s'.objects ensures Placed(s', x) {
      assert Placed(s, x);
      if x in s.channel {
        assert x in s'.channel || HeldBy(s', w, x);
      } else if v :| HeldBy(s, v, x) {
        assert HeldBy(s', v, x);
      }
    }
  }

  lemma ReceiveKeepsInv(s: State, s': State, w: nat)
    requires Inv(s) && Receive(s, s', w)
    ensures Inv(s')
  {
    ReceiveKeepsChannel(s, s', w);
    ReceiveKeepsWorkers(s, s', w);
    ReceiveKeepsPlaces(s, s', w);
    assert forall id :: Waiting(s, id) ==> Waiting(s', id);
  }

  /** s' differs from s only in worker w and in the job it holds. */
  ghost predicate OnlyWorkerMoves(s: State, s': State, w: nat) {
    && w < |s.workers| == |s'.workers| && s.workers[w].Busy?
    && s' == s.(workers := s'.workers, objects := s'.objects, published := s'.published)
    && s'.objects.Keys == s.objects.Keys && s'.published.Keys == s.published.Keys
    && (forall v :: 0 <= v < |s.workers| && v != w ==> s'.workers[v] == s.workers[v])
    && (forall x :: x in s.objects && x != s.workers[w].id ==> s'.objects[x] == s.objects[x])
    && (forall x :: x in s.published && x != s.workers[w].id ==> s'.published[x] == s.published[x])
  }

  /** The worker's job is in a legal place after its move. */
  ghost predicate MoveOk(s': State, w: nat, id: Id)
    requires w < |s'.workers|
  {
    match s'.workers[w]
    case Idle => Retired(s', id)
    case Busy(x, _, _) => x == id && WorkerOk(s', w)
  }

  lemma WorkerMoveKeepsPlaces(s: State, s': State, w: nat)
    requires AllPlaced(s) && OnlyWorkerMoves(s, s', w) && MoveOk(s', w, s.workers[w].id)
    ensures AllPlaced(s')
  {
    forall x | x in s'.objects ensures Placed(s', x) {
      assert Placed(s, x);
      if x == s.workers[w].id {
        assert Retired(s', x) || HeldBy(s', w, x);
      } else if v :| HeldBy(s, v, x) {
        assert HeldBy(s', v, x);
      }
    }
  }

  lemma WorkerMoveKeepsWorkers(s: State, s': State, w: nat)
    requires WorkersInv(s) && OnlyWorkerMoves(s, s', w) && MoveOk(s', w, s.workers[w].id)
    ensures WorkersInv(s')
  {
    forall v | 0 <= v < |s'.workers| && s'.workers[v].Busy? ensures WorkerOk(s', v) {
      if v != w {
        assert WorkerOk(s, v);
        assert s.workers[v].id != s.workers[w].id;
      }
    }
  }

  lemma WorkerMoveKeepsInv(s: State, s': State, w: nat)
    requires Inv(s) && OnlyWorkerMoves(s, s', w) && MoveOk(s', w, s.workers[w].id)
    requires !(s.lock.Enqueuing? && s.lock.id == s.workers[w].id)
    ensures Inv(s')
  {
    var id := s.workers[w].id;
    assert id !in s.channel && id !in s.stranded by {
      assert WorkerOk(s, w);
    }
    WorkerMoveKeepsPlaces(s, s', w);
    WorkerMoveKeepsWorkers(s, s', w);
    forall x | x != id && Waiting(s, x) ensures Waiting(s', x) {
    }
  }

  lemma MarkRunningKeepsInv(s: State, s': State, w: nat)
    requires Inv(s) && MarkRunning(s, s', w)
    ensures Inv(s')
  {
    assert WorkerOk(s, w);
    assert WorkerOk(s', w);
    WorkerMoveKeepsInv(s, s', w);
  }

  lemma SilentPhase(p: Phase, q: Phase)
    requires PhaseOk(p) && Silent(p, q)
    ensures PhaseOk(q) && p != Received && q != Received && EventsAt(q) == EventsAt(p)
  {
    assert EmailEvents(0) == [] && EmailEvents(1) == [EMAILS];
  }

  /** The phase graph respects the published events. */
  lemma PublishingPhase(p: Phase, q: Phase, e: Event)
    requires PhaseOk(p) && Publishes(p, q, e)
    ensures PhaseOk(q) && p != Received && q != Received && EventsAt(q) == EventsAt(p) + [e]
  {
    match p
    case Detecting => assert EmailEvents(1) == [EMAILS];
    case Crawling => assert EmailEvents(2) == [EMAILS] + [CRAWLED_EMAILS];
    case _ =>
  }

  lemma WorkSilentlyKeepsInv(s: State, s': State, w: nat, q: Phase)
    requires Inv(s) && WorkSilently(s, s', w, q)
    ensures Inv(s')
  {
    assert WorkerOk(s, w);
    SilentPhase(s.workers[w].phase, q);
    assert WorkerOk(s', w);
    WorkerMoveKeepsInv(s, s', w);
  }

  lemma WorkPublishKeepsInv(s: State, s': State, w: nat, q: Phase, e: Event)
    requires Inv(s) && WorkPublish(s, s', w, q, e)
    ensures Inv(s')
  {
    assert WorkerOk(s, w);
    PublishingPhase(s.workers[w].phase, q, e);
    assert WorkerOk(s', w);
    WorkerMoveKeepsInv(s, s', w);
  }

  lemma WorkSentKeepsInv(s: State, s': State, w: nat)
    requires Inv(s) && WorkSent(s, s', w)
    ensures Inv(s')
  {
    assert WorkerOk(s, w);
    assert WorkerOk(s', w);
    WorkerMoveKeepsInv(s, s', w);
  }

  lemma FinishKeepsInv(s: State, s': State, w: nat)
    requires Inv(s) && Finish(s, s', w)
    ensures Inv(s')
  {
    assert WorkerOk(s, w);
    assert Retired(s', s.workers[w].id);
    WorkerMoveKeepsInv(s, s', w);
  }

  lemma CleanupKeepsInv(s: State, s': State, now: int, kept: set<Id>)
    requires Inv(s) && (Cleanup(s, s', now, kept) || EnqueueRejected(s, s', now, kept))
    ensures Inv(s')
  {
    AdmissionTrims(s, kept, now);
    TrimKeepsInv(s, kept);
  }

  lemma NextKeepsInv(s: State, s': State)
    requires Inv(s) && Next(s, s')
    ensures Inv(s')
  {
    if id, now, kept :| EnqueueBegin(s, s', id, now, kept) {
      EnqueueBeginKeepsInv(s, s', id, now, kept);
    } else if now, kept :| EnqueueRejected(s, s', now, kept) {
      CleanupKeepsInv(s, s', now, kept);
    } else if EnqueuePublish(s, s') || EnqueueEnd(s, s') {
      EnqueuePublishKeepsInv(s, s');
    } else if w :| Receive(s, s', w) {
      ReceiveKeepsInv(s, s', w);
    } else if w :| MarkRunning(s, s', w) {
      MarkRunningKeepsInv(s, s', w);
    } else if w, q :| WorkSilently(s, s', w, q) {
      WorkSilentlyKeepsInv(s, s', w, q);
    } else if w, q, e :| WorkPublish(s, s', w, q, e) {
      WorkPublishKeepsInv(s, s', w, q, e);
    } else if w :| WorkSent(s, s', w) {
      WorkSentKeepsInv(s, s', w);
    } else if w :| Finish(s, s', w) {
      FinishKeepsInv(s, s', w);
    } else {
      var now, kept :| Cleanup(s, s', now, kept);
      CleanupKeepsInv(s, s', now, kept);
    }
  }
}
