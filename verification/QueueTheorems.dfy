/** What every run of the job queue guarantees, for all interleavings. */
module QueueTheorems {
  import opened ScanEvents
  import opened JobTable
  import opened QueueProtocol
  import opened Runs
  import opened Sequences

  ghost predicate IsRun(run: seq<State>) {
    IsPath(Next, run) && Init(run[0])
  }

  lemma InvIsKept()
    ensures Preserves(Next, Inv)
  {
    forall s, s' | Inv(s) && Next(s, s') ensures Inv(s') {
      NextKeepsInv(s, s');
    }
  }

  lemma RunKeepsInv(run: seq<State>, i: nat)
    requires IsRun(run) && i < |run|
    ensures Inv(run[i])
  {
    InvIsKept();
    InvariantHolds(Next, Inv, run, 0, i);
  }

  // ------------------------------------------------------- published events

  lemma PhaseTracePrefix(p: Phase)
    requires PhaseOk(p)
    ensures TracePrefix(EventsAt(p))
  {
    var n: nat := match p case Scanned(k) => k case SuccessPublished(k) => k case Crawling => 1 case _ => 0;
    var full := SCAN_PREFIX + EmailEvents(n) + [SCAN_COMPLETED];
    assert CompleteTrace(full) && CompleteTrace(FAILED_TRACE) by {
      assert SuccessTrace(full);
    }
    if p != FailurePublished {
      assert p == Crawling ==> EventsAt(p) == SCAN_PREFIX + EmailEvents(n);
      assert EventsAt(p) <= full;
    }
  }

  lemma PublishedIsTracePrefix(s: State, id: Id)
    requires Inv(s) && id in s.published
    ensures TracePrefix(s.published[id])
  {
    assert Placed(s, id);
    if Retired(s, id) {
      assert CompleteTrace(s.published[id]);
    } else {
      assert [] <= EventsAt(Received);
      PhaseTracePrefix(Received);
      if Held(s, id) {
        var w :| HeldBy(s, w, id);
        assert WorkerOk(s, w);
        PhaseTracePrefix(s.workers[w].phase);
      }
    }
  }

  /**
    In every reachable state, whatever the interleaving, the events published for a job are a
    prefix of a complete trace: "pending" comes first, progress rises strictly, and the
    terminal event is unique and last.
   */
  lemma EventsFollowTheProtocol(run: seq<State>, i: nat, id: Id)
    requires IsRun(run) && i < |run| && id in run[i].published
    ensures TracePrefix(run[i].published[id])
    ensures WellOrdered(run[i].published[id])
  {
    RunKeepsInv(run, i);
    PublishedIsTracePrefix(run[i], id);
    PrefixIsWellOrdered(run[i].published[id]);
  }

  ghost predicate FinishedIn(t: State, id: Id) {
    id in t.objects && Finished(t.objects[id])
  }

  lemma FinishedIsRetired(s: State, id: Id)
    requires AllPlaced(s) && ChannelInv(s) && StrandedInv(s) && WorkersInv(s)
    requires id in s.objects && Finished(s.objects[id])
    ensures Retired(s, id)
  {
    assert Placed(s, id);
  }

  /**
    A job whose status is terminal has already published its matching terminal event, unless
    the cache answered it: then no terminal event exists.
   */
  lemma TerminalStatusFollowsTerminalEvent(run: seq<State>, i: nat, id: Id)
    requires IsRun(run) && i < |run| && id in run[i].objects && Finished(run[i].objects[id])
    ensures id in run[i].published
    ensures
      var j, t := run[i].objects[id], run[i].published[id];
      if j.fromCache then j.status == Completed && forall e :: e in t ==> !Terminal(e)
      else |t| > 0 && t[|t| - 1] == if j.status == Failed then SCAN_FAILED else SCAN_COMPLETED
  {
    RunKeepsInv(run, i);
    FinishedIsRetired(run[i], id);
  }

  // ------------------------------------------------------- job conservation

  /** The jobs of the first n workers. */
  ghost function HeldIds(workers: seq<Worker>): set<Id> {
    if workers == [] then {}
    else
      var last := workers[|workers| - 1];
      HeldIds(workers[..|workers| - 1]) + (if last.Busy? then {last.id} else {})
  }

  ghost function BusyCount(workers: seq<Worker>): nat {
    if workers == [] then 0
    else BusyCount(workers[..|workers| - 1]) + (if workers[|workers| - 1].Busy? then 1 else 0)
  }

  ghost predicate BusyWith(workers: seq<Worker>, w: int, id: Id) {
    0 <= w < |workers| && workers[w].Busy? && workers[w].id == id
  }

  lemma {:induction false} HeldIdsAre(workers: seq<Worker>, id: Id)
    ensures id in HeldIds(workers) <==> exists w :: BusyWith(workers, w, id)
  {
    if workers != [] {
      var n := |workers| - 1;
      var init := workers[..n];
      HeldIdsAre(init, id);
      if w :| BusyWith(workers, w, id) {
        assert w < n ==> BusyWith(init, w, id);
      }
      if w :| BusyWith(init, w, id) {
        assert BusyWith(workers, w, id);
      }
      assert workers[n].Busy? && workers[n].id == id ==> BusyWith(workers, n, id);
    }
  }

  lemma {:induction false} HeldIdsCount(workers: seq<Worker>)
    requires forall v, w :: 0 <= v < w < |workers| && workers[v].Busy? && workers[w].Busy?
               ==> workers[v].id != workers[w].id
    ensures |HeldIds(workers)| == BusyCount(workers)
  {
    if workers != [] {
      var n := |workers| - 1;
      var init := workers[..n];
      HeldIdsCount(init);
      if workers[n].Busy? {
        HeldIdsAre(init, workers[n].id);
        assert forall w :: !BusyWith(init, w, workers[n].id);
        assert workers[n].id !in HeldIds(init);
      }
    }
  }

  ghost function SetOf(ids: seq<Id>): set<Id> {
    set id | id in ids
  }

  ghost function Retained(s: State): set<Id> {
    set id | id in s.table && id in s.objects && Finished(s.objects[id])
  }

  lemma HeldIdsAreHeld(s: State, id: Id)
    ensures id in HeldIds(s.workers) <==> Held(s, id)
  {
    HeldIdsAre(s.workers, id);
    assert forall w :: BusyWith(s.workers, w, id) <==> HeldBy(s, w, id);
  }

  lemma TableJobIsSomewhere(s: State, id: Id)
    requires TableInv(s) && AllPlaced(s) && id in s.table
    ensures id in s.channel || id in HeldIds(s.workers) || id in s.stranded || id in Retained(s)
  {
    HeldIdsAreHeld(s, id);
    assert Placed(s, id);
  }

  lemma HeldJobIsInTable(s: State, id: Id)
    requires WorkersInv(s) && id in HeldIds(s.workers)
    ensures id in s.table
  {
    HeldIdsAreHeld(s, id);
    var w :| HeldBy(s, w, id);
    assert WorkerOk(s, w);
  }

  lemma PartsCoverTable(s: State)
    requires Inv(s)
    ensures s.table == SetOf(s.channel) + HeldIds(s.workers) + s.stranded + Retained(s)
  {
    forall id | id in s.table
      ensures id in s.channel || id in HeldIds(s.workers) || id in s.stranded || id in Retained(s)
    {
      TableJobIsSomewhere(s, id);
    }
    forall id | id in HeldIds(s.workers) ensures id in s.table {
      HeldJobIsInTable(s, id);
    }
  }

  lemma PartsAreDisjoint(s: State)
    requires Inv(s)
    ensures SetOf(s.channel) !! HeldIds(s.workers) !! s.stranded !! Retained(s)
  {
    forall id | id in HeldIds(s.workers)
      ensures id !in s.channel && id !in s.stranded && id !in Retained(s)
    {
      HeldIdsAreHeld(s, id);
      var w :| HeldBy(s, w, id);
      assert WorkerOk(s, w);
    }
    assert SetOf(s.channel) !! s.stranded;
  }

  lemma PartsAddUp(s: State)
    requires Inv(s)
    ensures |s.table| == |s.channel| + BusyCount(s.workers) + |s.stranded| + |Retained(s)|
  {
    HeldIdsCount(s.workers);
    DistinctSize(s.channel);
    PartsCoverTable(s);
    PartsAreDisjoint(s);
  }

  /**
    Job conservation: the table splits disjointly into the jobs queued in the channel (each
    once), the jobs held by exactly one worker each, the stranded jobs and the retained
    finished jobs; so the four counts add up to the size of the table.
   */
  lemma JobConservation(run: seq<State>, i: nat)
    requires IsRun(run) && i < |run|
    ensures
      var s := run[i];
      && s.table == SetOf(s.channel) + HeldIds(s.workers) + s.stranded + Retained(s)
      && SetOf(s.channel) !! HeldIds(s.workers) !! s.stranded !! Retained(s)
      && |s.table| == |s.channel| + BusyCount(s.workers) + |s.stranded| + |Retained(s)|
      && |s.table| <= 1000 && |s.channel| <= 100
  {
    RunKeepsInv(run, i);
    PartsCoverTable(run[i]);
    PartsAreDisjoint(run[i]);
    PartsAddUp(run[i]);
  }

  /** Some worker holds the job, and has or has not marked it running yet. */
  ghost predicate HeldAt(s: State, id: Id, marked: bool) {
    exists w :: HeldBy(s, w, id) && (s.workers[w].phase != Received <==> marked)
  }

  /**
    A pending job is queued, stranded or just received by a worker, a running one is held by a
    worker that has marked it, and a finished one is in none of these places.
   */
  lemma StatusFollowsThePlace(run: seq<State>, i: nat, id: Id)
    requires IsRun(run) && i < |run| && id in run[i].table
    ensures id in run[i].objects
    ensures
      var s := run[i];
      match s.objects[id].status
      case Pending => id in s.channel || id in s.stranded || HeldAt(s, id, false)
      case Running => HeldAt(s, id, true)
      case _ => id !in s.channel && id !in s.stranded && !Held(s, id)
  {
    RunKeepsInv(run, i);
    PlaceOfStatus(run[i], id);
  }

  lemma PlaceOfStatus(s: State, id: Id)
    requires ChannelInv(s) && StrandedInv(s) && WorkersInv(s) && AllPlaced(s) && id in s.objects
    ensures
      match s.objects[id].status
      case Pending => id in s.channel || id in s.stranded || HeldAt(s, id, false)
      case Running => HeldAt(s, id, true)
      case _ => id !in s.channel && id !in s.stranded && !Held(s, id)
  {
    assert Placed(s, id);
    if w :| HeldBy(s, w, id) {
      assert WorkerOk(s, w);
    }
  }

  // ------------------------------------------------------- what only grows

  /** The two-state guarantee: nothing is undone. */
  ghost predicate Advances(s: State, s': State) {
    && s.objects.Keys <= s'.objects.Keys && s.objects.Keys == s.published.Keys
    && s'.objects.Keys == s'.published.Keys && |s'.workers| == |s.workers|
    && (forall id :: id in s.objects ==> StatusMoves(s.objects[id].status, s'.objects[id].status))
    && (forall id :: id in s.objects && Finished(s.objects[id]) ==> s'.objects[id] == s.objects[id])
    && (forall id :: id in s.objects ==> s.published[id] <= s'.published[id])
    && (forall id :: id in s.objects ==> (id in s.stranded <==> id in s'.stranded))
    && s.received <= s'.received
    && s.sent <= s'.sent
  }

  lemma EnqueueAdvances(s: State, s': State, id: Id, now: int, kept: set<Id>)
    requires TableInv(s) && EnqueueBegin(s, s', id, now, kept)
    ensures Advances(s, s')
  {
  }

  lemma RecordAdvances(s: State, s': State, w: nat)
    requires TableInv(s) && WorkersInv(s) && (MarkRunning(s, s', w) || Finish(s, s', w))
    ensures Advances(s, s')
  {
    assert WorkerOk(s, w);
  }

  /** A step that leaves the job records alone and at most appends to one job's events. */
  lemma PublishAdvances(s: State, s': State)
    requires TableInv(s)
    requires s'.objects == s.objects && |s'.workers| == |s.workers| && s'.stranded == s.stranded && s.sent == s'.sent && s.received <= s'.received
    requires s'.published.Keys == s.published.Keys
    requires forall id :: id in s.published ==> s.published[id] <= s'.published[id]
    ensures Advances(s, s')
  {
  }

  lemma OtherStepsAdvance(s: State, s': State)
    requires TableInv(s) && Next(s, s')
    requires !exists id, now, kept :: EnqueueBegin(s, s', id, now, kept)
    requires !exists w :: MarkRunning(s, s', w) || Finish(s, s', w)
    ensures Advances(s, s')
  {
    PublishAdvances(s, s');
  }

  lemma NextAdvances(s: State, s': State)
    requires Inv(s) && Next(s, s')
    ensures Advances(s, s')
  {
    if id, now, kept :| EnqueueBegin(s, s', id, now, kept) {
      EnqueueAdvances(s, s', id, now, kept);
    } else if w :| MarkRunning(s, s', w) || Finish(s, s', w) {
      RecordAdvances(s, s', w);
    } else {
      OtherStepsAdvance(s, s');
    }
  }

  /** One step never takes a job from pending straight to a terminal status. */
  lemma FinishingWasRunning(run: seq<State>, i: nat, id: Id)
    requires IsRun(run) && i < |run| - 1 && id in run[i].objects
    ensures id in run[i + 1].objects
    ensures Finished(run[i + 1].objects[id]) && !Finished(run[i].objects[id]) ==> run[i].objects[id].status == Running
  {
    RunKeepsInv(run, i);
    StepOf(Next, run, i);
    OnlyFinishFinishes(run[i], run[i + 1], id);
  }

  lemma OnlyFinishFinishes(s: State, s': State, id: Id)
    requires WorkersInv(s) && Next(s, s') && id in s.objects
    ensures id in s'.objects
    ensures Finished(s'.objects[id]) && !Finished(s.objects[id]) ==> s.objects[id].status == Running
  {
    if w :| Finish(s, s', w) {
      assert WorkerOk(s, w);
    }
  }

  lemma AdvancesTransitively(a: State, b: State, c: State)
    requires Advances(a, b) && Advances(b, c)
    ensures Advances(a, c)
  {
    forall id | id in a.objects ensures StatusMoves(a.objects[id].status, c.objects[id].status) {
      assert StatusMoves(b.objects[id].status, c.objects[id].status);
    }
    forall id | id in a.objects ensures a.published[id] <= c.published[id] {
      assert a.published[id] <= b.published[id] <= c.published[id];
    }
  }

  /** A good state that continues the given one. */
  ghost function AdvancesFrom(start: State): State -> bool {
    (s: State) => Inv(s) && Advances(start, s)
  }

  lemma AdvancingIsKept(start: State)
    ensures Preserves(Next, AdvancesFrom(start))
  {
    forall s, s' | AdvancesFrom(start)(s) && Next(s, s') ensures AdvancesFrom(start)(s') {
      NextKeepsInv(s, s');
      NextAdvances(s, s');
      AdvancesTransitively(start, s, s');
    }
  }

  lemma AdvancingStarts(start: State)
    requires Inv(start)
    ensures AdvancesFrom(start)(start)
  {
  }

  /** Along any run statuses move forward, events and histories grow, and nothing is undone. */
  lemma RunAdvances(run: seq<State>, i: nat, j: nat)
    requires IsRun(run) && i <= j < |run|
    ensures Advances(run[i], run[j])
  {
    RunKeepsInv(run, i);
    AdvancingStarts(run[i]);
    AdvancingIsKept(run[i]);
    InvariantHolds(Next, AdvancesFrom(run[i]), run, i, j);
  }

  /** A job's status only moves from pending through running to its end, where it stays. */
  lemma StatusOnlyMovesForward(run: seq<State>, i: nat, j: nat, id: Id)
    requires IsRun(run) && i <= j < |run| && id in run[i].objects
    ensures id in run[j].objects
    ensures run[j].objects[id].status == Pending ==> run[i].objects[id].status == Pending
    ensures run[j].objects[id].status == Running ==>
              run[i].objects[id].status == Pending || run[i].objects[id].status == Running
    ensures run[i].objects[id].status == Completed || run[i].objects[id].status == Failed ==>
              run[j].objects[id] == run[i].objects[id]
  {
    RunAdvances(run, i, j);
  }

  lemma SentSplits(run: seq<State>, i: nat)
    requires IsRun(run) && i < |run|
    ensures run[i].sent == run[i].received + run[i].channel
  {
    RunKeepsInv(run, i);
  }

  /** Jobs leave the channel in the order in which they entered it. */
  lemma DequeueIsFifo(run: seq<State>, i: nat, j: nat)
    requires IsRun(run) && i <= j < |run|
    ensures run[i].sent == run[i].received + run[i].channel
    ensures run[i].received <= run[j].received <= run[j].sent
    ensures forall k :: 0 <= k < |run[i].channel| && |run[i].received| + k < |run[j].received|
              ==> run[j].received[|run[i].received| + k] == run[i].channel[k]
  {
    SentSplits(run, i);
    SentSplits(run, j);
    RunAdvances(run, i, j);
    forall k | 0 <= k < |run[i].channel| && |run[i].received| + k < |run[j].received|
      ensures run[j].received[|run[i].received| + k] == run[i].channel[k]
    {
      var n := |run[i].received| + k;
      assert run[i].sent[n] == run[i].channel[k];
      assert run[j].sent[n] == run[i].sent[n];
      assert run[j].sent[n] == run[j].received[n];
    }
  }

  // ------------------------------------------------- publishers of one job

  /** Some Publish for id is between its critical section and the end of its sends. */
  ghost predicate Sending(s: State, id: Id) {
    || s.lock == Enqueuing(id, true)
    || exists w :: HeldBy(s, w, id) && s.workers[w].sending
  }

  ghost function Log(s: State, id: Id): seq<Event> {
    if id in s.published then s.published[id] else []
  }

  ghost predicate PublishStarts(s: State, s': State, id: Id, e: Event) {
    Log(s', id) == Log(s, id) + [e] && !Sending(s, id) && Sending(s', id)
  }

  ghost predicate NoPublishStarts(s: State, s': State, id: Id) {
    Log(s', id) == Log(s, id) && (Sending(s', id) ==> Sending(s, id))
  }

  /** A finished job has no Publish under way. */
  lemma FinishedSendsNothing(s: State, id: Id)
    requires Inv(s) && id in s.objects && Finished(s.objects[id])
    ensures !Sending(s, id)
  {
    if w :| HeldBy(s, w, id) {
      assert WorkerOk(s, w);
    }
  }

  lemma WorkPublishIsSerial(s: State, s': State, id: Id, w: nat, q: Phase, e: Event)
    requires WorkersInv(s) && WorkPublish(s, s', w, q, e)
    ensures PublishStarts(s, s', id, e) || NoPublishStarts(s, s', id)
  {
    assert WorkerOk(s, w);
    if s.workers[w].id == id {
      assert HeldBy(s', w, id) && s'.workers[w].sending;
    } else if v :| HeldBy(s', v, id) && s'.workers[v].sending {
      assert HeldBy(s, v, id) && s.workers[v].sending;
    }
  }

  lemma EnqueuePublishIsSerial(s: State, s': State, id: Id)
    requires WorkersInv(s) && LockInv(s) && EnqueuePublish(s, s')
    ensures PublishStarts(s, s', id, QUEUED) || NoPublishStarts(s, s', id)
  {
    if s.lock.id != id {
      if v :| HeldBy(s', v, id) && s'.workers[v].sending {
        assert HeldBy(s, v, id);
      }
    }
  }

  lemma OtherStepsPublishNothing(s: State, s': State, id: Id)
    requires s.objects.Keys == s.published.Keys && Next(s, s')
    requires !EnqueuePublish(s, s') && !exists w, q, e :: WorkPublish(s, s', w, q, e)
    ensures NoPublishStarts(s, s', id)
  {
    assert Log(s', id) == Log(s, id);
    if v :| HeldBy(s', v, id) && s'.workers[v].sending {
      assert HeldBy(s, v, id) && s.workers[v].sending;
    }
  }

  /** Publishers of one job are serialized: a new Publish starts only when none is sending. */
  lemma PublishersAreSerial(s: State, s': State, id: Id)
    requires Inv(s) && Next(s, s')
    ensures (exists e :: PublishStarts(s, s', id, e)) || NoPublishStarts(s, s', id)
  {
    if EnqueuePublish(s, s') {
      EnqueuePublishIsSerial(s, s', id);
    } else if w, q, e :| WorkPublish(s, s', w, q, e) {
      WorkPublishIsSerial(s, s', id, w, q, e);
    } else {
      OtherStepsPublishNothing(s, s', id);
    }
  }
}
