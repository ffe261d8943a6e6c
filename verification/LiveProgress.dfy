/**
  The job queue and the hub together, seen from one job: what a WebSocket client of that job
  receives, for every interleaving of workers, publishers and subscribers.
 */
module LiveProgress {
  import opened ScanEvents
  import opened JobTable
  import Q = QueueProtocol
  import QT = QueueTheorems
  import H = HubProtocol
  import HT = HubTheorems
  import opened Runs

  /** The whole queue, and the hub's slice for the observed job. */
  datatype Sys = Sys(q: Q.State, h: H.State)

  /** How the hub's slice for job moves with a queue step. */
  ghost predicate HubFollows(s: Sys, s': Sys, job: Id) {
    if exists e :: QT.PublishStarts(s.q, s'.q, job, e) then
      exists e :: QT.PublishStarts(s.q, s'.q, job, e) && H.PublishBegin(s.h, s'.h, e)
    else if QT.Sending(s.q, job) && !QT.Sending(s'.q, job) then
      |s.h.log| > 0 && H.PublishEnd(s.h, s'.h, |s.h.log| - 1)
    else
      s'.h == s.h
  }

  ghost predicate Next(s: Sys, s': Sys, job: Id) {
    && !s.h.panicked
    && (|| (s'.q == s.q && H.Internal(s.h, s'.h))
        || (Q.Next(s.q, s'.q) && HubFollows(s, s', job)))
  }

  ghost function NextFor(job: Id): (Sys, Sys) -> bool {
    (s: Sys, s': Sys) => Next(s, s', job)
  }

  ghost predicate IsRun(run: seq<Sys>, job: Id) {
    IsPath(NextFor(job), run) && Q.Init(run[0].q) && H.Init(run[0].h)
  }

  // ------------------------------------------------------------ invariant

  /** The hub has recorded exactly the queue's publications, one Publish at a time. */
  ghost predicate Linked(s: Sys, job: Id) {
    && s.h.log == QT.Log(s.q, job)
    && (QT.Sending(s.q, job) ==> |s.h.log| > 0 && s.h.owed.Keys == {|s.h.log| - 1})
    && (!QT.Sending(s.q, job) ==> s.h.owed == map[])
  }

  ghost predicate NothingDropped(h: H.State) {
    forall sid :: sid in h.subs ==> !h.subs[sid].dropped
  }

  ghost predicate Inv(s: Sys, job: Id) {
    Q.Inv(s.q) && H.SerialInv(s.h) && Linked(s, job) && NothingDropped(s.h)
  }

  /** A job publishes at most eight events, a quarter of any channel's capacity. */
  lemma LogIsShort(q: Q.State, job: Id)
    requires Q.Inv(q)
    ensures |QT.Log(q, job)| <= 8
  {
    if job in q.published {
      QT.PublishedIsTracePrefix(q, job);
      PrefixIsWellOrdered(q.published[job]);
    }
  }

  lemma ChannelHasRoom(h: H.State, sid: H.SubId)
    requires H.SerialInv(h) && NothingDropped(h) && |h.log| <= 8 && sid in h.subs
    ensures |h.subs[sid].buffer| < H.SEND_CAPACITY
  {
    assert H.SubOk(h.subs[sid], |h.log|);
    assert H.InOrder(h, sid);
  }

  lemma InternalDropsNothing(h: H.State, h': H.State)
    requires H.SerialInv(h) && NothingDropped(h) && |h.log| <= 8 && H.Internal(h, h')
    ensures NothingDropped(h')
  {
    if t, sid :| H.Send(h, h', t, sid) {
      ChannelHasRoom(h, sid);
    } else if sid, withReplay :| H.Subscribe(h, h', sid, withReplay) {
      H.NewSubIs(h, withReplay);
    }
  }

  lemma InternalKeepsLink(s: Sys, s': Sys, job: Id)
    requires Linked(s, job) && s'.q == s.q && H.Internal(s.h, s'.h)
    ensures Linked(s', job)
  {
  }

  lemma HubStepKeepsInv(s: Sys, s': Sys, job: Id)
    requires Inv(s, job) && s'.q == s.q && H.Internal(s.h, s'.h)
    ensures Inv(s', job)
  {
    LogIsShort(s.q, job);
    H.InternalKeepsSerialInv(s.h, s'.h);
    InternalDropsNothing(s.h, s'.h);
    InternalKeepsLink(s, s', job);
  }

  lemma PublishKeepsInv(s: Sys, s': Sys, job: Id, e: Event)
    requires H.SerialInv(s.h) && Linked(s, job) && NothingDropped(s.h)
    requires QT.PublishStarts(s.q, s'.q, job, e) && H.PublishBegin(s.h, s'.h, e)
    ensures H.SerialInv(s'.h) && Linked(s', job) && NothingDropped(s'.h)
  {
    H.PublishBeginKeepsInv(s.h, s'.h, e);
    H.PublishKeepsOrder(s.h, s'.h, e);
    assert s'.h.owed.Keys == {|s.h.log|};
  }

  lemma PublishEndKeepsInv(s: Sys, s': Sys, job: Id)
    requires H.SerialInv(s.h) && Linked(s, job) && NothingDropped(s.h)
    requires QT.NoPublishStarts(s.q, s'.q, job) && QT.Sending(s.q, job) && !QT.Sending(s'.q, job)
    requires H.PublishEnd(s.h, s'.h, |s.h.log| - 1)
    ensures H.SerialInv(s'.h) && Linked(s', job) && NothingDropped(s'.h)
  {
    var t := |s.h.log| - 1;
    H.PublishEndKeepsInv(s.h, s'.h, t);
    H.EndKeepsOrder(s.h, s'.h, t);
    assert s'.h.owed.Keys == {};
  }

  lemma QueueStepKeepsInv(s: Sys, s': Sys, job: Id)
    requires Inv(s, job) && Q.Next(s.q, s'.q) && HubFollows(s, s', job)
    ensures Inv(s', job)
  {
    Q.NextKeepsInv(s.q, s'.q);
    QT.PublishersAreSerial(s.q, s'.q, job);
    if e :| QT.PublishStarts(s.q, s'.q, job, e) && H.PublishBegin(s.h, s'.h, e) {
      PublishKeepsInv(s, s', job, e);
    } else if QT.Sending(s.q, job) && !QT.Sending(s'.q, job) {
      PublishEndKeepsInv(s, s', job);
    }
  }

  lemma InitHasInv(s: Sys, job: Id)
    requires Q.Init(s.q) && H.Init(s.h)
    ensures Inv(s, job)
  {
    HT.InitIsOrdered(s.h);
  }

  lemma NextKeepsInv(s: Sys, s': Sys, job: Id)
    requires Inv(s, job) && Next(s, s', job)
    ensures Inv(s', job)
  {
    if s'.q == s.q && H.Internal(s.h, s'.h) {
      HubStepKeepsInv(s, s', job);
    } else {
      QueueStepKeepsInv(s, s', job);
    }
  }

  ghost function InvFor(job: Id): Sys -> bool {
    (s: Sys) => Inv(s, job)
  }

  lemma InvIsKept(job: Id)
    ensures Preserves(NextFor(job), InvFor(job))
  {
    forall s, s' | InvFor(job)(s) && NextFor(job)(s, s') ensures InvFor(job)(s') {
      NextKeepsInv(s, s', job);
    }
  }

  lemma RunKeepsInv(run: seq<Sys>, job: Id, i: nat)
    requires IsRun(run, job) && i < |run|
    ensures Inv(run[i], job)
  {
    InitHasInv(run[0], job);
    InvIsKept(job);
    InvariantHolds(NextFor(job), InvFor(job), run, 0, i);
  }

  // ------------------------------------------------------------- theorems

  /** The events that have entered a subscriber's channel. */
  ghost function Delivered(h: H.State, sid: H.SubId): seq<Event>
    requires sid in h.subs
    requires forall k :: 0 <= k < |h.subs[sid].history| ==> h.subs[sid].history[k] < |h.log|
  {
    seq(|h.subs[sid].history|, k requires 0 <= k < |h.subs[sid].history| => h.log[h.subs[sid].history[k]])
  }

  lemma HistoryInRange(h: H.State, sid: H.SubId)
    requires H.SubsInv(h) && sid in h.subs
    ensures forall k :: 0 <= k < |h.subs[sid].history| ==> h.subs[sid].history[k] < |h.log|
    ensures 0 <= h.subs[sid].start <= |h.log|
  {
    assert H.SubOk(h.subs[sid], |h.log|);
  }

  lemma DeliveredIsSlice(h: H.State, sid: H.SubId)
    requires H.SubsInv(h) && H.Ordered(h) && sid in h.subs && !h.subs[sid].dropped
    ensures forall k :: 0 <= k < |h.subs[sid].history| ==> h.subs[sid].history[k] < |h.log|
    ensures 0 <= h.subs[sid].start <= H.Offered(h, sid) <= |h.log|
    ensures Delivered(h, sid) == h.log[h.subs[sid].start..H.Offered(h, sid)]
  {
    HistoryInRange(h, sid);
    assert H.SubOk(h.subs[sid], |h.log|) && H.InOrder(h, sid);
  }

  /**
    Whatever the interleaving, the events that entered a client's channel are exactly the
    job's published events from the client's first replayed one up to the last one offered to
    it: none is lost, none is repeated, none is out of order.
   */
  lemma ClientSeesTheJobsEvents(run: seq<Sys>, job: Id, i: nat, sid: H.SubId)
    requires IsRun(run, job) && i < |run| && sid in run[i].h.subs
    ensures
      var h, events := run[i].h, QT.Log(run[i].q, job);
      && (forall k :: 0 <= k < |h.subs[sid].history| ==> h.subs[sid].history[k] < |h.log|)
      && 0 <= h.subs[sid].start <= H.Offered(h, sid) <= |events|
      && Delivered(h, sid) == events[h.subs[sid].start..H.Offered(h, sid)]
  {
    RunKeepsInv(run, job, i);
    DeliveredIsSlice(run[i].h, sid);
  }

  /** The subscribers stay known, and each keeps the tag it started from. */
  ghost predicate KeepsStart(h: H.State, h': H.State, sid: H.SubId) {
    sid in h.subs ==> sid in h'.subs && h'.subs[sid].start == h.subs[sid].start
  }

  lemma InternalKeepsStart(h: H.State, h': H.State, sid: H.SubId)
    requires H.Internal(h, h')
    ensures KeepsStart(h, h', sid)
  {
  }

  lemma FollowingKeepsStart(s: Sys, s': Sys, job: Id, sid: H.SubId)
    requires HubFollows(s, s', job)
    ensures KeepsStart(s.h, s'.h, sid)
  {
  }

  lemma StepKeepsStart(s: Sys, s': Sys, job: Id, sid: H.SubId)
    requires Next(s, s', job)
    ensures KeepsStart(s.h, s'.h, sid)
  {
    if H.Internal(s.h, s'.h) {
      InternalKeepsStart(s.h, s'.h, sid);
    } else {
      FollowingKeepsStart(s, s', job, sid);
    }
  }

  ghost function StartedAt(sid: H.SubId, start: nat): Sys -> bool {
    (s: Sys) => sid in s.h.subs && s.h.subs[sid].start == start
  }

  lemma StartIsFixed(run: seq<Sys>, job: Id, i: nat, j: nat, sid: H.SubId)
    requires IsRun(run, job) && i <= j < |run| && sid in run[i].h.subs
    ensures sid in run[j].h.subs && run[j].h.subs[sid].start == run[i].h.subs[sid].start
  {
    var inv := StartedAt(sid, run[i].h.subs[sid].start);
    forall s, s' | inv(s) && NextFor(job)(s, s') ensures inv(s') {
      StepKeepsStart(s, s', job, sid);
    }
    InvariantHolds(NextFor(job), inv, run, i, j);
  }

  /** The first tag a new client gets: the oldest one replayed, or the next one published. */
  function FirstTag(h: H.State, withReplay: bool): nat {
    if withReplay then h.droppedAt else |h.log|
  }

  lemma JoinerStartsAt(run: seq<Sys>, job: Id, i: nat, h': H.State, sid: H.SubId, withReplay: bool)
    requires IsRun(run, job) && i < |run| && H.Subscribe(run[i].h, h', sid, withReplay)
    ensures h'.subs[sid].start == FirstTag(run[i].h, withReplay)
  {
    RunKeepsInv(run, job, i);
    LogIsShort(run[i].q, job);
    H.NewSubIs(run[i].h, withReplay);
  }

  /**
    A client that connects with replay has, at every later moment, received the job's events
    from the last drop of the replay buffer on, up to the last one offered to it; without
    replay, from its own arrival on.
   */
  lemma JoinerSeesEverythingSince(run: seq<Sys>, job: Id, i: nat, j: nat, sid: H.SubId, withReplay: bool)
    requires IsRun(run, job) && i < j < |run| && H.Subscribe(run[i].h, run[i + 1].h, sid, withReplay)
    ensures sid in run[j].h.subs
    ensures forall k :: 0 <= k < |run[j].h.subs[sid].history| ==> run[j].h.subs[sid].history[k] < |run[j].h.log|
    ensures FirstTag(run[i].h, withReplay) <= H.Offered(run[j].h, sid) <= |QT.Log(run[j].q, job)|
    ensures Delivered(run[j].h, sid) == QT.Log(run[j].q, job)[FirstTag(run[i].h, withReplay)..H.Offered(run[j].h, sid)]
  {
    JoinerStartsAt(run, job, i, run[i + 1].h, sid, withReplay);
    StartIsFixed(run, job, i + 1, j, sid);
    ClientSeesTheJobsEvents(run, job, j, sid);
  }

  /** The terminal event that a finished job's record calls for. */
  function FinalEvent(j: JobRecord): Event {
    if j.status == Failed then SCAN_FAILED else SCAN_COMPLETED
  }

  /** A client subscribed to a finished job has been offered everything. */
  lemma FinishedJobOwesNothing(run: seq<Sys>, job: Id, i: nat, sid: H.SubId)
    requires IsRun(run, job) && i < |run| && sid in run[i].h.subs
    requires QT.FinishedIn(run[i].q, job) && run[i].h.subs[sid].membership == H.Live
    ensures H.Offered(run[i].h, sid) == |QT.Log(run[i].q, job)|
  {
    RunKeepsInv(run, job, i);
    QT.FinishedSendsNothing(run[i].q, job);
  }

  lemma FinalEventIsLast(run: seq<Sys>, job: Id, i: nat)
    requires IsRun(run, job) && i < |run| && QT.FinishedIn(run[i].q, job)
    ensures
      var record, events := run[i].q.objects[job], QT.Log(run[i].q, job);
      if record.fromCache then forall e :: e in events ==> !Terminal(e)
      else events != [] && events[|events| - 1] == FinalEvent(record)
  {
    RunKeepsInv(run, job, i);
    QT.FinishedIsRetired(run[i].q, job);
  }

  /**
    A client still subscribed when a job that really ran is finished has received its terminal
    event, last, exactly when its first tag was published at all: with replay, exactly when some
    event came after the last drop of the replay buffer before it connected. A job answered from
    the cache delivers no terminal event to anyone.
   */
  lemma ClientGetsTheTerminalEventIff(run: seq<Sys>, job: Id, i: nat, j: nat, sid: H.SubId, withReplay: bool)
    requires IsRun(run, job) && i < j < |run| && H.Subscribe(run[i].h, run[i + 1].h, sid, withReplay)
    requires QT.FinishedIn(run[j].q, job) && sid in run[j].h.subs && run[j].h.subs[sid].membership == H.Live
    ensures forall k :: 0 <= k < |run[j].h.subs[sid].history| ==> run[j].h.subs[sid].history[k] < |run[j].h.log|
    ensures
      var record, got := run[j].q.objects[job], Delivered(run[j].h, sid);
      var heard := FirstTag(run[i].h, withReplay) < |QT.Log(run[j].q, job)|;
      if record.fromCache then forall e :: e in got ==> !Terminal(e)
      else
        && (FinalEvent(record) in got <==> heard)
        && (heard ==> got[|got| - 1] == FinalEvent(record))
        && (!heard ==> got == [])
  {
    JoinerSeesEverythingSince(run, job, i, j, sid, withReplay);
    FinishedJobOwesNothing(run, job, j, sid);
    FinalEventIsLast(run, job, j);
    var events, got := QT.Log(run[j].q, job), Delivered(run[j].h, sid);
    if FirstTag(run[i].h, withReplay) < |events| {
      assert got[|got| - 1] == events[|events| - 1];
    }
  }

  // ----------------------------------------- connecting to a finished job

  /** From here on the job is finished, has published these events, and the buffer stays dropped. */
  ghost function SilentSince(job: Id, events: seq<Event>): Sys -> bool {
    (s: Sys) => Inv(s, job) && QT.FinishedIn(s.q, job) && QT.Log(s.q, job) == events && s.h.droppedAt == |events|
  }

  lemma InternalKeepsDrop(h: H.State, h': H.State)
    requires h.droppedAt == |h.log| && H.Internal(h, h')
    ensures h'.droppedAt == |h'.log| == |h.log|
  {
  }

  lemma FinishedQueueStep(q: Q.State, q': Q.State, job: Id)
    requires Q.Inv(q) && Q.Next(q, q') && QT.FinishedIn(q, job)
    ensures QT.FinishedIn(q', job) && QT.Log(q', job) == QT.Log(q, job)
    ensures !QT.Sending(q, job) && !QT.Sending(q', job)
  {
    QT.NextAdvances(q, q');
    Q.NextKeepsInv(q, q');
    QT.FinishedSendsNothing(q, job);
    QT.FinishedSendsNothing(q', job);
    QT.PublishersAreSerial(q, q', job);
  }

  lemma SilenceIsKept(s: Sys, s': Sys, job: Id, events: seq<Event>)
    requires SilentSince(job, events)(s) && Next(s, s', job)
    ensures SilentSince(job, events)(s')
  {
    NextKeepsInv(s, s', job);
    if s'.q == s.q && H.Internal(s.h, s'.h) {
      InternalKeepsDrop(s.h, s'.h);
    } else {
      FinishedQueueStep(s.q, s'.q, job);
      assert s'.h == s.h;
    }
  }

  lemma SilenceBegins(run: seq<Sys>, job: Id, i: nat, last: H.SubId)
    requires IsRun(run, job) && i + 1 < |run| && QT.FinishedIn(run[i].q, job)
    requires H.LiveSubs(run[i].h) == {last} && H.Unsubscribe(run[i].h, run[i + 1].h, last) && run[i + 1].q == run[i].q
    ensures SilentSince(job, QT.Log(run[i].q, job))(run[i + 1])
  {
    RunKeepsInv(run, job, i);
    RunKeepsInv(run, job, i + 1);
    assert last in H.LiveSubs(run[i].h);
  }

  lemma SilenceLasts(run: seq<Sys>, job: Id, i: nat, j: nat, events: seq<Event>)
    requires IsRun(run, job) && i <= j < |run| && SilentSince(job, events)(run[i])
    ensures SilentSince(job, events)(run[j])
  {
    forall s, s' | SilentSince(job, events)(s) && NextFor(job)(s, s') ensures SilentSince(job, events)(s') {
      SilenceIsKept(s, s', job, events);
    }
    InvariantHolds(NextFor(job), SilentSince(job, events), run, i, j);
  }

  lemma SilentJobTellsNothing(run: seq<Sys>, job: Id, k: nat, j: nat, late: H.SubId, withReplay: bool, events: seq<Event>)
    requires IsRun(run, job) && k < j < |run| && H.Subscribe(run[k].h, run[k + 1].h, late, withReplay)
    requires QT.Log(run[j].q, job) == events && FirstTag(run[k].h, withReplay) >= |events|
    ensures late in run[j].h.subs && run[j].h.subs[late].history == []
  {
    JoinerSeesEverythingSince(run, job, k, j, late, withReplay);
    assert Delivered(run[j].h, late) == [];
  }

  /**
    Once the last client of a finished job has left, whoever connects to it later, with or
    without replay, never receives anything.
   */
  lemma LatecomerGetsNothing(run: seq<Sys>, job: Id, i: nat, k: nat, j: nat, last: H.SubId, late: H.SubId, withReplay: bool)
    requires IsRun(run, job) && i < k < j < |run| && QT.FinishedIn(run[i].q, job)
    requires H.LiveSubs(run[i].h) == {last} && H.Unsubscribe(run[i].h, run[i + 1].h, last) && run[i + 1].q == run[i].q
    requires H.Subscribe(run[k].h, run[k + 1].h, late, withReplay)
    ensures late in run[j].h.subs && run[j].h.subs[late].history == []
  {
    var events := QT.Log(run[i].q, job);
    SilenceBegins(run, job, i, last);
    SilenceLasts(run, job, i + 1, k, events);
    SilenceLasts(run, job, i + 1, j, events);
    assert FirstTag(run[k].h, withReplay) == |events|;
    SilentJobTellsNothing(run, job, k, j, late, withReplay, events);
  }
}
