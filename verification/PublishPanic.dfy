/** A run of queue and hub in which a Publish sends on a channel that was closed under it. */
module PublishPanic {
  import opened ScanEvents
  import opened JobTable
  import opened Runs
  import opened LiveProgress
  import Q = QueueProtocol
  import QT = QueueTheorems
  import H = HubProtocol

  /** A queue step that starts and ends no Publish of the job leaves the hub alone. */
  lemma SilentStep(s: Sys, s': Sys, job: Id)
    requires !s.h.panicked && Q.Next(s.q, s'.q) && s'.h == s.h
    requires QT.Log(s'.q, job) == QT.Log(s.q, job) && !QT.Sending(s.q, job)
    ensures Next(s, s', job)
  {
  }

  lemma PublishingStep(s: Sys, s': Sys, job: Id, e: Event)
    requires !s.h.panicked && Q.Next(s.q, s'.q)
    requires QT.PublishStarts(s.q, s'.q, job, e) && H.PublishBegin(s.h, s'.h, e)
    ensures Next(s, s', job)
  {
  }

  lemma SentStep(s: Sys, s': Sys, job: Id)
    requires !s.h.panicked && Q.Next(s.q, s'.q) && QT.Log(s'.q, job) == QT.Log(s.q, job)
    requires QT.Sending(s.q, job) && !QT.Sending(s'.q, job)
    requires |s.h.log| > 0 && H.PublishEnd(s.h, s'.h, |s.h.log| - 1)
    ensures Next(s, s', job)
  {
  }

  /** One worker, one job, one client that connects once the job's id is known. */
  ghost function Queue(k: nat): Q.State {
    var q0 := Q.State(map[], {}, [], [Q.Idle], Q.Free, {}, map[], [], []);
    var record := JobRecord(Pending, 0, false);
    var q1 := Q.State(map[5 := record], {5}, [5], [Q.Idle], Q.Enqueuing(5, false), {}, map[5 := []], [5], []);
    var q2 := q1.(lock := Q.Enqueuing(5, true), published := map[5 := [QUEUED]]);
    var q3 := q2.(lock := Q.Free);
    var q4 := q3.(channel := [], received := [5], workers := [Q.Busy(5, Q.Received, false)]);
    var q5 := q4.(objects := map[5 := Q.RunningRecord(record)], workers := [Q.Busy(5, Q.Marked, false)]);
    var q6 := q5.(published := map[5 := [QUEUED, PICKED_UP]], workers := [Q.Busy(5, Q.Announced, true)]);
    match k
    case 0 => q0
    case 1 => q1
    case 2 => q2
    case 3 => q3
    case 4 => q4
    case 5 => q5
    case _ => q6
  }

  ghost function Client(k: nat): H.State {
    var h0 := H.State([], [], 0, map[], map[], false);
    var h1 := h0.(log := [QUEUED], replay := [0], owed := map[0 := {}]);
    var h2 := h1.(owed := map[]);
    var sub := H.Sub(0, 1, H.Live, false, [0], [0], false);
    var h3 := h2.(subs := map[7 := sub]);
    var h4 := h3.(log := [QUEUED, PICKED_UP], replay := [0, 1], owed := map[1 := {7}]);
    var gone := sub.(membership := H.LeftAt(2));
    var h5 := h4.(subs := map[7 := gone], replay := [], droppedAt := 2);
    var h6 := h5.(subs := map[7 := gone.(closed := true)]);
    match k
    case 0 => h0
    case 1 => h1
    case 2 => h2
    case 3 => h3
    case 4 => h4
    case 5 => h5
    case 6 => h6
    case _ => h6.(panicked := true)
  }

  lemma SendingAt(k: nat)
    requires k < 7
    ensures QT.Sending(Queue(k), 5) <==> k == 2 || k == 6
  {
    assert Q.HeldBy(Queue(6), 0, 5);
  }

  lemma EnqueueBegins()
    ensures Q.Next(Queue(0), Queue(1))
  {
    assert AdmissionLeaves(Q.View(Queue(0)), {}, 0);
    assert {} + {5} == {5} && [] + [5] == [5];
    assert Q.EnqueueBegin(Queue(0), Queue(1), 5, 0, {});
  }

  lemma EnqueueAnnounces()
    ensures Q.Next(Queue(1), Queue(2)) && H.PublishBegin(Client(0), Client(1), QUEUED)
  {
    assert [] + [QUEUED] == [QUEUED] && [] + [0] == [0];
    assert Q.EnqueuePublish(Queue(1), Queue(2));
    assert H.LiveSubs(Client(0)) == {};
  }

  lemma EnqueueEnds()
    ensures Q.Next(Queue(2), Queue(3)) && H.PublishEnd(Client(1), Client(2), 0)
  {
    assert Q.EnqueueEnd(Queue(2), Queue(3));
  }

  lemma ClientJoins()
    ensures H.Internal(Client(2), Client(3))
  {
    var joiner := H.Sub(0, 1, H.Live, false, [], [], false);
    assert [0][0] == 0 && [0][1..] == [];
    assert H.Offer(joiner, 0) == H.Sub(0, 1, H.Live, false, [0], [0], false);
    assert H.NewSub(Client(2), true) == H.OfferAll(H.Offer(joiner, 0), [0][1..]);
    assert H.Subscribe(Client(2), Client(3), 7, true);
  }

  lemma WorkerReceives()
    ensures Q.Next(Queue(3), Queue(4))
  {
    assert [5][1..] == [] && [] + [5] == [5];
    assert Q.Receive(Queue(3), Queue(4), 0);
  }

  lemma WorkerPublishes()
    ensures Q.WorkPublish(Queue(5), Queue(6), 0, Q.Announced, PICKED_UP)
    ensures H.PublishBegin(Client(3), Client(4), PICKED_UP)
  {
    assert [QUEUED] + [PICKED_UP] == [QUEUED, PICKED_UP] && [0] + [1] == [0, 1];
    assert H.LiveSubs(Client(3)) == {7};
  }

  lemma ClientUnsubscribes()
    ensures H.Internal(Client(4), Client(5))
  {
    assert H.LiveSubs(Client(4)) == {7};
    assert H.Unsubscribe(Client(4), Client(5), 7);
  }

  lemma ClientCloses()
    ensures H.Internal(Client(5), Client(6)) && H.Internal(Client(6), Client(7))
  {
    assert H.Close(Client(5), Client(6), 7);
    assert H.Send(Client(6), Client(7), 1, 7);
  }

  /** The run: queue and hub steps in turn. */
  ghost function Crash(k: nat): Sys {
    match k
    case 0 => Sys(Queue(0), Client(0))
    case 1 => Sys(Queue(1), Client(0))
    case 2 => Sys(Queue(2), Client(1))
    case 3 => Sys(Queue(3), Client(2))
    case 4 => Sys(Queue(3), Client(3))
    case 5 => Sys(Queue(4), Client(3))
    case 6 => Sys(Queue(5), Client(3))
    case 7 => Sys(Queue(6), Client(4))
    case 8 => Sys(Queue(6), Client(5))
    case 9 => Sys(Queue(6), Client(6))
    case _ => Sys(Queue(6), Client(7))
  }

  lemma CrashStep(k: nat)
    requires k < 10
    ensures Next(Crash(k), Crash(k + 1), 5)
  {
    match k
    case 0 => AcceptStep();
    case 1 => AnnounceStep();
    case 2 => ReturnStep();
    case 3 => ClientJoins();
    case 4 => ReceiveStep(Client(3));
    case 5 => MarkStep(Client(3));
    case 6 => PickUpStep();
    case 7 => ClientUnsubscribes();
    case _ => ClientCloses();
  }

  lemma AcceptStep()
    ensures Next(Crash(0), Crash(1), 5)
  {
    EnqueueBegins();
    SendingAt(0);
    SilentStep(Crash(0), Crash(1), 5);
  }

  lemma AnnounceStep()
    ensures Next(Crash(1), Crash(2), 5)
  {
    EnqueueAnnounces();
    SendingAt(1);
    SendingAt(2);
    PublishingStep(Crash(1), Crash(2), 5, QUEUED);
  }

  lemma ReturnStep()
    ensures Next(Crash(2), Crash(3), 5)
  {
    EnqueueEnds();
    SendingAt(2);
    SendingAt(3);
    SentStep(Crash(2), Crash(3), 5);
  }

  lemma ReceiveStep(h: H.State)
    requires !h.panicked
    ensures Next(Sys(Queue(3), h), Sys(Queue(4), h), 5)
  {
    WorkerReceives();
    SendingAt(3);
    SilentStep(Sys(Queue(3), h), Sys(Queue(4), h), 5);
  }

  lemma MarkingIsSilent(q: Q.State, q': Q.State, w: nat, h: H.State, job: Id)
    requires Q.MarkRunning(q, q', w) && !h.panicked && !QT.Sending(q, job)
    ensures Next(Sys(q, h), Sys(q', h), job)
  {
    SilentStep(Sys(q, h), Sys(q', h), job);
  }

  lemma MarkStep(h: H.State)
    requires !h.panicked
    ensures Next(Sys(Queue(4), h), Sys(Queue(5), h), 5)
  {
    SendingAt(4);
    MarkingIsSilent(Queue(4), Queue(5), 0, h, 5);
  }

  lemma WorkIsPublished(q: Q.State, q': Q.State, w: nat, p: Q.Phase, e: Event, h: H.State, h': H.State)
    requires Q.WorkPublish(q, q', w, p, e) && !h.panicked && H.PublishBegin(h, h', e)
    requires !QT.Sending(q, q.workers[w].id)
    ensures Next(Sys(q, h), Sys(q', h'), q.workers[w].id)
  {
    var job := q.workers[w].id;
    assert Q.HeldBy(q', w, job) && q'.workers[w].sending;
    PublishingStep(Sys(q, h), Sys(q', h'), job, e);
  }

  lemma PickUpStep()
    ensures Next(Crash(6), Crash(7), 5)
  {
    WorkerPublishes();
    SendingAt(5);
    WorkIsPublished(Queue(5), Queue(6), 0, Q.Announced, PICKED_UP, Client(3), Client(4));
  }

  /**
    The overlap of Publish and Unsubscribe is real: a client that connects after the job was
    announced and leaves while the worker publishes brings the server down.
   */
  lemma PublishCanPanic()
    ensures exists run: seq<Sys> :: IsRun(run, 5) && run[|run| - 1].h.panicked
  {
    var run := seq(11, k requires 0 <= k < 11 => Crash(k));
    forall i | 0 <= i < 10 ensures StepAt(NextFor(5), run, i) {
      CrashStep(i);
    }
    assert IsRun(run, 5) && run[10].h.panicked;
  }
}
