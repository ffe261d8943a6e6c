/**
  Every way a job can end is open to every queued job: the cache answers it, its scan fails, or
  its scan succeeds with none, one or two e-mail events.
 */
module QueueOutcomes {
  import opened ScanEvents
  import opened JobTable
  import opened QueueProtocol
  import opened QueueTheorems
  import opened QueueProgress
  import opened Runs

  datatype Outcome = CacheHit | ScanFails | ScanSucceeds(emailEvents: nat)

  /** What the job has published and how its record reads once it has ended that way. */
  ghost predicate EndedAs(t: State, id: Id, o: Outcome) {
    && id in t.objects && id in t.published
    && match o
       case CacheHit =>
         && t.objects[id].status == Completed && t.objects[id].fromCache
         && t.published[id] == [Event(ProgressType, PendingPhase, 0), Event(ProgressType, RunningPhase, 10)]
       case ScanFails =>
         && t.objects[id].status == Failed && !t.objects[id].fromCache
         && t.published[id] == [Event(ProgressType, PendingPhase, 0), Event(ProgressType, RunningPhase, 10),
                                Event(ProgressType, FetchingPhase, 20), Event(FailedType, FailedPhase, 0)]
       case ScanSucceeds(n) =>
         && n <= 2
         && t.objects[id].status == Completed && !t.objects[id].fromCache
         && t.published[id] == [Event(ProgressType, PendingPhase, 0), Event(ProgressType, RunningPhase, 10),
                                Event(ProgressType, FetchingPhase, 20), Event(ProgressType, ParsingPhase, 60),
                                Event(ProgressType, DetectingPhase, 90)]
                               + [Event(ProgressType, DetectingPhase, 95), Event(ProgressType, DetectingPhase, 96)][..n]
                               + [Event(CompletedType, CompletedPhase, 100)]
  }

  /** Worker w runs the job, has reached phase p and published these events. */
  ghost predicate Working(t: State, w: nat, id: Id, p: Phase, events: seq<Event>) {
    && Inv(t) && t.lock == Free && w < |t.workers| && t.workers[w] == Busy(id, p, false)
    && id in t.objects && id in t.published && t.published[id] == events
  }

  lemma Quietly(s: State, w: nat, id: Id, p: Phase, q: Phase, events: seq<Event>) returns (t: State)
    requires Working(s, w, id, p, events) && Silent(p, q)
    ensures Leads(Next, s, t) && Working(t, w, id, q, events)
  {
    t := s.(workers := s.workers[w := Busy(id, q, false)]);
    assert WorkSilently(s, t, w, q);
    WorkSilentlyKeepsInv(s, t, w, q);
    LeadsToItself(Next, s);
    LeadsOn(Next, s, s, t);
  }

  lemma Loudly(s: State, w: nat, id: Id, p: Phase, q: Phase, e: Event, events: seq<Event>) returns (t: State)
    requires Working(s, w, id, p, events) && Publishes(p, q, e)
    ensures Leads(Next, s, t) && Working(t, w, id, q, events + [e])
  {
    var u := s.(workers := s.workers[w := Busy(id, q, true)], published := s.published[id := s.published[id] + [e]]);
    assert WorkPublish(s, u, w, q, e);
    WorkPublishKeepsInv(s, u, w, q, e);
    t := u.(workers := u.workers[w := Busy(id, q, false)]);
    assert WorkSent(u, t, w);
    WorkSentKeepsInv(u, t, w);
    LeadsToItself(Next, s);
    LeadsOn(Next, s, s, u);
    LeadsOn(Next, s, u, t);
  }

  lemma Ends(s: State, w: nat, id: Id, p: Phase, events: seq<Event>) returns (t: State)
    requires Working(s, w, id, p, events) && CanFinish(p)
    ensures Leads(Next, s, t) && id in t.objects && id in t.published && t.published[id] == events
    ensures t.objects[id].status == (if p == FailurePublished then Failed else Completed)
    ensures t.objects[id].fromCache <==> p == Hit
  {
    t := s.(objects := s.objects[id := FinalRecord(s.objects[id], p)], workers := s.workers[w := Idle]);
    assert Finish(s, t, w);
    assert WorkerOk(s, w);
    LeadsToItself(Next, s);
    LeadsOn(Next, s, s, t);
  }

  /** An idle worker receives the head of the channel and marks it running. */
  lemma Receives(s: State, w: nat) returns (t: State)
    requires Inv(s) && s.lock == Free && w < |s.workers| && s.workers[w] == Idle && s.channel != []
    ensures Leads(Next, s, t) && Working(t, w, s.channel[0], Marked, [QUEUED])
  {
    var id := s.channel[0];
    var u := s.(channel := s.channel[1..], received := s.received + [id], workers := s.workers[w := Busy(id, Received, false)]);
    assert Receive(s, u, w);
    ReceiveKeepsInv(s, u, w);
    assert WorkerOk(u, w);
    t := u.(objects := u.objects[id := RunningRecord(u.objects[id])], workers := u.workers[w := Busy(id, Marked, false)]);
    assert MarkRunning(u, t, w);
    MarkRunningKeepsInv(u, t, w);
    LeadsToItself(Next, s);
    LeadsOn(Next, s, s, u);
    LeadsOn(Next, s, u, t);
  }

  lemma Fails(s: State, w: nat, id: Id) returns (t: State)
    requires Working(s, w, id, Fetching, [QUEUED, PICKED_UP, FETCHING])
    ensures Leads(Next, s, t) && EndedAs(t, id, ScanFails)
  {
    var u := Quietly(s, w, id, Fetching, NavFailed, [QUEUED, PICKED_UP, FETCHING]);
    var v := Loudly(u, w, id, NavFailed, FailurePublished, SCAN_FAILED, [QUEUED, PICKED_UP, FETCHING]);
    t := Ends(v, w, id, FailurePublished, [QUEUED, PICKED_UP, FETCHING] + [SCAN_FAILED]);
    LeadsTransitively(Next, s, u, v);
    LeadsTransitively(Next, s, v, t);
  }

  lemma Crawls(s: State, w: nat, id: Id, events: seq<Event>) returns (t: State)
    requires Working(s, w, id, Detecting, events)
    ensures Leads(Next, s, t) && Working(t, w, id, Scanned(2), events + [EMAILS, CRAWLED_EMAILS][..2])
  {
    var u := Loudly(s, w, id, Detecting, Crawling, EMAILS, events);
    t := Loudly(u, w, id, Crawling, Scanned(2), CRAWLED_EMAILS, events + [EMAILS]);
    assert events + [EMAILS] + [CRAWLED_EMAILS] == events + [EMAILS, CRAWLED_EMAILS][..2];
    LeadsTransitively(Next, s, u, t);
  }

  /** The e-mail search emits n events. */
  lemma FindsEmails(s: State, w: nat, id: Id, events: seq<Event>, n: nat) returns (t: State)
    requires Working(s, w, id, Detecting, events) && n <= 2
    ensures Leads(Next, s, t) && Working(t, w, id, Scanned(n), events + [EMAILS, CRAWLED_EMAILS][..n])
  {
    if n == 0 {
      t := Quietly(s, w, id, Detecting, Scanned(0), events);
      assert events + [EMAILS, CRAWLED_EMAILS][..0] == events;
    } else if n == 1 {
      t := Loudly(s, w, id, Detecting, Scanned(1), EMAILS, events);
      assert [EMAILS, CRAWLED_EMAILS][..1] == [EMAILS];
    } else {
      t := Crawls(s, w, id, events);
    }
  }

  lemma Parses(s: State, w: nat, id: Id) returns (t: State)
    requires Working(s, w, id, Fetching, [QUEUED, PICKED_UP, FETCHING])
    ensures Leads(Next, s, t) && Working(t, w, id, Detecting, [QUEUED, PICKED_UP, FETCHING, PARSING, DETECTING])
  {
    var u := Loudly(s, w, id, Fetching, Parsing, PARSING, [QUEUED, PICKED_UP, FETCHING]);
    t := Loudly(u, w, id, Parsing, Detecting, DETECTING, [QUEUED, PICKED_UP, FETCHING] + [PARSING]);
    LeadsTransitively(Next, s, u, t);
    assert [QUEUED, PICKED_UP, FETCHING] + [PARSING] + [DETECTING] == [QUEUED, PICKED_UP, FETCHING, PARSING, DETECTING];
  }

  lemma Succeeds(s: State, w: nat, id: Id, n: nat) returns (t: State)
    requires Working(s, w, id, Fetching, [QUEUED, PICKED_UP, FETCHING]) && n <= 2
    ensures Leads(Next, s, t) && EndedAs(t, id, ScanSucceeds(n))
  {
    var events := [QUEUED, PICKED_UP, FETCHING, PARSING, DETECTING];
    var u := Parses(s, w, id);
    var v := FindsEmails(u, w, id, events, n);
    var all := events + [EMAILS, CRAWLED_EMAILS][..n];
    var x := Loudly(v, w, id, Scanned(n), SuccessPublished(n), SCAN_COMPLETED, all);
    t := Ends(x, w, id, SuccessPublished(n), all + [SCAN_COMPLETED]);
    LeadsTransitively(Next, s, u, v);
    LeadsTransitively(Next, s, v, x);
    LeadsTransitively(Next, s, x, t);
  }

  lemma Misses(s: State, w: nat, id: Id) returns (t: State)
    requires Working(s, w, id, Announced, [QUEUED, PICKED_UP])
    ensures Leads(Next, s, t) && Working(t, w, id, Fetching, [QUEUED, PICKED_UP, FETCHING])
  {
    var u := Quietly(s, w, id, Announced, Missed, [QUEUED, PICKED_UP]);
    t := Loudly(u, w, id, Missed, Fetching, FETCHING, [QUEUED, PICKED_UP]);
    LeadsTransitively(Next, s, u, t);
    assert [QUEUED, PICKED_UP] + [FETCHING] == [QUEUED, PICKED_UP, FETCHING];
  }

  lemma EndsAs(s: State, w: nat, id: Id, o: Outcome) returns (t: State)
    requires Working(s, w, id, Announced, [QUEUED, PICKED_UP]) && (o.ScanSucceeds? ==> o.emailEvents <= 2)
    ensures Leads(Next, s, t) && EndedAs(t, id, o)
  {
    if o == CacheHit {
      var u := Quietly(s, w, id, Announced, Hit, [QUEUED, PICKED_UP]);
      t := Ends(u, w, id, Hit, [QUEUED, PICKED_UP]);
      LeadsTransitively(Next, s, u, t);
    } else {
      var u := Misses(s, w, id);
      if o == ScanFails {
        t := Fails(u, w, id);
      } else {
        t := Succeeds(u, w, id, o.emailEvents);
      }
      LeadsTransitively(Next, s, u, t);
    }
  }

  lemma ServedAs(s: State, w: nat, o: Outcome) returns (t: State)
    requires Inv(s) && s.lock == Free && w < |s.workers| && s.workers[w] == Idle && s.channel != []
    requires o.ScanSucceeds? ==> o.emailEvents <= 2
    ensures Leads(Next, s, t) && EndedAs(t, s.channel[0], o)
  {
    var id := s.channel[0];
    var u := Receives(s, w);
    var v := Loudly(u, w, id, Marked, Announced, PICKED_UP, [QUEUED]);
    assert [QUEUED] + [PICKED_UP] == [QUEUED, PICKED_UP];
    t := EndsAs(v, w, id, o);
    LeadsTransitively(Next, s, u, v);
    LeadsTransitively(Next, s, v, t);
  }

  /**
    From every reachable state, for every job in the channel and every outcome, some continuation
    ends the job that way: it has published exactly that trace and its record says so.
   */
  lemma EveryOutcomeIsOpen(run: seq<State>, i: nat, id: Id, o: Outcome)
    requires IsRun(run) && i < |run| && id in run[i].channel && (o.ScanSucceeds? ==> o.emailEvents <= 2)
    ensures exists t :: Leads(Next, run[i], t) && EndedAs(t, id, o)
  {
    RunKeepsInv(run, i);
    WorkersNeverLeave(run, i);
    var k: nat :| k < |run[i].channel| && run[i].channel[k] == id;
    var free := Release(run[i]);
    var next := ServeFirst(free, 0, k);
    var idle := RunOut(next, 0);
    var t := ServedAs(idle, 0, o);
    LeadsTransitively(Next, run[i], free, next);
    LeadsTransitively(Next, run[i], next, idle);
    LeadsTransitively(Next, run[i], idle, t);
  }
}
