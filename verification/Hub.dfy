/** The hub object: its maps of subscribers and replay buffers, updated in place. */
module Hub {
  import opened ScanEvents
  import opened Sequences
  import opened HubProtocol

  type JobId = nat

  class Subscriber {
    const job: JobId
    var send: seq<Event>
    var closed: bool

    constructor (job: JobId)
      ensures this.job == job && send == [] && !closed
    {
      this.job := job;
      send := [];
      closed := false;
    }

    /** A non-blocking send: a full channel drops the event, a closed one panics. */
    method TrySend(ev: Event) returns (panics: bool)
      modifies this`send
      ensures panics == closed
      ensures send == if closed || |old(send)| >= 32 then old(send) else old(send) + [ev]
    {
      if closed {
        return true;
      }
      if |send| < SEND_CAPACITY {
        send := send + [ev];
      }
      panics := false;
    }

    method CloseOnce()
      modifies this`closed
      ensures closed
    {
      if !closed {
        closed := true;
      }
    }
  }

  class Hub {
    var subscribers: map<JobId, set<Subscriber>>
    var replay: map<JobId, seq<Event>>

    ghost predicate Valid()
      reads this, set j, s | j in subscribers && s in subscribers[j] :: s
    {
      && (forall j :: j in subscribers ==> subscribers[j] != {})
      && (forall j, s :: j in subscribers && s in subscribers[j] ==> s.job == j && !s.closed)
      && (forall j :: j in replay ==> |replay[j]| <= 32)
    }

    ghost function SubscribersOf(j: JobId): set<Subscriber>
      reads this
    {
      if j in subscribers then subscribers[j] else {}
    }

    ghost function ReplayOf(j: JobId): seq<Event>
      reads this
    {
      if j in replay then replay[j] else []
    }

    constructor ()
      ensures Valid() && subscribers == map[] && replay == map[]
    {
      subscribers := map[];
      replay := map[];
    }

    /** A new subscriber starts with the job's whole replay buffer in its channel. */
    method Subscribe(job: JobId, withReplay: bool) returns (sub: Subscriber)
      requires Valid()
      modifies this`subscribers
      ensures Valid() && fresh(sub) && sub.job == job && !sub.closed
      ensures sub.send == if withReplay then ReplayOf(job) else []
      ensures SubscribersOf(job) == old(SubscribersOf(job)) + {sub}
      ensures forall j :: j != job ==> SubscribersOf(j) == old(SubscribersOf(j))
    {
      sub := new Subscriber(job);
      if job !in subscribers {
        subscribers := subscribers[job := {}];
      }
      subscribers := subscribers[job := subscribers[job] + {sub}];
      if withReplay && job in replay {
        var i := 0;
        while i < |replay[job]|
          invariant 0 <= i <= |replay[job]|
          invariant sub.send == replay[job][..i] && !sub.closed
          modifies sub`send
        {
          var _ := sub.TrySend(replay[job][i]);
          assert replay[job][..i + 1] == replay[job][..i] + [replay[job][i]];
          i := i + 1;
        }
        assert replay[job][..i] == replay[job];
      }
    }

    /** The subscriber is removed and closed; the last one out takes the replay buffer along. */
    method Unsubscribe(sub: Subscriber)
      requires Valid()
      modifies this, sub`closed
      ensures Valid() && sub.closed
      ensures SubscribersOf(sub.job) == old(SubscribersOf(sub.job)) - {sub}
      ensures forall j :: j != sub.job ==>
                SubscribersOf(j) == old(SubscribersOf(j)) && ReplayOf(j) == old(ReplayOf(j))
      ensures ReplayOf(sub.job) ==
                if sub.job in old(subscribers) && old(subscribers)[sub.job] <= {sub} then []
                else old(ReplayOf(sub.job))
    {
      if sub.job in subscribers {
        var subs := subscribers[sub.job] - {sub};
        if subs == {} {
          subscribers := subscribers - {sub.job};
          replay := replay - {sub.job};
        } else {
          subscribers := subscribers[sub.job := subs];
        }
      }
      sub.CloseOnce();
    }

    /** The critical section of Publish. */
    method Record(job: JobId, ev: Event) returns (recipients: set<Subscriber>)
      requires Valid()
      modifies this`replay
      ensures Valid()
      ensures recipients == SubscribersOf(job)
      ensures ReplayOf(job) == LastN(old(ReplayOf(job)) + [ev], 32)
      ensures forall j :: j != job ==> ReplayOf(j) == old(ReplayOf(j))
    {
      var buf := if job in replay then replay[job] else [];
      buf := buf + [ev];
      if |buf| > REPLAY_SIZE {
        buf := buf[|buf| - REPLAY_SIZE..];
      }
      replay := replay[job := buf];
      recipients := if job in subscribers then subscribers[job] else {};
    }

    /**
      The sends of a Publish, after the lock is released, whatever has happened since: they panic
      exactly when some recipient's channel has been closed, and otherwise every recipient is
      offered the event once.
     */
    method SendAll(recipients: set<Subscriber>, ev: Event) returns (panics: bool)
      modifies recipients`send
      ensures panics <==> exists s :: s in recipients && s.closed
      ensures !panics ==> forall s :: s in recipients ==>
                s.send == if |old(s.send)| < 32 then old(s.send) + [ev] else old(s.send)
      ensures panics ==> forall s :: s in recipients ==> s.send == old(s.send) || s.send == old(s.send) + [ev]
    {
      var rest := recipients;
      while rest != {}
        invariant rest <= recipients
        invariant forall s :: s in recipients && s !in rest ==> !s.closed
        invariant forall s :: s in recipients ==>
                    s.send == if s !in rest && |old(s.send)| < 32 then old(s.send) + [ev] else old(s.send)
        decreases rest
        modifies recipients`send
      {
        var s :| s in rest;
        panics := s.TrySend(ev);
        if panics {
          return;
        }
        rest := rest - {s};
      }
      panics := false;
    }

    /** A whole Publish with nothing in between: every subscriber of the job is offered the event once. */
    method Publish(job: JobId, ev: Event) returns (panics: bool)
      requires Valid()
      modifies this`replay, SubscribersOf(job)`send
      ensures Valid() && !panics
      ensures ReplayOf(job) == LastN(old(ReplayOf(job)) + [ev], 32)
      ensures forall j :: j != job ==> ReplayOf(j) == old(ReplayOf(j))
      ensures forall s :: s in SubscribersOf(job) ==>
                s.send == if |old(s.send)| < 32 then old(s.send) + [ev] else old(s.send)
    {
      var recipients := Record(job, ev);
      panics := SendAll(recipients, ev);
    }
  }

  // ------------------------------------------------- the protocol's steps

  /** The events that the tags of a sequence stand for. */
  function Events(log: seq<Event>, tags: seq<nat>): seq<Event> {
    seq(|tags|, k requires 0 <= k < |tags| => if tags[k] < |log| then log[tags[k]] else QUEUED)
  }

  /** The hub object, as far as one job is concerned: its live subscribers, its replay buffer, and all channels. */
  datatype View = View(live: set<SubId>, replay: seq<Event>, channels: map<SubId, seq<Event>>, closed: set<SubId>)

  function ViewOf(h: State): View {
    View(LiveSubs(h), Events(h.log, h.replay), map sid | sid in h.subs :: Events(h.log, h.subs[sid].buffer),
         set sid | sid in h.subs && h.subs[sid].closed)
  }

  lemma EventsAppend(log: seq<Event>, tags: seq<nat>, tag: nat)
    requires tag < |log|
    ensures Events(log, tags + [tag]) == Events(log, tags) + [log[tag]]
  {
  }

  lemma EventsOfLongerLog(log: seq<Event>, e: Event, tags: seq<nat>)
    requires forall k :: 0 <= k < |tags| ==> tags[k] < |log|
    ensures Events(log + [e], tags) == Events(log, tags)
  {
  }

  lemma JoiningAddsAChannel(h: State, h': State, sid: SubId, sub: Sub)
    requires sid !in h.subs && h' == h.(subs := h.subs[sid := sub]) && sub.membership == Live && !sub.closed
    ensures LiveSubs(h') == LiveSubs(h) + {sid} && ViewOf(h').closed == ViewOf(h).closed
    ensures ViewOf(h').channels == ViewOf(h).channels[sid := Events(h.log, sub.buffer)]
  {
  }

  /** What Subscribe does to the object is a step of the protocol. */
  lemma SubscribeIsAStep(h: State, sid: SubId, withReplay: bool) returns (h': State)
    requires ReplayInv(h) && !h.panicked && sid !in h.subs
    ensures Next(h, h')
    ensures
      var v := ViewOf(h);
      ViewOf(h') == v.(live := v.live + {sid}, channels := v.channels[sid := if withReplay then v.replay else []])
  {
    var sub := NewSub(h, withReplay);
    h' := h.(subs := h.subs[sid := sub]);
    assert Subscribe(h, h', sid, withReplay);
    NewSubIs(h, withReplay);
    JoiningAddsAChannel(h, h', sid, sub);
    assert Events(h.log, []) == [];
  }

  lemma LeavingLeavesTheOthers(h: State, h': State, sid: SubId)
    requires sid in h.subs && h'.subs == h.subs[sid := h.subs[sid].(membership := LeftAt(|h.log|))]
    ensures LiveSubs(h') == LiveSubs(h) - {sid}
  {
    forall x: SubId ensures x in LiveSubs(h') <==> x in LiveSubs(h) - {sid} {
      if x in h.subs && x != sid {
        assert h'.subs[x] == h.subs[x];
      }
    }
  }

  lemma LeavingKeepsTheChannels(h: State, h': State, sid: SubId)
    requires sid in h.subs && h'.subs == h.subs[sid := h.subs[sid].(membership := LeftAt(|h.log|))] && h'.log == h.log
    ensures ViewOf(h').channels == ViewOf(h).channels && ViewOf(h').closed == ViewOf(h).closed
  {
  }

  lemma LeavingIsAStep(h: State, sid: SubId) returns (h': State)
    requires !h.panicked && sid in h.subs && h.subs[sid].membership == Live
    ensures Next(h, h') && h'.log == h.log && h'.subs == h.subs[sid := h.subs[sid].(membership := LeftAt(|h.log|))]
    ensures h'.replay == if LiveSubs(h) == {sid} then [] else h.replay
  {
    var left := h.(subs := h.subs[sid := h.subs[sid].(membership := LeftAt(|h.log|))]);
    h' := if LiveSubs(h) == {sid} then left.(replay := [], droppedAt := |h.log|) else left;
    assert Unsubscribe(h, h', sid);
  }

  /** What the critical section of Unsubscribe does is a step. */
  lemma UnsubscribeIsAStep(h: State, sid: SubId) returns (h': State)
    requires !h.panicked && sid in h.subs
    ensures Next(h, h')
    ensures
      var v := ViewOf(h);
      ViewOf(h') == v.(live := v.live - {sid}, replay := if v.live == {sid} then [] else v.replay)
  {
    if h.subs[sid].membership == Live {
      h' := LeavingIsAStep(h, sid);
      LeavingLeavesTheOthers(h, h', sid);
      LeavingKeepsTheChannels(h, h', sid);
    } else {
      h' := h;
      assert Unsubscribe(h, h', sid);
      assert sid !in LiveSubs(h);
    }
  }

  /** Closing the channel of a subscriber that has left is a step. */
  lemma CloseIsAStep(h: State, sid: SubId) returns (h': State)
    requires Inv(h) && !h.panicked && sid in h.subs && sid !in ViewOf(h).live
    ensures Next(h, h') && ViewOf(h') == ViewOf(h).(closed := ViewOf(h).closed + {sid})
  {
    h' := h.(subs := h.subs[sid := h.subs[sid].(closed := true)]);
    assert Close(h, h', sid);
    assert LiveSubs(h') == LiveSubs(h) && ViewOf(h').closed == ViewOf(h).closed + {sid};
    assert ViewOf(h').channels == ViewOf(h).channels;
  }

  /** The critical section of Publish is a step: the event is recorded, and sends are owed to the live subscribers. */
  lemma RecordIsAStep(h: State, e: Event) returns (h': State)
    requires Inv(h) && !h.panicked
    ensures Next(h, h') && h'.log == h.log + [e] && |h.log| in h'.owed && h'.owed[|h.log|] == ViewOf(h).live
    ensures ViewOf(h') == ViewOf(h).(replay := LastN(ViewOf(h).replay + [e], 32))
  {
    h' := h.(log := h.log + [e], replay := LastN(h.replay + [|h.log|], REPLAY_SIZE), owed := h.owed[|h.log| := LiveSubs(h)]);
    assert PublishBegin(h, h', e);
    EventsOfLongerLog(h.log, e, h.replay);
    EventsAppend(h'.log, h.replay, |h.log|);
    assert ViewOf(h').replay == LastN(ViewOf(h).replay + [e], 32);
    forall sid | sid in h.subs ensures Events(h'.log, h.subs[sid].buffer) == Events(h.log, h.subs[sid].buffer) {
      BufferInRange(h, sid);
      EventsOfLongerLog(h.log, e, h.subs[sid].buffer);
    }
    assert ViewOf(h').channels == ViewOf(h).channels;
  }

  lemma BufferInRange(h: State, sid: SubId)
    requires SubsInv(h) && sid in h.subs
    ensures forall k :: 0 <= k < |h.subs[sid].buffer| ==> h.subs[sid].buffer[k] < |h.log|
  {
    assert SubOk(h.subs[sid], |h.log|);
  }

  /** One send that is owed is a step: a full channel drops the event, a closed one panics. */
  lemma SendIsAStep(h: State, t: nat, sid: SubId) returns (h': State)
    requires Inv(h) && !h.panicked && t in h.owed && sid in h.owed[t]
    ensures sid in h.subs && t < |h.log| && Next(h, h')
    ensures h'.panicked <==> sid in ViewOf(h).closed
    ensures
      var v := ViewOf(h);
      ViewOf(h') == if sid in v.closed || |v.channels[sid]| >= 32 then v
                    else v.(channels := v.channels[sid := v.channels[sid] + [h.log[t]]])
  {
    assert OwedOk(h, t, sid);
    h' := if h.subs[sid].closed then h.(panicked := true)
          else h.(owed := h.owed[t := h.owed[t] - {sid}], subs := h.subs[sid := Offer(h.subs[sid], t)]);
    assert Send(h, h', t, sid);
    EventsAppend(h.log, h.subs[sid].buffer, t);
    assert LiveSubs(h') == LiveSubs(h) && ViewOf(h').closed == ViewOf(h).closed;
  }

  /** A Publish that has made all its sends ends, and a client reads its channel from the front. */
  lemma EndingAndReadingAreSteps(h: State, t: nat, sid: SubId)
    requires !h.panicked
    ensures t in h.owed && h.owed[t] == {} ==> Next(h, h.(owed := h.owed - {t}))
    ensures sid in h.subs && |h.subs[sid].buffer| > 0 ==>
              exists h' :: Next(h, h') && h'.owed == h.owed && ViewOf(h').live == ViewOf(h).live
                && sid in h'.subs && h'.subs[sid].buffer == h.subs[sid].buffer[1..]
  {
    assert t in h.owed && h.owed[t] == {} ==> PublishEnd(h, h.(owed := h.owed - {t}), t);
    if sid in h.subs && |h.subs[sid].buffer| > 0 {
      var h' := h.(subs := h.subs[sid := h.subs[sid].(buffer := h.subs[sid].buffer[1..])]);
      assert Take(h, h', sid);
      assert LiveSubs(h') == LiveSubs(h);
    }
  }
}
