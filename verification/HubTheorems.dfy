/** What the hub guarantees on every run, and exactly when closing a channel is safe. */
module HubTheorems {
  import opened ScanEvents
  import opened Sequences
  import opened HubProtocol
  import opened Runs

  /** A finite run from any state that satisfies the invariant. */
  ghost predicate IsRun(run: seq<State>) {
    IsPath(Next, run) && Inv(run[0])
  }

  lemma InvIsKept()
    ensures Preserves(Next, Inv)
  {
    forall s, s' | Inv(s) && Next(s, s') ensures Inv(s') {
      NextKeepsInv(s, s');
    }
  }

  lemma InitIsOrdered(s: State)
    requires Init(s)
    ensures SerialInv(s)
  {
    assert Tags(0, 0) == [];
  }

  lemma RunKeepsInv(run: seq<State>, i: nat)
    requires IsRun(run) && i < |run|
    ensures Inv(run[i])
  {
    InvIsKept();
    InvariantHolds(Next, Inv, run, 0, i);
  }

  /** The replay buffer is the last min(32, n) of the n events published since it was dropped. */
  lemma ReplayIsTheRecentWindow(run: seq<State>, i: nat)
    requires IsRun(run) && i < |run|
    ensures run[i].droppedAt <= |run[i].log|
    ensures run[i].replay == LastN(Tags(run[i].droppedAt, |run[i].log|), 32)
  {
    RunKeepsInv(run, i);
  }

  /** A new subscriber that asks for replay finds the whole replay buffer in its channel. */
  lemma NewSubscriberGetsTheReplay(run: seq<State>, i: nat, s': State, sid: SubId)
    requires IsRun(run) && i < |run| && Subscribe(run[i], s', sid, true)
    ensures s'.subs[sid].buffer == run[i].replay && s'.subs[sid].history == run[i].replay
    ensures !s'.subs[sid].dropped
  {
    RunKeepsInv(run, i);
    NewSubIs(run[i], true);
  }

  /** No event enters a subscriber's channel twice, although sends run outside the lock. */
  lemma EachEventEntersAtMostOnce(run: seq<State>, i: nat, sid: SubId)
    requires IsRun(run) && i < |run| && sid in run[i].subs
    ensures Distinct(run[i].subs[sid].history)
    ensures forall k :: 0 <= k < |run[i].subs[sid].history| ==> run[i].subs[sid].history[k] < |run[i].log|
  {
    RunKeepsInv(run, i);
    assert SubOk(run[i].subs[sid], |run[i].log|);
  }

  // ------------------------------------------------------- after unsubscribing

  ghost predicate Gone(s: State, sid: SubId) {
    sid in s.subs && s.subs[sid].membership != Live
  }

  lemma StepKeepsGone(s: State, s': State, sid: SubId)
    requires Gone(s, sid) && Next(s, s')
    ensures Gone(s', sid) && s'.subs[sid].membership == s.subs[sid].membership && |s.log| <= |s'.log|
  {
  }

  ghost function GoneSince(start: State, sid: SubId): State -> bool {
    (s: State) => Gone(start, sid) && Gone(s, sid)
      && s.subs[sid].membership == start.subs[sid].membership && |start.log| <= |s.log|
  }

  lemma GoneStaysGone(run: seq<State>, i: nat, j: nat, sid: SubId)
    requires IsRun(run) && i <= j < |run| && Gone(run[i], sid)
    ensures Gone(run[j], sid) && run[j].subs[sid].membership == run[i].subs[sid].membership
    ensures |run[i].log| <= |run[j].log|
  {
    forall s, s' | GoneSince(run[i], sid)(s) && Next(s, s') ensures GoneSince(run[i], sid)(s') {
      StepKeepsGone(s, s', sid);
    }
    InvariantHolds(Next, GoneSince(run[i], sid), run, i, j);
  }

  /** A Publish that starts after an Unsubscribe never touches that subscriber's channel. */
  lemma NothingPublishedLaterArrives(run: seq<State>, i: nat, j: nat, sid: SubId)
    requires IsRun(run) && i <= j < |run| && Gone(run[i], sid)
    ensures sid in run[j].subs
    ensures forall t :: t in run[j].subs[sid].history ==> t < |run[i].log|
    ensures forall t :: t in run[j].owed && sid in run[j].owed[t] ==> t < |run[i].log|
  {
    GoneStaysGone(run, i, j, sid);
    RunKeepsInv(run, i);
    RunKeepsInv(run, j);
    assert SubOk(run[i].subs[sid], |run[i].log|);
    assert SubOk(run[j].subs[sid], |run[j].log|);
    forall t | t in run[j].owed && sid in run[j].owed[t] ensures t < |run[i].log| {
      assert OwedOk(run[j], t, sid);
    }
  }

  // ------------------------------------------------------- closing a channel

  /** Some Publish still owes sid a send. */
  ghost predicate Pending(s: State, sid: SubId) {
    exists t :: t in s.owed && sid in s.owed[t]
  }

  /** A send on sid's closed channel, which panics. */
  ghost predicate SendsToClosed(s: State, s': State, sid: SubId) {
    && !s.panicked && sid in s.subs && s.subs[sid].closed
    && exists t :: Send(s, s', t, sid)
  }

  ghost predicate CanHitClosed(s: State, sid: SubId) {
    exists t, t' :: Leads(Next, s, t) && SendsToClosed(t, t', sid)
  }

  lemma StepKeepsQuiet(s: State, s': State, sid: SubId)
    requires Gone(s, sid) && !Pending(s, sid) && Next(s, s')
    ensures Gone(s', sid) && !Pending(s', sid)
  {
    if e :| PublishBegin(s, s', e) {
      assert sid !in LiveSubs(s);
    }
  }

  ghost function QuietFor(sid: SubId): State -> bool {
    (s: State) => Gone(s, sid) && !Pending(s, sid)
  }

  lemma QuietStaysQuiet(s: State, t: State, sid: SubId)
    requires Gone(s, sid) && !Pending(s, sid) && Leads(Next, s, t)
    ensures !Pending(t, sid)
  {
    forall u, u' | QuietFor(sid)(u) && Next(u, u') ensures QuietFor(sid)(u') {
      StepKeepsQuiet(u, u', sid);
    }
    InvariantHoldsAfter(Next, QuietFor(sid), s, t);
  }

  /**
    Publish may send on a channel that Unsubscribe has closed. A close can be followed by such
    a send exactly when, at the close, some Publish still owes that subscriber a send.
   */
  lemma CloseIsSafeIffNothingIsOwed(s: State, s': State, sid: SubId)
    requires Inv(s) && !s.panicked && Close(s, s', sid)
    ensures CanHitClosed(s', sid) <==> Pending(s, sid)
  {
    if Pending(s, sid) {
      var t :| t in s.owed && sid in s.owed[t];
      assert Send(s', s'.(panicked := true), t, sid);
      LeadsToItself(Next, s');
      assert SendsToClosed(s', s'.(panicked := true), sid);
    } else if t, t' :| Leads(Next, s', t) && SendsToClosed(t, t', sid) {
      QuietStaysQuiet(s', t, sid);
    }
  }

  // ------------------------------------------------- serialized publishers

  ghost predicate IsSerialRun(run: seq<State>) {
    IsPath(SerialNext, run) && Init(run[0])
  }

  lemma SerialRunKeepsInv(run: seq<State>, i: nat)
    requires IsSerialRun(run) && i < |run|
    ensures SerialInv(run[i])
  {
    forall s, s' | SerialInv(s) && SerialNext(s, s') ensures SerialInv(s') {
      SerialNextKeepsInv(s, s');
    }
    InitIsOrdered(run[0]);
    InvariantHolds(SerialNext, SerialInv, run, 0, i);
  }

  /**
    When Publish calls for the job do not overlap, a subscriber's channel history is in
    publication order, and gap-free from its first replayed tag as long as it never filled.
   */
  lemma SerialDeliveryIsInOrder(run: seq<State>, i: nat, sid: SubId)
    requires IsSerialRun(run) && i < |run| && sid in run[i].subs
    ensures
      var s, sub := run[i], run[i].subs[sid];
      && Increasing(sub.history)
      && sub.start <= Offered(s, sid)
      && (!sub.dropped ==> sub.history == Tags(sub.start, Offered(s, sid)))
  {
    SerialRunKeepsInv(run, i);
    assert InOrder(run[i], sid);
  }
}
