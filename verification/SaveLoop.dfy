/**
  The schedule store's debounced persistence as a transition system: API calls change memory
  under the lock and then, some of them, put a token in the one-slot dirty channel; the saver
  takes the token, drains the channel and writes a snapshot; Close stops the saver and saves.
 */
module SaveLoop {
  import opened Sequences
  import opened Runs
  import opened SchedulerProtocol

  const MAX_LOG: nat := 100

  datatype ScheduleRecord = ScheduleRecord(
    interval: Interval, enabled: bool, webhookURL: string, webhookSecret: string, hasSecret: bool, nextRun: int)

  datatype Delivery = Delivery(schedule: Id, attempt: nat, success: bool)

  datatype Content = Content(schedules: map<Id, ScheduleRecord>, deliveries: seq<Delivery>)

  /** Update stands for every write to a stored schedule. */
  datatype Change =
    | Add(id: Id, sch: ScheduleRecord)
    | Update(id: Id, sch: ScheduleRecord)
    | Delete(id: Id)
    | Log(delivery: Delivery)

  function Apply(c: Content, ch: Change): Content {
    match ch
    case Add(id, sch) => c.(schedules := c.schedules[id := sch])
    case Update(id, sch) => if id in c.schedules then c.(schedules := c.schedules[id := sch]) else c
    case Delete(id) => c.(schedules := c.schedules - {id})
    case Log(d) => c.(deliveries := LastN(c.deliveries + [d], MAX_LOG))
  }

  /** Only insertions and log records signal the saver. */
  predicate Marks(ch: Change) {
    ch.Add? || ch.Log?
  }

  datatype Saver = Waiting | Draining | Saving | Stopped

  /**
    memory and disk are the program's; changes are all changes since the load, tried is how many
    of them the last attempted snapshot held, saved how many the last successful one.
   */
  datatype State = State(
    loaded: Content,
    memory: Content,
    disk: Content,
    changes: seq<Change>,
    tried: nat,
    saved: nat,
    token: bool,
    aboutToMark: nat,
    saver: Saver,
    stopping: bool)

  // ---------------------------------------------------------------- steps

  ghost predicate Init(s: State) {
    && s.memory == s.loaded == s.disk && s.changes == [] && s.tried == s.saved == 0
    && !s.token && s.aboutToMark == 0 && s.saver == Waiting && !s.stopping
  }

  ghost predicate Mutate(s: State, s': State, ch: Change) {
    s' == s.(memory := Apply(s.memory, ch), changes := s.changes + [ch],
             aboutToMark := s.aboutToMark + (if Marks(ch) then 1 else 0))
  }

  /** The non-blocking send into the one-slot channel. */
  ghost predicate Mark(s: State, s': State) {
    s.aboutToMark > 0 && s' == s.(aboutToMark := s.aboutToMark - 1, token := true)
  }

  ghost predicate Take(s: State, s': State) {
    s.saver == Waiting && s.token && s' == s.(token := false, saver := Draining)
  }

  ghost predicate Drain(s: State, s': State) {
    s.saver == Draining && s.token && s' == s.(token := false)
  }

  ghost predicate DrainEnd(s: State, s': State) {
    s.saver == Draining && !s.token && s' == s.(saver := Saving)
  }

  function Written(s: State, ok: bool): State {
    if ok then s.(disk := s.memory, tried := |s.changes|, saved := |s.changes|) else s.(tried := |s.changes|)
  }

  /** The snapshot and the write happen under one read lock. */
  ghost predicate Save(s: State, s': State, ok: bool) {
    s.saver == Saving && s' == Written(s, ok).(saver := Waiting)
  }

  ghost predicate StopRequest(s: State, s': State) {
    s' == s.(stopping := true)
  }

  /** The saver may stop even if a token is waiting. */
  ghost predicate SaverStops(s: State, s': State) {
    s.saver == Waiting && s.stopping && s' == s.(saver := Stopped)
  }

  ghost predicate CloseSave(s: State, s': State, ok: bool) {
    s.saver == Stopped && s' == Written(s, ok)
  }

  ghost predicate Next(s: State, s': State) {
    || (exists ch :: Mutate(s, s', ch)) || Mark(s, s') || Take(s, s') || Drain(s, s') || DrainEnd(s, s')
    || (exists ok :: Save(s, s', ok)) || StopRequest(s, s') || SaverStops(s, s')
    || (exists ok :: CloseSave(s, s', ok))
  }

  ghost predicate IsRun(run: seq<State>) {
    IsPath(Next, run) && Init(run[0])
  }

  // ------------------------------------------------------------ invariant

  ghost function Replay(c: Content, changes: seq<Change>): Content {
    if changes == [] then c else Apply(Replay(c, changes[..|changes| - 1]), changes[|changes| - 1])
  }

  /** A save is on its way. */
  ghost predicate SaveComing(s: State) {
    s.token || s.saver == Draining || s.saver == Saving || s.aboutToMark > 0
  }

  /** Memory and disk are what the changes make of the loaded content. */
  ghost predicate ContentInv(s: State) {
    && s.saved <= s.tried <= |s.changes|
    && s.memory == Replay(s.loaded, s.changes)
    && s.disk == Replay(s.loaded, s.changes[..s.saved])
  }

  /** Change k signalled the saver, or will, and no snapshot has held it. */
  ghost predicate Untried(s: State, k: int) {
    s.tried <= k < |s.changes| && Marks(s.changes[k])
  }

  ghost predicate WakeInv(s: State) {
    (exists k :: Untried(s, k)) ==> SaveComing(s) || s.saver == Stopped
  }

  ghost predicate Inv(s: State) {
    ContentInv(s) && WakeInv(s)
  }

  lemma MutateKeepsContent(s: State, s': State, ch: Change)
    requires ContentInv(s) && Mutate(s, s', ch)
    ensures ContentInv(s')
  {
    var all := s'.changes;
    assert all[..|all| - 1] == s.changes && all[..s.saved] == s.changes[..s.saved];
  }

  lemma WriteKeepsContent(s: State, ok: bool)
    requires ContentInv(s)
    ensures ContentInv(Written(s, ok))
  {
    assert s.changes[..|s.changes|] == s.changes;
  }

  lemma NextKeepsContent(s: State, s': State)
    requires ContentInv(s) && Next(s, s')
    ensures ContentInv(s')
  {
    if ch :| Mutate(s, s', ch) {
      MutateKeepsContent(s, s', ch);
    } else if ok :| Save(s, s', ok) || CloseSave(s, s', ok) {
      WriteKeepsContent(s, ok);
    }
  }

  lemma NextKeepsWake(s: State, s': State)
    requires s.tried <= |s.changes| && WakeInv(s) && Next(s, s')
    ensures WakeInv(s')
  {
    if k :| Untried(s', k) {
      if ch :| Mutate(s, s', ch) {
        assert k < |s.changes| ==> Untried(s, k);
      } else if (exists ok :: Save(s, s', ok)) || (exists ok :: CloseSave(s, s', ok)) {
      } else {
        assert Untried(s, k);
      }
    }
  }

  lemma NextKeepsInv(s: State, s': State)
    requires Inv(s) && Next(s, s')
    ensures Inv(s')
  {
    NextKeepsContent(s, s');
    NextKeepsWake(s, s');
  }

  lemma RunKeepsInv(run: seq<State>, i: nat)
    requires IsRun(run) && i < |run|
    ensures Inv(run[i])
  {
    forall s, s' | Inv(s) && Next(s, s') ensures Inv(s') {
      NextKeepsInv(s, s');
    }
    InvariantHolds(Next, Inv, run, 0, i);
  }

  // ------------------------------------------------------- no lost wake-up

  /**
    No lost wake-up, whether saves succeed or fail: an insertion or log record that no snapshot
    has held yet has a token queued, a saver about to snapshot or a caller about to mark, unless
    Close has taken over.
   */
  lemma NoLostWakeUp(run: seq<State>, i: nat, k: nat)
    requires IsRun(run) && i < |run| && run[i].tried <= k < |run[i].changes| && Marks(run[i].changes[k])
    ensures SaveComing(run[i]) || run[i].saver == Stopped
  {
    RunKeepsInv(run, i);
    assert Untried(run[i], k);
  }

  /** The saver waits and nothing will wake it. */
  ghost predicate AtRest(s: State) {
    s.saver == Waiting && !SaveComing(s)
  }

  ghost predicate OnDisk(s: State, k: nat) {
    k < s.saved
  }

  /** Some snapshot held change k, but only writes that failed. */
  ghost predicate WriteFailed(s: State, k: nat) {
    s.saved <= k < s.tried
  }

  /** At rest, an insertion or log record is off disk exactly when the writes that held it failed. */
  lemma MarkedOffDiskAtRestIff(run: seq<State>, i: nat, k: nat)
    requires IsRun(run) && i < |run| && AtRest(run[i]) && k < |run[i].changes| && Marks(run[i].changes[k])
    ensures !OnDisk(run[i], k) <==> WriteFailed(run[i], k)
  {
    if run[i].tried <= k {
      NoLostWakeUp(run, i, k);
    }
  }

  ghost predicate AllOnDisk(s: State) {
    forall k: nat :: k < |s.changes| ==> OnDisk(s, k)
  }

  /** An update or deletion came after the last snapshot. */
  ghost predicate UnmarkedSinceSnapshot(s: State) {
    exists k :: s.tried <= k < |s.changes| && !Marks(s.changes[k])
  }

  /**
    At rest, all changes are on disk exactly when the last snapshot was written, and no update
    or deletion came after it; then disk equals memory.
   */
  lemma AllOnDiskAtRestIff(run: seq<State>, i: nat)
    requires IsRun(run) && i < |run| && AtRest(run[i])
    ensures AllOnDisk(run[i]) <==> (forall k: nat :: !WriteFailed(run[i], k)) && !UnmarkedSinceSnapshot(run[i])
    ensures AllOnDisk(run[i]) ==> run[i].disk == run[i].memory
  {
    RunKeepsInv(run, i);
    var s := run[i];
    assert s.tried < |s.changes| ==> UnmarkedSinceSnapshot(s) by {
      if s.tried < |s.changes| {
        assert Marks(s.changes[s.tried]) ==> Untried(s, s.tried);
      }
    }
    assert s.saved < |s.changes| ==> !OnDisk(s, s.saved);
    assert s.saved < s.tried ==> WriteFailed(s, s.saved);
    assert s.saved == |s.changes| ==> s.changes[..s.saved] == s.changes;
  }

  /** Rest ends only with a marked change, or with the saver's stop. */
  lemma WhatEndsRest(s: State, s': State)
    requires AtRest(s) && Next(s, s') && !AtRest(s')
    ensures (exists ch :: Mutate(s, s', ch) && Marks(ch)) || SaverStops(s, s')
    ensures s'.disk == s.disk && s'.saved == s.saved
  {
  }

  /** A failed write is not tried again: the store comes to rest with the change off disk. */
  lemma FailedSaveIsNotRetried(run: seq<State>, i: nat, ch: Change)
    requires IsRun(run) && i < |run| && AtRest(run[i]) && Marks(ch)
    ensures exists t ::
      && Leads(Next, run[i], t) && AtRest(t) && t.changes == run[i].changes + [ch]
      && t.memory == Apply(run[i].memory, ch) && t.disk == run[i].disk && WriteFailed(t, |run[i].changes|)
  {
    var s := run[i];
    RunKeepsInv(run, i);
    var a := s.(memory := Apply(s.memory, ch), changes := s.changes + [ch], aboutToMark := 1);
    var b := a.(aboutToMark := 0, token := true);
    var c := b.(token := false, saver := Draining);
    var d := c.(saver := Saving);
    var t := d.(tried := |d.changes|, saver := Waiting);
    assert Mutate(s, a, ch) && Mark(a, b) && Take(b, c) && DrainEnd(c, d) && Save(d, t, false);
    LeadsToItself(Next, s);
    LeadsOn(Next, s, s, a);
    LeadsOn(Next, s, a, b);
    LeadsOn(Next, s, b, c);
    LeadsOn(Next, s, c, d);
    LeadsOn(Next, s, d, t);
  }

  /** Updates and deletions signal nobody: the store can rest with a deletion missing on disk. */
  lemma DeletionCanStayUnsaved(s: State, id: Id)
    requires AtRest(s) && s.disk == s.memory && id in s.memory.schedules
    ensures exists s' :: Next(s, s') && AtRest(s') && id in s'.disk.schedules && id !in s'.memory.schedules
  {
    var s' := s.(memory := Apply(s.memory, Delete(id)), changes := s.changes + [Delete(id)]);
    assert Mutate(s, s', Delete(id));
  }

  // ----------------------------------------------- what can always happen

  /** Any change of the store, in any state, is a step; an insertion or a log record will mark. */
  lemma ChangeIsAStep(s: State, ch: Change) returns (s': State)
    ensures Next(s, s') && s'.memory == Apply(s.memory, ch) && s'.disk == s.disk && s'.saver == s.saver
    ensures s'.aboutToMark == s.aboutToMark + if ch.Add? || ch.Log? then 1 else 0
  {
    s' := s.(memory := Apply(s.memory, ch), changes := s.changes + [ch],
             aboutToMark := s.aboutToMark + (if Marks(ch) then 1 else 0));
    assert Mutate(s, s', ch);
  }

  /** A saver that has been woken can complete its save. */
  lemma SaverCompletes(s: State) returns (t: State)
    requires s.saver == Draining || s.saver == Saving
    ensures Leads(Next, s, t) && t.saver == Waiting && t.memory == s.memory == t.disk && t.stopping == s.stopping
  {
    LeadsToItself(Next, s);
    var u := s;
    if s.saver == Draining && s.token {
      u := s.(token := false);
      assert Drain(s, u);
      LeadsOn(Next, s, s, u);
    }
    var v := u;
    if u.saver == Draining {
      v := u.(saver := Saving);
      assert DrainEnd(u, v);
      LeadsOn(Next, s, u, v);
    }
    t := Written(v, true).(saver := Waiting);
    assert Save(v, t, true);
    LeadsOn(Next, s, v, t);
  }

  /** Whenever a save is coming and Close has not taken over, the whole memory can reach the disk by it. */
  lemma ComingSaveCanComplete(s: State) returns (t: State)
    requires SaveComing(s) && s.saver != Stopped
    ensures Leads(Next, s, t) && t.memory == s.memory == t.disk && t.saver == Waiting && t.stopping == s.stopping
  {
    if s.saver == Waiting {
      LeadsToItself(Next, s);
      var u := s;
      if !s.token {
        u := s.(aboutToMark := s.aboutToMark - 1, token := true);
        assert Mark(s, u);
        LeadsOn(Next, s, s, u);
      }
      var v := u.(token := false, saver := Draining);
      assert Take(u, v);
      LeadsOn(Next, s, u, v);
      t := SaverCompletes(v);
      LeadsTransitively(Next, s, v, t);
    } else {
      t := SaverCompletes(s);
    }
  }

  /** In any state Close can be called, and can bring the whole memory to the disk. */
  lemma CloseCanFlush(s: State) returns (t: State)
    ensures Leads(Next, s, t) && t.memory == s.memory == t.disk && t.saver == Stopped
  {
    LeadsToItself(Next, s);
    var u := s;
    if s.saver == Draining || s.saver == Saving {
      u := SaverCompletes(s);
    }
    var v := u;
    if u.saver == Waiting {
      var w := u.(stopping := true);
      assert StopRequest(u, w);
      LeadsOn(Next, s, u, w);
      v := w.(saver := Stopped);
      assert SaverStops(w, v);
      LeadsOn(Next, s, w, v);
    }
    t := Written(v, true);
    assert CloseSave(v, t, true);
    LeadsOn(Next, s, v, t);
  }

  // ---------------------------------------------------- what reaches the disk

  /** A save that succeeds between two states. */
  ghost predicate SavedAt(run: seq<State>, k: int) {
    0 <= k < |run| - 1 && (Save(run[k], run[k + 1], true) || CloseSave(run[k], run[k + 1], true))
  }

  ghost predicate Grows(s: State, s': State) {
    s.changes <= s'.changes && s.saved <= s'.saved
  }

  lemma NextGrows(s: State, s': State)
    requires s.saved <= |s.changes| && Next(s, s')
    ensures Grows(s, s')
  {
  }

  ghost function GrownFrom(start: State): State -> bool {
    (s: State) => ContentInv(s) && Grows(start, s)
  }

  lemma RunGrows(run: seq<State>, i: nat, j: nat)
    requires IsRun(run) && i <= j < |run|
    ensures Grows(run[i], run[j])
  {
    RunKeepsInv(run, i);
    forall s, s' | GrownFrom(run[i])(s) && Next(s, s') ensures GrownFrom(run[i])(s') {
      NextKeepsContent(s, s');
      NextGrows(s, s');
    }
    InvariantHolds(Next, GrownFrom(run[i]), run, i, j);
  }

  /**
    Every change, marked or not, is on disk no later than the next successful save, and stays
    there.
   */
  lemma NextSaveCoversEverything(run: seq<State>, i: nat, k: nat, j: nat, c: nat)
    requires IsRun(run) && i <= k < j < |run| && SavedAt(run, k) && c < |run[i].changes|
    ensures OnDisk(run[j], c)
  {
    RunGrows(run, i, k);
    RunGrows(run, k + 1, j);
  }

  /** After a Close whose save succeeds, and with no further changes, disk equals memory. */
  lemma CloseFlushes(run: seq<State>, k: nat, j: nat)
    requires IsRun(run) && k < j < |run| && CloseSave(run[k], run[k + 1], true)
    requires run[j].changes == run[k].changes
    ensures run[j].disk == run[j].memory
  {
    RunGrows(run, k + 1, j);
    RunKeepsInv(run, j);
    assert run[j].changes[..run[j].saved] == run[j].changes;
  }

  // ---------------------------------------------------------- delivery log

  function Deliveries(changes: seq<Change>): seq<Delivery> {
    if changes == [] then []
    else
      var rest := Deliveries(changes[..|changes| - 1]);
      match changes[|changes| - 1]
      case Log(d) => rest + [d]
      case _ => rest
  }

  /** The log is always the last hundred records ever written. */
  lemma {:induction false} LogIsTheLastHundred(c: Content, changes: seq<Change>)
    requires |c.deliveries| <= MAX_LOG
    ensures Replay(c, changes).deliveries == LastN(c.deliveries + Deliveries(changes), 100)
  {
    if changes == [] {
      assert c.deliveries + [] == c.deliveries;
    } else {
      var init, last := changes[..|changes| - 1], changes[|changes| - 1];
      LogIsTheLastHundred(c, init);
      if last.Log? {
        var all := c.deliveries + Deliveries(init);
        assert c.deliveries + Deliveries(changes) == all + [last.delivery];
        assert LastN(LastN(all, MAX_LOG) + [last.delivery], MAX_LOG) == LastN(all + [last.delivery], MAX_LOG);
      }
    }
  }
}
