/** What the scheduler can always do: a tick starts what is due, and every run can come to its end. */
module SchedulerProgress {
  import opened SchedulerProtocol
  import opened SchedulerTheorems
  import opened Sequences
  import opened Runs

  // ------------------------------------------------------------ what a tick starts

  /** Stored, enabled, its NextRun not in the future, and no run of it in flight. */
  ghost predicate DueAndIdle(s: State, x: Id) {
    && x in s.table && x in s.objects && s.objects[x].enabled && s.objects[x].nextRun <= s.clock
    && x !in s.inflight
  }

  ghost predicate NewRun(s: State, t: State, x: Id) {
    exists r :: r in t.runs && r !in s.runs && t.runs[r].id == x
  }

  /** What holds while the ticker alone moves on from s. */
  ghost function TickingFrom(s: State): State -> bool {
    (t: State) =>
      && t.objects == s.objects && t.table == s.table && t.clock == s.clock && s.inflight <= t.inflight
      && (forall r :: r in t.runs ==> (r in s.runs && t.runs[r] == s.runs[r]) || DueAndIdle(s, t.runs[r].id))
      && match t.ticker
         case Resting => true
         case Visiting(at, due) => forall id :: id in due ==> Due(s, id, s.clock)
         case Claiming(at, x, due) => DueAndIdle(s, x) && forall id :: id in due ==> Due(s, id, s.clock)
  }

  lemma TickingIsKept(s: State, t: State, t': State)
    requires TickingFrom(s)(t) && TickerStep(t, t')
    ensures TickingFrom(s)(t')
  {
    if due :| TickStart(t, t', due) {
      assert forall id :: id in due ==> Due(t, id, t.clock);
    } else if TickLoad(t, t') {
      assert t.ticker.due[0] in t.ticker.due;
      assert forall y :: y in t.ticker.due[1..] ==> y in t.ticker.due;
    }
  }

  lemma OnlyDueIsStarted(s: State, t: State, x: Id)
    requires s.ticker == Resting && Leads(TickerStep, s, t) && NewRun(s, t, x)
    ensures DueAndIdle(s, x)
  {
    forall u, u' | TickingFrom(s)(u) && TickerStep(u, u') ensures TickingFrom(s)(u') {
      TickingIsKept(s, u, u');
    }
    InvariantHoldsAfter(TickerStep, TickingFrom(s), s, t);
  }

  /** The ticker works through its list; on the way it starts x. */
  lemma {:induction false} TickReaches(s: State, x: Id) returns (t: State)
    requires s.ticker.Visiting? && x in s.ticker.due && x !in s.inflight
    ensures Leads(TickerStep, s, t) && NewRun(s, t, x)
    decreases if s.ticker.Visiting? then |s.ticker.due| else 0
  {
    var id, rest := s.ticker.due[0], s.ticker.due[1..];
    LeadsToItself(TickerStep, s);
    if id in s.inflight {
      var u := s.(ticker := Visiting(s.ticker.at, rest));
      assert TickLoad(s, u);
      LeadsOn(TickerStep, s, s, u);
      t := TickReaches(u, x);
      LeadsTransitively(TickerStep, s, u, t);
    } else {
      var u := s.(ticker := Claiming(s.ticker.at, id, rest));
      assert TickLoad(s, u);
      LeadsOn(TickerStep, s, s, u);
      var r := FreshNat(s.runs.Keys);
      var v := u.(inflight := u.inflight + {id}, runs := u.runs[r := Run(id, Spawned)], ticker := Visiting(s.ticker.at, rest));
      assert TickStore(u, v, r);
      LeadsOn(TickerStep, s, u, v);
      if id == x {
        t := v;
        assert r in t.runs && r !in s.runs && t.runs[r].id == x;
      } else {
        t := TickReaches(v, x);
        LeadsTransitively(TickerStep, s, v, t);
        assert NewRun(s, t, x) by {
          var q :| q in t.runs && q !in v.runs && t.runs[q].id == x;
        }
      }
    }
  }

  lemma DueIsStarted(s: State, x: Id) returns (t: State)
    requires s.ticker == Resting && DueAndIdle(s, x)
    ensures Leads(TickerStep, s, t) && NewRun(s, t, x)
  {
    var due := Listed(set id | id in s.table && Due(s, id, s.clock));
    var u := s.(ticker := Visiting(s.clock, due));
    assert TickStart(s, u, due);
    t := TickReaches(u, x);
    LeadsToItself(TickerStep, s);
    LeadsOn(TickerStep, s, s, u);
    LeadsTransitively(TickerStep, s, u, t);
  }

  /**
    Left to itself, a resting ticker can start a run of a schedule exactly when the schedule is
    stored, enabled, due and idle.
   */
  lemma TickStartsIff(s: State, x: Id)
    requires s.ticker == Resting
    ensures (exists t :: Leads(TickerStep, s, t) && NewRun(s, t, x)) <==> DueAndIdle(s, x)
  {
    if DueAndIdle(s, x) {
      var t := DueIsStarted(s, x);
    }
    if t :| Leads(TickerStep, s, t) && NewRun(s, t, x) {
      OnlyDueIsStarted(s, t, x);
    }
  }

  // ------------------------------------------------------------ how a run ends

  /** A dispatch slot can always be freed. */
  lemma SlotCanBeFreed(s: State) returns (t: State)
    requires SlotInv(s)
    ensures Leads(Next, s, t) && t.slots < 10 && SlotInv(t) && t.active <= s.active
    ensures t == s.(slots := t.slots, active := t.active)
  {
    LeadsToItself(Next, s);
    t := s;
    if s.slots == 10 {
      var u := s;
      if |s.active| == 10 {
        var d :| d in s.active;
        u := s.(active := s.active - {d});
        assert DispatchEnd(s, u, d);
        assert OtherStep(s, u);
        LeadsOn(Next, s, s, u);
      }
      t := u.(slots := u.slots - 1);
      assert SlotFree(u, t);
      LeadsOn(Next, s, u, t);
    }
  }

  lemma RunEnds(s: State, r: nat) returns (t: State)
    requires r in s.runs && s.runs[r].phase == Ending
    ensures Leads(Next, s, t) && r !in t.runs && s.runs[r].id !in t.inflight
    ensures t.objects == s.objects && t.active == s.active
  {
    t := s.(inflight := s.inflight - {s.runs[r].id}, runs := s.runs - {r});
    assert RunEnd(s, t, r) && RunStep(s, t, r);
    LeadsToItself(Next, s);
    LeadsOn(Next, s, s, t);
  }

  /** After the scan the webhook, if there is one, gets its dispatch, and the run ends. */
  lemma RunReportsAndEnds(s: State, r: nat) returns (t: State)
    requires SlotInv(s) && r in s.runs && s.runs[r].phase == Reporting
    ensures Leads(Next, s, t) && r !in t.runs && s.runs[r].id !in t.inflight && t.objects == s.objects
    ensures exists d :: d in t.active && d !in s.active
  {
    var u := SlotCanBeFreed(s);
    var d := FreshNat(s.active);
    var v := u.(runs := u.runs[r := Run(u.runs[r].id, Ending)], slots := u.slots + 1, active := u.active + {d});
    assert RunReport(u, v, r, d) && RunStep(u, v, r);
    LeadsOn(Next, s, u, v);
    t := RunEnds(v, r);
    LeadsTransitively(Next, s, v, t);
    assert d in t.active && d !in s.active;
  }

  lemma RunScansAndEnds(s: State, r: nat) returns (t: State)
    requires SlotInv(s) && r in s.runs && s.runs[r].phase == Advanced && s.runs[r].id in s.objects
    ensures Leads(Next, s, t) && r !in t.runs && s.runs[r].id !in t.inflight && t.objects == s.objects
    ensures s.objects[s.runs[r].id].webhook ==> exists d :: d in t.active && d !in s.active
  {
    var id := s.runs[r].id;
    var u := s.(runs := s.runs[r := Run(id, if s.objects[id].webhook then Reporting else Ending)]);
    assert RunScanned(s, u, r) && RunStep(s, u, r);
    LeadsToItself(Next, s);
    LeadsOn(Next, s, s, u);
    if s.objects[id].webhook {
      t := RunReportsAndEnds(u, r);
    } else {
      t := RunEnds(u, r);
    }
    LeadsTransitively(Next, s, u, t);
  }

  /** A run that is just spawned for a stored schedule reads the clock and writes NextRun. */
  lemma RunStarts(s: State, r: nat) returns (t: State)
    requires r in s.runs && s.runs[r].phase == Spawned && s.runs[r].id in s.table && s.runs[r].id in s.objects
    ensures Leads(Next, s, t) && r in t.runs && t.runs[r] == Run(s.runs[r].id, Advanced)
    ensures t.slots == s.slots && t.active == s.active && s.runs[r].id in t.objects
    ensures
      var before, after := s.objects[s.runs[r].id], t.objects[s.runs[r].id];
      after == before.(nextRun := s.clock +
        if before.interval == Hourly then 3600 else if before.interval == Weekly then 604800 else 86400)
  {
    var id := s.runs[r].id;
    var a := s.(runs := s.runs[r := Run(id, Loaded)]);
    assert RunGet(s, a, r) && RunStep(s, a, r);
    var next := s.clock + IntervalDur(s.objects[id].interval);
    var b := a.(runs := a.runs[r := Run(id, Started(a.clock, next))], lastStart := a.lastStart[id := a.clock]);
    assert RunReadClock(a, b, r) && RunStep(a, b, r);
    t := b.(runs := b.runs[r := Run(id, Advanced)], objects := b.objects[id := b.objects[id].(nextRun := next)]);
    assert RunAdvance(b, t, r) && RunStep(b, t, r);
    LeadsToItself(Next, s);
    LeadsOn(Next, s, s, a);
    LeadsOn(Next, s, a, b);
    LeadsOn(Next, s, b, t);
  }

  /**
    A run spawned for a stored schedule can complete: NextRun is then an interval after the start,
    a configured webhook has its dispatch, and the schedule is no longer in flight.
   */
  lemma SpawnedRunCanComplete(run: seq<State>, i: nat, r: nat)
    requires IsRun(run) && i < |run| && r in run[i].runs
    requires run[i].runs[r].phase == Spawned && run[i].runs[r].id in run[i].table
    ensures
      var s, id := run[i], run[i].runs[r].id;
      && id in s.objects
      && exists t :: Leads(Next, s, t) && Completed(s, t, r, id)
  {
    EveryStateIsGood(run, i);
    var s, id := run[i], run[i].runs[r].id;
    var u := RunStarts(s, r);
    var t := RunScansAndEnds(u, r);
    LeadsTransitively(Next, s, u, t);
    assert Completed(s, t, r, id);
  }

  ghost predicate Completed(s: State, t: State, r: nat, id: Id) {
    && r !in t.runs && id !in t.inflight && id in s.objects && id in t.objects
    && t.objects[id].nextRun == s.clock +
         (if s.objects[id].interval == Hourly then 3600 else if s.objects[id].interval == Weekly then 604800 else 86400)
    && (s.objects[id].webhook ==> exists d :: d in t.active && d !in s.active)
  }

  /** A run whose schedule was deleted before it looked it up ends at once. */
  lemma OrphanedRunEnds(s: State, r: nat) returns (t: State)
    requires r in s.runs && s.runs[r].phase == Spawned && s.runs[r].id !in s.table
    ensures Leads(Next, s, t) && r !in t.runs && s.runs[r].id !in t.inflight && t.objects == s.objects
  {
    var u := s.(runs := s.runs[r := Run(s.runs[r].id, Ending)]);
    assert RunGet(s, u, r) && RunStep(s, u, r);
    LeadsToItself(Next, s);
    LeadsOn(Next, s, s, u);
    t := RunEnds(u, r);
    LeadsTransitively(Next, s, u, t);
  }

  /** The API may add, change and delete schedules, and time may pass, at any moment. */
  lemma ApiCallsAreSteps(s: State, id: Id, sch: Schedule, later: int)
    requires s.clock <= later
    ensures id !in s.objects ==> Next(s, s.(objects := s.objects[id := sch], table := s.table + {id}))
    ensures id in s.table && id in s.objects ==> Next(s, s.(objects := s.objects[id := sch]))
    ensures Next(s, s.(table := s.table - {id})) && Next(s, s.(clock := later))
  {
    assert id !in s.objects ==> AddSchedule(s, s.(objects := s.objects[id := sch], table := s.table + {id}), id, sch);
    assert id in s.table && id in s.objects ==> UpdateSchedule(s, s.(objects := s.objects[id := sch]), id, sch);
    assert DeleteSchedule(s, s.(table := s.table - {id}), id) && ClockStep(s, s.(clock := later));
  }
}
