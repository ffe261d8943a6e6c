/**
  The scheduler as a transition system: one ticker goroutine, one goroutine per run, webhook
  dispatches behind a ten-slot semaphore, and API calls, interleaved at every access to the
  in-flight set, the store and the semaphore.
 */
module SchedulerProtocol {

  type Id = nat

  const MAX_DISPATCHES: nat := 10

  datatype Interval = Hourly | Daily | Weekly | Other

  /** Seconds between runs; unknown presets count as daily. */
  function IntervalDur(i: Interval): (d: int)
    ensures d >= 3600
  {
    match i
    case Hourly => 3600
    case Weekly => 7 * 24 * 3600
    case Daily => 24 * 3600
    case Other => 24 * 3600
  }

  datatype Schedule = Schedule(enabled: bool, interval: Interval, webhook: bool, nextRun: int)

  /** at is the tick's clock reading, due the part of its snapshot still to be visited. */
  datatype Ticker =
    | Resting
    | Visiting(at: int, due: seq<Id>)
    | Claiming(at: int, id: Id, due: seq<Id>)   // the Load said "not busy"; the Store is next

  datatype Phase =
    | Spawned
    | Loaded                            // the schedule exists; the clock is read next
    | Started(start: int, next: int)    // about to advance NextRun
    | Advanced                          // scanning, then recording the outcome
    | Reporting                         // needs a dispatch slot
    | Ending

  datatype Run = Run(id: Id, phase: Phase)

  /** objects are all schedules ever added; lastStart records when each last read its start time. */
  datatype State = State(
    clock: int,
    objects: map<Id, Schedule>,
    table: set<Id>,
    inflight: set<Id>,
    ticker: Ticker,
    runs: map<nat, Run>,
    slots: nat,
    active: set<nat>,
    lastStart: map<Id, int>)

  // ---------------------------------------------------------------- steps

  ghost predicate Init(s: State) {
    && s.inflight == {} && s.ticker == Resting && s.runs == map[] && s.slots == 0 && s.active == {}
    && s.lastStart == map[] && s.table <= s.objects.Keys
  }

  predicate Due(s: State, id: Id, at: int) {
    id in s.table && id in s.objects && s.objects[id].enabled && !(s.objects[id].nextRun > at)
  }

  /** The tick lists each due schedule once. */
  ghost predicate DueList(s: State, at: int, due: seq<Id>) {
    && (forall i, j :: 0 <= i < j < |due| ==> due[i] != due[j])
    && (forall id :: id in due <==> Due(s, id, at))
  }

  ghost predicate TickStart(s: State, s': State, due: seq<Id>) {
    s.ticker == Resting && DueList(s, s.clock, due) && s' == s.(ticker := Visiting(s.clock, due))
  }

  ghost predicate TickLoad(s: State, s': State) {
    && s.ticker.Visiting? && |s.ticker.due| > 0
    && var id, rest := s.ticker.due[0], s.ticker.due[1..];
       s' == s.(ticker := if id in s.inflight then Visiting(s.ticker.at, rest) else Claiming(s.ticker.at, id, rest))
  }

  ghost predicate TickStore(s: State, s': State, r: nat) {
    && s.ticker.Claiming? && r !in s.runs
    && s' == s.(inflight := s.inflight + {s.ticker.id},
                runs := s.runs[r := Run(s.ticker.id, Spawned)],
                ticker := Visiting(s.ticker.at, s.ticker.due))
  }

  ghost predicate TickEnd(s: State, s': State) {
    s.ticker.Visiting? && s.ticker.due == [] && s' == s.(ticker := Resting)
  }

  ghost predicate TickerStep(s: State, s': State) {
    || (exists due :: TickStart(s, s', due))
    || TickLoad(s, s')
    || (exists r :: TickStore(s, s', r))
    || TickEnd(s, s')
  }

  ghost predicate RunGet(s: State, s': State, r: nat) {
    && r in s.runs && s.runs[r].phase == Spawned
    && var id := s.runs[r].id;
       s' == s.(runs := s.runs[r := Run(id, if id in s.table then Loaded else Ending)])
  }

  ghost predicate RunReadClock(s: State, s': State, r: nat) {
    && r in s.runs && s.runs[r].phase == Loaded && s.runs[r].id in s.objects
    && var id := s.runs[r].id;
       s' == s.(runs := s.runs[r := Run(id, Started(s.clock, s.clock + IntervalDur(s.objects[id].interval)))],
                lastStart := s.lastStart[id := s.clock])
  }

  ghost predicate RunAdvance(s: State, s': State, r: nat) {
    && r in s.runs && s.runs[r].phase.Started? && s.runs[r].id in s.objects
    && var id := s.runs[r].id;
       s' == s.(runs := s.runs[r := Run(id, Advanced)],
                objects := if id in s.table
                           then s.objects[id := s.objects[id].(nextRun := s.runs[r].phase.next)]
                           else s.objects)
  }

  /** The scan returns and the outcome is recorded. */
  ghost predicate RunScanned(s: State, s': State, r: nat) {
    && r in s.runs && s.runs[r].phase == Advanced && s.runs[r].id in s.objects
    && var id := s.runs[r].id;
       s' == s.(runs := s.runs[r := Run(id, if s.objects[id].webhook then Reporting else Ending)])
  }

  /** The send on the semaphore channel, then the dispatch goroutine. */
  ghost predicate RunReport(s: State, s': State, r: nat, d: nat) {
    && r in s.runs && s.runs[r].phase == Reporting && s.slots < MAX_DISPATCHES && d !in s.active
    && s' == s.(runs := s.runs[r := Run(s.runs[r].id, Ending)], slots := s.slots + 1, active := s.active + {d})
  }

  ghost predicate RunEnd(s: State, s': State, r: nat) {
    && r in s.runs && s.runs[r].phase == Ending
    && s' == s.(inflight := s.inflight - {s.runs[r].id}, runs := s.runs - {r})
  }

  ghost predicate RunStep(s: State, s': State, r: nat) {
    || RunGet(s, s', r) || RunReadClock(s, s', r) || RunAdvance(s, s', r) || RunScanned(s, s', r)
    || (exists d :: RunReport(s, s', r, d)) || RunEnd(s, s', r)
  }

  ghost predicate DispatchEnd(s: State, s': State, d: nat) {
    d in s.active && s' == s.(active := s.active - {d})
  }

  /** The deferred receive that frees a slot once its dispatch is over. */
  ghost predicate SlotFree(s: State, s': State) {
    s.slots > |s.active| && s' == s.(slots := s.slots - 1)
  }

  ghost predicate ClockStep(s: State, s': State) {
    s.clock <= s'.clock && s' == s.(clock := s'.clock)
  }

  ghost predicate AddSchedule(s: State, s': State, id: Id, sch: Schedule) {
    id !in s.objects && s' == s.(objects := s.objects[id := sch], table := s.table + {id})
  }

  ghost predicate UpdateSchedule(s: State, s': State, id: Id, sch: Schedule) {
    id in s.table && id in s.objects && s' == s.(objects := s.objects[id := sch])
  }

  ghost predicate DeleteSchedule(s: State, s': State, id: Id) {
    s' == s.(table := s.table - {id})
  }

  ghost predicate OtherStep(s: State, s': State) {
    || (exists d :: DispatchEnd(s, s', d)) || SlotFree(s, s') || ClockStep(s, s')
    || (exists id, sch :: AddSchedule(s, s', id, sch))
    || (exists id, sch :: UpdateSchedule(s, s', id, sch))
    || (exists id :: DeleteSchedule(s, s', id))
  }

  ghost predicate Next(s: State, s': State) {
    TickerStep(s, s') || (exists r :: RunStep(s, s', r)) || OtherStep(s, s')
  }

  // --------------------------------------------------------- mutual exclusion

  /** The in-flight set is exactly the set of schedules with a run, one run each. */
  ghost predicate RunsInv(s: State) {
    && (forall r :: r in s.runs ==> s.runs[r].id in s.inflight && s.runs[r].id in s.objects)
    && (forall q, r :: q in s.runs && r in s.runs && q != r ==> s.runs[q].id != s.runs[r].id)
    && (s.ticker.Claiming? ==> s.ticker.id !in s.inflight)
  }

  ghost predicate TickerInv(s: State) {
    && (s.ticker.Visiting? || s.ticker.Claiming? ==> forall id :: id in s.ticker.due ==> id in s.objects)
    && (s.ticker.Claiming? ==> s.ticker.id in s.objects)
  }

  ghost predicate SlotInv(s: State) {
    |s.active| <= s.slots <= MAX_DISPATCHES
  }

  ghost predicate Inv(s: State) {
    s.table <= s.objects.Keys && RunsInv(s) && TickerInv(s) && SlotInv(s)
  }

  lemma TickerKeepsInv(s: State, s': State)
    requires Inv(s) && TickerStep(s, s')
    ensures Inv(s')
  {
  }

  lemma RunEndKeepsInv(s: State, s': State, r: nat)
    requires Inv(s) && RunEnd(s, s', r)
    ensures Inv(s')
  {
  }

  lemma RunReportKeepsInv(s: State, s': State, r: nat, d: nat)
    requires Inv(s) && RunReport(s, s', r, d)
    ensures Inv(s')
  {
  }

  lemma RunKeepsInv(s: State, s': State, r: nat)
    requires Inv(s) && RunStep(s, s', r)
    ensures Inv(s')
  {
    if RunEnd(s, s', r) {
      RunEndKeepsInv(s, s', r);
    } else if d :| RunReport(s, s', r, d) {
      RunReportKeepsInv(s, s', r, d);
    }
  }

  lemma SlotStepKeepsInv(s: State, s': State)
    requires Inv(s) && (SlotFree(s, s') || exists d :: DispatchEnd(s, s', d))
    ensures Inv(s')
  {
  }

  lemma StoreStepKeepsInv(s: State, s': State, id: Id, sch: Schedule)
    requires Inv(s) && (AddSchedule(s, s', id, sch) || UpdateSchedule(s, s', id, sch) || DeleteSchedule(s, s', id))
    ensures Inv(s')
  {
  }

  lemma OtherKeepsInv(s: State, s': State)
    requires Inv(s) && OtherStep(s, s')
    ensures Inv(s')
  {
    if SlotFree(s, s') || exists d :: DispatchEnd(s, s', d) {
      SlotStepKeepsInv(s, s');
    } else if id, sch :| AddSchedule(s, s', id, sch) || UpdateSchedule(s, s', id, sch) {
      StoreStepKeepsInv(s, s', id, sch);
    } else if id :| DeleteSchedule(s, s', id) {
      StoreStepKeepsInv(s, s', id, Schedule(false, Daily, false, 0));
    }
  }

  lemma NextKeepsInv(s: State, s': State)
    requires Inv(s) && Next(s, s')
    ensures Inv(s')
  {
    if TickerStep(s, s') {
      TickerKeepsInv(s, s');
    } else if r :| RunStep(s, s', r) {
      RunKeepsInv(s, s', r);
    } else {
      OtherKeepsInv(s, s');
    }
  }
}
