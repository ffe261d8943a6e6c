/** At most one run per schedule, bounded dispatches, and when runs are an interval apart. */
module SchedulerTheorems {
  import opened SchedulerProtocol
  import opened Runs

  ghost predicate IsRun(run: seq<State>) {
    IsPath(Next, run) && Init(run[0])
  }

  lemma EveryStateIsGood(run: seq<State>, i: nat)
    requires IsRun(run) && i < |run|
    ensures Inv(run[i])
  {
    forall s, s' | Inv(s) && Next(s, s') ensures Inv(s') {
      NextKeepsInv(s, s');
    }
    InvariantHolds(Next, Inv, run, 0, i);
  }

  /**
    In every interleaving at most one run per schedule is in flight, although the busy test and
    the claim are separate steps, and at most ten webhook dispatches are active.
   */
  lemma AtMostOneRunPerSchedule(run: seq<State>, i: nat, q: nat, r: nat)
    requires IsRun(run) && i < |run|
    ensures q in run[i].runs && r in run[i].runs && run[i].runs[q].id == run[i].runs[r].id ==> q == r
    ensures |run[i].active| <= 10
  {
    EveryStateIsGood(run, i);
  }

  // --------------------------------------------------------- quiet steps

  /** Any update but a manual run or a change of interval of this schedule. */
  ghost predicate QuietUpdate(s: State, s': State, x: Id) {
    exists id, sch :: UpdateSchedule(s, s', id, sch)
      && (id == x ==> sch.interval == s.objects[x].interval && sch.nextRun == s.objects[x].nextRun)
  }

  ghost predicate QuietOther(s: State, s': State, x: Id) {
    || (exists d :: DispatchEnd(s, s', d)) || SlotFree(s, s') || ClockStep(s, s')
    || (exists id, sch :: AddSchedule(s, s', id, sch))
    || QuietUpdate(s, s', x)
    || (exists id :: DeleteSchedule(s, s', id))
  }

  /** Steps in which nobody runs this schedule by hand or changes its interval. */
  ghost predicate QuietNext(s: State, s': State, x: Id) {
    TickerStep(s, s') || (exists r :: RunStep(s, s', r)) || QuietOther(s, s', x)
  }

  ghost function QuietFor(x: Id): (State, State) -> bool {
    (s: State, s': State) => QuietNext(s, s', x)
  }

  lemma QuietIsNext(s: State, s': State, x: Id)
    requires QuietNext(s, s', x)
    ensures Next(s, s')
  {
  }

  function Gap(s: State, id: Id): int
    requires id in s.objects
  {
    IntervalDur(s.objects[id].interval)
  }

  // ------------------------------------------- what NextRun says, always

  ghost predicate BeingStarted(s: State, x: Id) {
    exists r :: r in s.runs && s.runs[r].id == x && s.runs[r].phase.Started?
  }

  /** A run of x that has read its start time is about to write the right NextRun. */
  ghost predicate StartSpaced(s: State, r: nat, x: Id)
    requires r in s.runs
  {
    s.runs[r].id == x && s.runs[r].phase.Started? ==>
      && x in s.objects && x in s.lastStart && s.lastStart[x] == s.runs[r].phase.start
      && s.runs[r].phase.next == s.runs[r].phase.start + Gap(s, x)
  }

  ghost predicate NextRunSet(s: State, x: Id) {
    (x in s.table && x in s.objects && x in s.lastStart && !BeingStarted(s, x)) ==>
      s.objects[x].nextRun == s.lastStart[x] + Gap(s, x)
  }

  /** NextRun is an interval after the last start, unless a run is just about to write it. */
  ghost predicate MarkInv(s: State, x: Id) {
    && (x in s.lastStart ==> x in s.objects)
    && NextRunSet(s, x)
    && (forall r :: r in s.runs ==> StartSpaced(s, r, x))
  }

  lemma TickerKeepsMarks(s: State, s': State, x: Id)
    requires MarkInv(s, x) && TickerStep(s, s')
    ensures MarkInv(s', x)
  {
    if y :| y in s.runs && s.runs[y].id == x && s.runs[y].phase.Started? {
      assert y in s'.runs && s'.runs[y] == s.runs[y];
    }
    forall q | q in s'.runs ensures StartSpaced(s', q, x) {
      assert q in s.runs ==> StartSpaced(s, q, x);
    }
  }

  lemma ReadClockKeepsMarks(s: State, s': State, r: nat, x: Id)
    requires RunsInv(s) && MarkInv(s, x) && RunReadClock(s, s', r)
    ensures MarkInv(s', x)
  {
    if x == s.runs[r].id {
      assert r in s'.runs && s'.runs[r].id == x && s'.runs[r].phase.Started?;
    } else if y :| y in s.runs && s.runs[y].id == x && s.runs[y].phase.Started? {
      assert y in s'.runs && s'.runs[y] == s.runs[y];
    }
    forall q | q in s'.runs ensures StartSpaced(s', q, x) {
      assert q != r ==> StartSpaced(s, q, x);
    }
  }

  lemma AdvanceKeepsMarks(s: State, s': State, r: nat, x: Id)
    requires RunsInv(s) && MarkInv(s, x) && RunAdvance(s, s', r)
    ensures MarkInv(s', x)
  {
    assert StartSpaced(s, r, x);
    if x != s.runs[r].id {
      if y :| y in s.runs && s.runs[y].id == x && s.runs[y].phase.Started? {
        assert y in s'.runs && s'.runs[y] == s.runs[y];
      }
    }
    forall q | q in s'.runs ensures StartSpaced(s', q, x) {
      assert q != r ==> StartSpaced(s, q, x);
    }
  }

  lemma LaterRunStepKeepsMarks(s: State, s': State, r: nat, x: Id)
    requires MarkInv(s, x) && RunStep(s, s', r) && !RunReadClock(s, s', r) && !RunAdvance(s, s', r)
    ensures MarkInv(s', x)
  {
    assert StartSpaced(s, r, x);
    if y :| y in s.runs && s.runs[y].id == x && s.runs[y].phase.Started? {
      assert y in s'.runs && s'.runs[y] == s.runs[y];
    }
    forall q | q in s'.runs ensures StartSpaced(s', q, x) {
      assert StartSpaced(s, q, x);
    }
  }

  lemma OtherKeepsMarks(s: State, s': State, x: Id)
    requires Inv(s) && MarkInv(s, x) && QuietOther(s, s', x)
    ensures MarkInv(s', x)
  {
    assert s'.runs == s.runs && s'.lastStart == s.lastStart;
    assert BeingStarted(s', x) <==> BeingStarted(s, x);
    forall q | q in s'.runs ensures StartSpaced(s', q, x) {
      assert StartSpaced(s, q, x);
    }
  }

  lemma QuietStepKeepsMarks(s: State, s': State, x: Id)
    requires Inv(s) && MarkInv(s, x) && QuietNext(s, s', x)
    ensures MarkInv(s', x)
  {
    if TickerStep(s, s') {
      TickerKeepsMarks(s, s', x);
    } else if r :| RunStep(s, s', r) {
      if RunReadClock(s, s', r) {
        ReadClockKeepsMarks(s, s', r, x);
      } else if RunAdvance(s, s', r) {
        AdvanceKeepsMarks(s, s', r, x);
      } else {
        LaterRunStepKeepsMarks(s, s', r, x);
      }
    } else {
      OtherKeepsMarks(s, s', x);
    }
  }

  /** Both invariants, which every step that is quiet for x keeps. */
  ghost predicate Marked(s: State, x: Id) {
    Inv(s) && MarkInv(s, x)
  }

  ghost function MarkedFor(x: Id): State -> bool {
    (s: State) => Marked(s, x)
  }

  lemma MarkedIsKept(x: Id)
    ensures Preserves(QuietFor(x), MarkedFor(x))
  {
    forall s, s' | MarkedFor(x)(s) && QuietFor(x)(s, s') ensures MarkedFor(x)(s') {
      QuietIsNext(s, s', x);
      NextKeepsInv(s, s');
      QuietStepKeepsMarks(s, s', x);
    }
  }

  lemma InitIsMarked(s: State, x: Id)
    requires Init(s)
    ensures Marked(s, x)
  {
  }

  lemma QuietRunIsMarked(run: seq<State>, i: nat, x: Id)
    requires IsPath(QuietFor(x), run) && Init(run[0]) && i < |run|
    ensures Marked(run[i], x)
  {
    InitIsMarked(run[0], x);
    MarkedIsKept(x);
    InvariantHolds(QuietFor(x), MarkedFor(x), run, 0, i);
  }

  /**
    Between its runs, the NextRun of a schedule that nobody runs by hand and whose interval
    nobody changes is an hour, a day or a week after its last start; unknown intervals are days.
   */
  lemma NextRunIsAnIntervalOn(run: seq<State>, i: nat, x: Id)
    requires IsPath(QuietFor(x), run) && Init(run[0]) && i < |run|
    requires x in run[i].table && x in run[i].lastStart && !BeingStarted(run[i], x)
    ensures x in run[i].objects
    ensures
      var sch := run[i].objects[x];
      sch.nextRun - run[i].lastStart[x] ==
        if sch.interval == Hourly then 3600 else if sch.interval == Weekly then 604800 else 86400
  {
    QuietRunIsMarked(run, i, x);
  }

  // --------------------------------------------------------------- spacing

  /** A full interval has passed since the schedule last started, if it ever did. */
  ghost predicate Rested(s: State, x: Id) {
    x in s.objects && (x in s.lastStart ==> s.lastStart[x] + Gap(s, x) <= s.clock)
  }

  /** A run of x that is still to read its start time will not read it too early. */
  ghost predicate ClaimSpaced(s: State, r: nat, x: Id)
    requires r in s.runs
  {
    s.runs[r].id == x ==>
      match s.runs[r].phase
      case Spawned => x in s.table ==> Rested(s, x)
      case Loaded => Rested(s, x)
      case _ => true
  }

  ghost predicate ClaimsSpaced(s: State, x: Id) {
    forall r :: r in s.runs ==> ClaimSpaced(s, r, x)
  }

  /** A claim of x is made only while x is still due. */
  ghost predicate FreshClaim(s: State, s': State, x: Id) {
    forall r :: TickStore(s, s', r) && s.ticker.id == x ==>
      x in s.table && x in s.objects ==> s.objects[x].nextRun <= s.clock
  }

  lemma TickStoreKeepsClaims(s: State, s': State, r: nat, x: Id)
    requires RunsInv(s) && TickerInv(s) && MarkInv(s, x) && ClaimsSpaced(s, x)
    requires TickStore(s, s', r) && FreshClaim(s, s', x)
    ensures ClaimsSpaced(s', x)
  {
    assert s.ticker.id == x ==> !BeingStarted(s, x);
    forall q | q in s'.runs ensures ClaimSpaced(s', q, x) {
      assert q != r ==> ClaimSpaced(s, q, x);
    }
  }

  lemma TickerKeepsClaims(s: State, s': State, x: Id)
    requires ClaimsSpaced(s, x) && TickerStep(s, s') && !exists r :: TickStore(s, s', r)
    ensures ClaimsSpaced(s', x)
  {
    forall q | q in s'.runs ensures ClaimSpaced(s', q, x) {
      assert ClaimSpaced(s, q, x);
    }
  }

  lemma RunStepKeepsClaims(s: State, s': State, r: nat, x: Id)
    requires RunsInv(s) && ClaimsSpaced(s, x) && RunStep(s, s', r)
    ensures ClaimsSpaced(s', x)
  {
    assert ClaimSpaced(s, r, x);
    forall q | q in s'.runs ensures ClaimSpaced(s', q, x) {
      assert ClaimSpaced(s, q, x);
    }
  }

  lemma OtherKeepsClaims(s: State, s': State, x: Id)
    requires RunsInv(s) && s.table <= s.objects.Keys && ClaimsSpaced(s, x) && QuietOther(s, s', x)
    ensures ClaimsSpaced(s', x)
  {
    assert s'.runs == s.runs && s'.lastStart == s.lastStart && s.clock <= s'.clock;
    forall q | q in s'.runs ensures ClaimSpaced(s', q, x) {
      assert ClaimSpaced(s, q, x);
    }
  }

  ghost function FreshFor(x: Id): (State, State) -> bool {
    (s: State, s': State) => QuietNext(s, s', x) && FreshClaim(s, s', x)
  }

  lemma FreshStepKeepsClaims(s: State, s': State, x: Id)
    requires Marked(s, x) && ClaimsSpaced(s, x) && QuietNext(s, s', x) && FreshClaim(s, s', x)
    ensures ClaimsSpaced(s', x)
  {
    if r :| TickStore(s, s', r) {
      TickStoreKeepsClaims(s, s', r, x);
    } else if TickerStep(s, s') {
      TickerKeepsClaims(s, s', x);
    } else if r :| RunStep(s, s', r) {
      RunStepKeepsClaims(s, s', r, x);
    } else {
      OtherKeepsClaims(s, s', x);
    }
  }

  ghost function SpacedFor(x: Id): State -> bool {
    (s: State) => Marked(s, x) && ClaimsSpaced(s, x)
  }

  lemma FreshRunIsSpaced(run: seq<State>, i: nat, x: Id)
    requires IsPath(FreshFor(x), run) && Init(run[0]) && i < |run|
    ensures ClaimsSpaced(run[i], x)
  {
    MarkedIsKept(x);
    forall s, s' | SpacedFor(x)(s) && FreshFor(x)(s, s') ensures SpacedFor(x)(s') {
      FreshStepKeepsClaims(s, s', x);
      assert MarkedFor(x)(s) && QuietFor(x)(s, s');
    }
    InitIsMarked(run[0], x);
    InvariantHolds(FreshFor(x), SpacedFor(x), run, 0, i);
  }

  /**
    If every claim of a schedule is made while it is due, and nobody runs it by hand or changes
    its interval, its starts are a full interval apart, whatever happens to other schedules.
   */
  lemma StartsAreAnIntervalApart(run: seq<State>, i: nat, r: nat, x: Id)
    requires IsPath(FreshFor(x), run) && Init(run[0]) && i < |run| - 1 && RunReadClock(run[i], run[i + 1], r)
    requires run[i].runs[r].id == x && x in run[i].lastStart
    ensures run[i].clock - run[i].lastStart[x] >= Gap(run[i], x)
  {
    FreshRunIsSpaced(run, i, x);
    assert ClaimSpaced(run[i], r, x);
  }

  // ---------------------------------------------------------- atomic ticks

  /** Steps, quiet for x, of a scheduler whose tick, once begun, completes before anything else happens. */
  ghost predicate AtomicNext(s: State, s': State, x: Id) {
    QuietNext(s, s', x) && (s.ticker != Resting ==> TickerStep(s, s'))
  }

  ghost function AtomicFor(x: Id): (State, State) -> bool {
    (s: State, s': State) => AtomicNext(s, s', x)
  }

  ghost predicate StillDue(s: State, id: Id) {
    id in s.objects && s.objects[id].nextRun <= s.clock
  }

  ghost predicate TickInv(s: State) {
    match s.ticker
    case Resting => true
    case Visiting(at, due) => forall id :: id in due ==> StillDue(s, id)
    case Claiming(at, id, due) => StillDue(s, id) && forall y :: y in due ==> StillDue(s, y)
  }

  lemma TickerKeepsDue(s: State, s': State)
    requires TickInv(s) && TickerStep(s, s')
    ensures TickInv(s')
  {
    if due :| TickStart(s, s', due) {
      assert forall id :: id in due ==> Due(s, id, s.clock);
    } else if TickLoad(s, s') {
      assert s.ticker.due[0] in s.ticker.due;
      assert forall y :: y in s.ticker.due[1..] ==> y in s.ticker.due;
    }
  }

  lemma AtomicStepKeepsDue(s: State, s': State, x: Id)
    requires TickInv(s) && AtomicNext(s, s', x)
    ensures TickInv(s')
  {
    if TickerStep(s, s') {
      TickerKeepsDue(s, s');
    } else {
      assert s'.ticker == Resting;
    }
  }

  lemma AtomicTicksClaimWhatIsDue(run: seq<State>, i: nat, x: Id)
    requires IsPath(AtomicFor(x), run) && Init(run[0]) && i < |run|
    ensures TickInv(run[i])
  {
    forall s, s' | TickInv(s) && AtomicFor(x)(s, s') ensures TickInv(s') {
      AtomicStepKeepsDue(s, s', x);
    }
    InvariantHolds(AtomicFor(x), TickInv, run, 0, i);
  }

  lemma DueClaimIsFresh(s: State, s': State, x: Id)
    requires TickInv(s)
    ensures FreshClaim(s, s', x)
  {
  }

  /**
    With atomic ticks, successive starts of a schedule that nobody runs by hand and whose
    interval nobody changes are always a full interval apart.
   */
  lemma AtomicTicksSpaceTheRuns(run: seq<State>, i: nat, r: nat, x: Id)
    requires IsPath(AtomicFor(x), run) && Init(run[0]) && i < |run| - 1 && RunReadClock(run[i], run[i + 1], r)
    requires run[i].runs[r].id == x && x in run[i].lastStart
    ensures run[i].clock - run[i].lastStart[x] >= Gap(run[i], x)
  {
    forall k | 0 <= k < |run| - 1 ensures StepAt(FreshFor(x), run, k) {
      StepOf(AtomicFor(x), run, k);
      AtomicTicksClaimWhatIsDue(run, k, x);
      DueClaimIsFresh(run[k], run[k + 1], x);
    }
    StartsAreAnIntervalApart(run, i, r, x);
  }

  // ------------------------------------------- when ticks are not atomic

  /** The run goroutine r exists and has not read its start time yet. */
  ghost predicate Awaiting(s: State, r: nat, x: Id) {
    r in s.runs && s.runs[r].id == x && (s.runs[r].phase == Spawned || s.runs[r].phase == Loaded)
  }

  ghost predicate StartsEarly(s: State, s': State, r: nat, x: Id) {
    && RunReadClock(s, s', r) && s.runs[r].id == x && x in s.lastStart
    && s.clock < s.lastStart[x] + Gap(s, x)
  }

  /** Steps, quiet for x, during which the run goroutine r waits. */
  ghost function WaitNext(r: nat, x: Id): (State, State) -> bool {
    (s: State, s': State) => QuietNext(s, s', x) && Awaiting(s, r, x) && Awaiting(s', r, x)
  }

  /** Some continuation lets this very run start less than an interval after the previous one. */
  ghost predicate CanStartEarly(s: State, r: nat, x: Id) {
    exists t, t' :: Leads(WaitNext(r, x), s, t) && StartsEarly(t, t', r, x)
  }

  /** The waiting run r will not start early: its schedule is rested, or deleted before r looks it up. */
  ghost predicate Harmless(s: State, r: nat, x: Id) {
    Rested(s, x) || (x in s.objects && x !in s.table && r in s.runs && s.runs[r].phase == Spawned)
  }

  lemma RunStepKeepsHarmless(s: State, s': State, q: nat, r: nat, x: Id)
    requires RunStep(s, s', q) && Harmless(s, r, x) && Awaiting(s, r, x) && Awaiting(s', r, x)
    requires s.runs[q].id == x ==> q == r
    ensures Harmless(s', r, x)
  {
  }

  lemma OtherKeepsHarmless(s: State, s': State, r: nat, x: Id)
    requires QuietOther(s, s', x) && Harmless(s, r, x)
    ensures Harmless(s', r, x)
  {
  }

  lemma WaitingKeepsHarmless(s: State, s': State, r: nat, x: Id)
    requires Inv(s) && QuietNext(s, s', x) && Awaiting(s, r, x) && Awaiting(s', r, x) && Harmless(s, r, x)
    ensures Harmless(s', r, x)
  {
    if q :| RunStep(s, s', q) {
      assert q == r || s.runs[q].id != x;
      RunStepKeepsHarmless(s, s', q, r, x);
    } else if TickerStep(s, s') {
    } else {
      OtherKeepsHarmless(s, s', r, x);
    }
  }

  ghost function StaysHarmless(r: nat, x: Id): State -> bool {
    (s: State) => Marked(s, x) && Harmless(s, r, x)
  }

  lemma HarmlessUntilStart(s: State, t: State, r: nat, x: Id)
    requires Marked(s, x) && Harmless(s, r, x) && Leads(WaitNext(r, x), s, t)
    ensures Harmless(t, r, x)
  {
    MarkedIsKept(x);
    forall u, u' | StaysHarmless(r, x)(u) && WaitNext(r, x)(u, u') ensures StaysHarmless(r, x)(u') {
      WaitingKeepsHarmless(u, u', r, x);
      assert MarkedFor(x)(u) && QuietFor(x)(u, u');
    }
    InvariantHoldsAfter(WaitNext(r, x), StaysHarmless(r, x), s, t);
  }

  lemma LateClaimStartsEarly(s: State, r: nat, x: Id)
    requires Inv(s) && r in s.runs && s.runs[r] == Run(x, Spawned) && x in s.table
    requires x in s.lastStart && s.clock < s.lastStart[x] + Gap(s, x)
    ensures CanStartEarly(s, r, x)
  {
    var a := s.(runs := s.runs[r := Run(x, Loaded)]);
    var b := a.(runs := a.runs[r := Run(x, Started(a.clock, a.clock + Gap(a, x)))], lastStart := a.lastStart[x := a.clock]);
    assert RunGet(s, a, r) && RunReadClock(a, b, r);
    assert QuietNext(s, a, x) by {
      assert RunStep(s, a, r);
    }
    assert Awaiting(s, r, x) && Awaiting(a, r, x);
    LeadsToItself(WaitNext(r, x), s);
    LeadsOn(WaitNext(r, x), s, s, a);
    assert StartsEarly(a, b, r, x);
  }

  /** The guard that a safe claim would have to check. */
  ghost predicate NotDue(s: State, x: Id) {
    x in s.table && x in s.objects && x in s.lastStart && s.objects[x].nextRun > s.clock
  }

  lemma MarkedClaim(s: State, s': State, r: nat)
    requires TickStore(s, s', r) && Marked(s, s.ticker.id)
    ensures CanStartEarly(s', r, s.ticker.id) <==> NotDue(s, s.ticker.id)
  {
    var x := s.ticker.id;
    assert !BeingStarted(s, x);
    assert QuietNext(s, s', x);
    MarkedIsKept(x);
    assert MarkedFor(x)(s) && QuietFor(x)(s, s');
    if NotDue(s, x) {
      LateClaimStartsEarly(s', r, x);
    } else if CanStartEarly(s', r, x) {
      var t, t' :| Leads(WaitNext(r, x), s', t) && StartsEarly(t, t', r, x);
      HarmlessUntilStart(s', t, r, x);
    }
  }

  /**
    On every run in which nobody runs the claimed schedule by hand or changes its interval,
    whatever claims came before and whatever happens to other schedules: a claim can lead to an
    early start exactly when the schedule still exists, has run before, and its NextRun, as it
    stands at the claim, lies in the future.
   */
  lemma ClaimIsSafeIffStillDue(run: seq<State>, i: nat, s': State, r: nat, x: Id)
    requires IsPath(QuietFor(x), run) && Init(run[0]) && i < |run| && TickStore(run[i], s', r)
    requires run[i].ticker.id == x
    ensures CanStartEarly(s', r, x) <==> NotDue(run[i], x)
  {
    QuietRunIsMarked(run, i, x);
    MarkedClaim(run[i], s', r);
  }

  /** A run in which a tick's snapshot is overtaken by a run of the same schedule. */
  ghost function Overtaken(k: nat): State {
    var due := Schedule(true, Hourly, false, 0);
    var s := State(0, map[5 := due], {5}, {}, Resting, map[], 0, {}, map[]);
    var busy := s.(inflight := {5}, runs := map[0 := Run(5, Spawned)]);
    var started := busy.(runs := map[0 := Run(5, Started(0, 3600))], lastStart := map[5 := 0]);
    var second := started.(clock := 30, ticker := Visiting(30, [5]));
    var marked := second.(runs := map[0 := Run(5, Advanced)], objects := map[5 := due.(nextRun := 3600)]);
    var ended := marked.(runs := map[], inflight := {});
    var again := ended.(inflight := {5}, runs := map[1 := Run(5, Spawned)], ticker := Visiting(30, []));
    match k
    case 0 => s
    case 1 => s.(ticker := Visiting(0, [5]))
    case 2 => s.(ticker := Claiming(0, 5, []))
    case 3 => busy.(ticker := Visiting(0, []))
    case 4 => busy
    case 5 => busy.(runs := map[0 := Run(5, Loaded)])
    case 6 => started
    case 7 => started.(clock := 30)
    case 8 => second
    case 9 => marked
    case 10 => marked.(runs := map[0 := Run(5, Ending)])
    case 11 => ended
    case 12 => ended.(ticker := Claiming(30, 5, []))
    case 13 => again
    case 14 => again.(runs := map[1 := Run(5, Loaded)])
    case _ => again.(runs := map[1 := Run(5, Started(30, 3630))], lastStart := map[5 := 30])
  }

  lemma FirstTick(k: nat)
    requires k < 4
    ensures Next(Overtaken(k), Overtaken(k + 1))
  {
    assert [5][1..] == [];
    assert TickStart(Overtaken(0), Overtaken(1), [5]);
    assert TickLoad(Overtaken(1), Overtaken(2));
    assert TickStore(Overtaken(2), Overtaken(3), 0);
    assert TickEnd(Overtaken(3), Overtaken(4));
  }

  lemma FirstStart(k: nat)
    requires 4 <= k < 8
    ensures Next(Overtaken(k), Overtaken(k + 1))
  {
    assert RunStep(Overtaken(4), Overtaken(5), 0);
    assert RunReadClock(Overtaken(5), Overtaken(6), 0) && RunStep(Overtaken(5), Overtaken(6), 0);
    assert ClockStep(Overtaken(6), Overtaken(7));
    assert TickStart(Overtaken(7), Overtaken(8), [5]);
  }

  lemma FirstRunEnds(k: nat)
    requires 8 <= k < 11
    ensures Next(Overtaken(k), Overtaken(k + 1))
  {
    assert RunAdvance(Overtaken(8), Overtaken(9), 0) && RunStep(Overtaken(8), Overtaken(9), 0);
    assert RunScanned(Overtaken(9), Overtaken(10), 0) && RunStep(Overtaken(9), Overtaken(10), 0);
    assert RunEnd(Overtaken(10), Overtaken(11), 0) && RunStep(Overtaken(10), Overtaken(11), 0);
  }

  lemma SecondTick(k: nat)
    requires 11 <= k < 13
    ensures Next(Overtaken(k), Overtaken(k + 1))
  {
    assert [5][1..] == [];
    assert TickLoad(Overtaken(11), Overtaken(12));
    assert TickStore(Overtaken(12), Overtaken(13), 1);
  }

  lemma SecondStart(k: nat)
    requires 13 <= k < 15
    ensures Next(Overtaken(k), Overtaken(k + 1))
    ensures StartsEarly(Overtaken(14), Overtaken(15), 1, 5)
  {
    assert RunStep(Overtaken(13), Overtaken(14), 1);
    assert RunReadClock(Overtaken(14), Overtaken(15), 1) && RunStep(Overtaken(14), Overtaken(15), 1);
  }

  /**
    The window between a tick's snapshot and its claim is real: a run that marks and ends in
    between lets the same hourly schedule start again after thirty seconds.
   */
  lemma StaleSnapshotStartsEarly()
    ensures exists run: seq<State> :: IsRun(run) && |run| == 16 && StartsEarly(run[14], run[15], 1, 5)
  {
    var run := seq(16, k requires 0 <= k < 16 => Overtaken(k));
    forall i | 0 <= i < 15 ensures StepAt(Next, run, i) {
      if i < 4 {
        FirstTick(i);
      } else if i < 8 {
        FirstStart(i);
      } else if i < 11 {
        FirstRunEnds(i);
      } else if i < 13 {
        SecondTick(i);
      } else {
        SecondStart(i);
      }
    }
    SecondStart(14);
    assert IsRun(run);
  }
}
