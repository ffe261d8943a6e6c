/** The capacity-limited job table: admission and clean-up, stated on values. */
module JobTable {
  import opened Sequences

  type Id = nat

  datatype Status = Pending | Running | Completed | Failed

  datatype JobRecord = JobRecord(status: Status, createdAt: int, fromCache: bool)

  const MAX_JOBS: nat := 1000
  const CHANNEL_CAPACITY: nat := 100
  const RESULT_TTL: int := 24 * 3600

  predicate Finished(j: JobRecord) {
    j.status == Completed || j.status == Failed
  }

  /** The only moves a job's status may make. */
  predicate StatusMoves(a: Status, b: Status) {
    || a == b
    || (a == Pending && b != Pending)
    || (a == Running && (b == Completed || b == Failed))
  }

  predicate Expired(j: JobRecord, now: int) {
    Finished(j) && j.createdAt < now - RESULT_TTL
  }

  /** The ids left by the first pass of a clean-up. */
  function Unexpired(view: map<Id, JobRecord>, now: int): set<Id> {
    set id | id in view && !Expired(view[id], now)
  }

  /** victim is an oldest finished job among the given ids. */
  predicate OldestFinished(view: map<Id, JobRecord>, ids: set<Id>, victim: Id) {
    && victim in ids && victim in view && Finished(view[victim])
    && forall o :: o in ids && o in view && Finished(view[o]) ==> view[victim].createdAt <= view[o].createdAt
  }

  /** What one clean-up may leave behind, whatever order the table is iterated in. */
  ghost predicate CleanedTo(view: map<Id, JobRecord>, kept: set<Id>, now: int) {
    var young := Unexpired(view, now);
    if |young| >= MAX_JOBS && exists v :: OldestFinished(view, young, v)
    then exists v :: OldestFinished(view, young, v) && kept == young - {v}
    else kept == young
  }

  /** The ids that survive the admission check of an enqueue. */
  ghost predicate AdmissionLeaves(view: map<Id, JobRecord>, kept: set<Id>, now: int) {
    if |view.Keys| >= MAX_JOBS then CleanedTo(view, kept, now) else kept == view.Keys
  }

  ghost predicate HoldsFinished(view: map<Id, JobRecord>) {
    exists id :: id in view && Finished(view[id])
  }

  /** A non-empty set of finished jobs has an oldest member. */
  lemma {:induction false} OldestExists(view: map<Id, JobRecord>, ids: set<Id>)
    requires ids <= view.Keys
    requires exists id :: id in ids && Finished(view[id])
    ensures exists v :: OldestFinished(view, ids, v)
    decreases |ids|
  {
    var x :| x in ids && Finished(view[x]);
    var rest := ids - {x};
    if exists id :: id in rest && Finished(view[id]) {
      OldestExists(view, rest);
      var v :| OldestFinished(view, rest, v);
      if view[x].createdAt <= view[v].createdAt {
        assert OldestFinished(view, ids, x);
      } else {
        assert OldestFinished(view, ids, v);
      }
    } else {
      assert OldestFinished(view, ids, x);
    }
  }

  /** A clean-up drops only finished jobs, and at most one of them unexpired. */
  lemma CleanupDropsOnlyFinished(view: map<Id, JobRecord>, kept: set<Id>, now: int)
    requires CleanedTo(view, kept, now)
    ensures kept <= view.Keys
    ensures forall id :: id in view && id !in kept ==> Finished(view[id])
    ensures forall a, b | a in view && b in view && a !in kept && b !in kept ::
              !Expired(view[a], now) && !Expired(view[b], now) ==> a == b
    ensures forall a, o | a in view && a !in kept && o in kept && Finished(view[o]) ::
              !Expired(view[a], now) ==> view[a].createdAt <= view[o].createdAt
  {
  }

  /** What the first pass leaves, in plain terms: all but the jobs that ended and are over a day old. */
  ghost predicate DayOldGone(view: map<Id, JobRecord>, young: set<Id>, now: int) {
    forall id :: id in young <==>
      id in view && (view[id].status == Pending || view[id].status == Running || view[id].createdAt >= now - 24 * 3600)
  }

  /** What the second pass leaves, in plain terms: an oldest ended job goes if there are a thousand jobs or more. */
  ghost predicate OldestGone(view: map<Id, JobRecord>, young: set<Id>, kept: set<Id>) {
    if |young| < 1000 || forall id :: id in young && id in view ==> view[id].status == Pending || view[id].status == Running
    then kept == young
    else exists v :: OldestEnded(view, young, v) && kept == young - {v}
  }

  ghost predicate OldestEnded(view: map<Id, JobRecord>, ids: set<Id>, v: Id) {
    && v in ids && v in view && (view[v].status == Completed || view[v].status == Failed)
    && forall o :: o in ids && o in view && view[o].status != Pending && view[o].status != Running ==>
         view[v].createdAt <= view[o].createdAt
  }

  lemma SecondPassInPlainTerms(view: map<Id, JobRecord>, young: set<Id>, kept: set<Id>)
    requires young <= view.Keys
    requires if |young| >= MAX_JOBS && exists v :: OldestFinished(view, young, v)
             then exists v :: OldestFinished(view, young, v) && kept == young - {v}
             else kept == young
    ensures OldestGone(view, young, kept)
  {
    if exists id :: id in young && Finished(view[id]) {
      OldestExists(view, young);
    }
    if |young| >= MAX_JOBS && exists v :: OldestFinished(view, young, v) {
      var v :| OldestFinished(view, young, v) && kept == young - {v};
      assert OldestEnded(view, young, v);
    }
  }

  /**
    A clean-up in plain terms: jobs that ended and were created over a day ago go; if a thousand
    jobs or more stay, an oldest of those that ended goes too; no pending or running job ever goes.
   */
  lemma CleanupInPlainTerms(view: map<Id, JobRecord>, kept: set<Id>, now: int)
    requires CleanedTo(view, kept, now)
    ensures exists young :: DayOldGone(view, young, now) && OldestGone(view, young, kept)
  {
    var young := Unexpired(view, now);
    assert DayOldGone(view, young, now);
    SecondPassInPlainTerms(view, young, kept);
  }

  /** A clean-up leaves a full table below capacity exactly when it holds a finished job. */
  lemma CleanupMakesRoom(view: map<Id, JobRecord>, kept: set<Id>, now: int)
    requires CleanedTo(view, kept, now)
    requires |view.Keys| == MAX_JOBS
    ensures |kept| < MAX_JOBS <==> HoldsFinished(view)
  {
    var young := Unexpired(view, now);
    SubsetSize(young, view.Keys);
    if HoldsFinished(view) && |young| == MAX_JOBS {
      OldestExists(view, young);
    }
    if !HoldsFinished(view) {
      assert young == view.Keys;
    }
  }

  /**
    ErrQueueFull is returned exactly when the table is full and holds no finished job,
    and an admitted job never takes the table over capacity.
   */
  lemma RejectedIffFullOfLiveJobs(view: map<Id, JobRecord>, kept: set<Id>, now: int)
    requires AdmissionLeaves(view, kept, now)
    requires |view.Keys| <= MAX_JOBS
    ensures |kept| >= MAX_JOBS <==> |view.Keys| == MAX_JOBS && !HoldsFinished(view)
    ensures |kept| <= MAX_JOBS
  {
    if |view.Keys| == MAX_JOBS {
      CleanupMakesRoom(view, kept, now);
      CleanupDropsOnlyFinished(view, kept, now);
      SubsetSize(kept, view.Keys);
    }
  }

  /** Admission always has an outcome. */
  lemma AdmissionExists(view: map<Id, JobRecord>, now: int) returns (kept: set<Id>)
    ensures AdmissionLeaves(view, kept, now)
  {
    var young := Unexpired(view, now);
    if |view.Keys| < MAX_JOBS {
      kept := view.Keys;
    } else if |young| >= MAX_JOBS && exists v :: OldestFinished(view, young, v) {
      var v :| OldestFinished(view, young, v);
      kept := young - {v};
    } else {
      kept := young;
    }
  }
}
