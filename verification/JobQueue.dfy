/** The job queue object: the critical sections that the queue protocol interleaves. */
module JobQueue {
  import opened JobTable
  import opened Sequences
  import Q = QueueProtocol
  import ES = ExchangeSort

  datatype EnqueueResult = Accepted(job: Job) | ErrQueueFull

  class Job {
    const id: Id
    const createdAt: int
    var status: Status
    var fromCache: bool

    constructor (id: Id, now: int)
      ensures this.id == id && createdAt == now && status == Pending && !fromCache
    {
      this.id := id;
      createdAt := now;
      status := Pending;
      fromCache := false;
    }

    function Record(): JobRecord
      reads this
    {
      JobRecord(status, createdAt, fromCache)
    }
  }

  class JobQueue {
    var jobs: map<Id, Job>
    var pending: seq<Job>

    ghost predicate Valid()
      reads this, jobs.Values
    {
      && (forall id :: id in jobs ==> jobs[id].id == id)
      && |jobs.Keys| <= MAX_JOBS
      && |pending| <= CHANNEL_CAPACITY
    }

    /** The job table as a value. */
    ghost function View(): (v: map<Id, JobRecord>)
      reads this, jobs.Values
      ensures v.Keys == jobs.Keys
    {
      map id | id in jobs :: jobs[id].Record()
    }

    constructor ()
      ensures Valid() && jobs == map[] && pending == []
    {
      jobs := map[];
      pending := [];
    }

    /** Jobs that stay and are not written keep their records. */
    twostate lemma RecordsKept()
      requires forall id :: id in jobs ==> id in old(jobs) && jobs[id] == old(jobs)[id]
      requires forall id :: id in jobs ==> jobs[id].Record() == old(jobs[id].Record())
      ensures View() == Restrict(old(View()), jobs.Keys)
    {
    }

    /** Delete the expired finished jobs, in any iteration order. */
    method DropExpired(now: int)
      modifies this`jobs
      ensures jobs.Keys == Unexpired(old(View()), now)
      ensures forall id :: id in old(jobs) ==>
                (id !in jobs <==> (old(jobs[id].status) == Completed || old(jobs[id].status) == Failed)
                                  && old(jobs)[id].createdAt < now - 24 * 3600)
      ensures forall id :: id in jobs ==> id in old(jobs) && jobs[id] == old(jobs)[id]
    {
      var cutoff := now - RESULT_TTL;
      var rest := jobs.Keys;
      while rest != {}
        invariant rest <= jobs.Keys <= old(jobs).Keys
        invariant forall id :: id in jobs ==> jobs[id] == old(jobs)[id]
        invariant forall id :: id in old(jobs) && id !in rest ==>
                    (id in jobs <==> !Expired(old(jobs)[id].Record(), now))
        decreases rest
      {
        var id :| id in rest;
        var job := jobs[id];
        if job.status == Completed || job.status == Failed {
          if job.createdAt < cutoff {
            jobs := jobs - {id};
          }
        }
        rest := rest - {id};
      }
    }

    /** Find an oldest finished job, if there is one. */
    method FindOldest() returns (found: bool, victim: Id)
      ensures found ==> OldestFinished(View(), jobs.Keys, victim)
      ensures !found ==> !HoldsFinished(View())
    {
      found, victim := false, 0;
      var rest := jobs.Keys;
      while rest != {}
        invariant rest <= jobs.Keys
        invariant found ==> victim in jobs && victim !in rest && Finished(View()[victim])
        invariant found ==> forall o :: o in jobs && o !in rest && Finished(View()[o]) ==>
                    View()[victim].createdAt <= View()[o].createdAt
        invariant !found ==> forall o :: o in jobs && o !in rest ==> !Finished(View()[o])
        decreases rest
      {
        var id :| id in rest;
        var job := jobs[id];
        assert View()[id] == job.Record();
        if job.status == Completed || job.status == Failed {
          if !found || job.createdAt < jobs[victim].createdAt {
            found, victim := true, id;
          }
        }
        rest := rest - {id};
      }
    }

    /** Remove an oldest finished job, if there is one. */
    method DropOldest()
      modifies this`jobs
      ensures jobs == old(jobs) || exists v :: OldestFinished(old(View()), old(jobs).Keys, v) && jobs == old(jobs) - {v}
      ensures jobs == old(jobs) ==> !HoldsFinished(old(View()))
    {
      var found, victim := FindOldest();
      if found {
        jobs := jobs - {victim};
        assert victim !in jobs;
      }
    }

    /** Remove expired jobs; if the table is still full, remove an oldest finished one too. */
    method CleanupLocked(now: int)
      requires Valid()
      modifies this`jobs
      ensures Valid()
      ensures CleanedTo(old(View()), jobs.Keys, now)
      ensures exists young :: DayOldGone(old(View()), young, now) && OldestGone(old(View()), young, jobs.Keys)
      ensures forall id :: id in jobs ==> id in old(jobs) && jobs[id] == old(jobs)[id]
    {
      ghost var view := View();
      DropExpired(now);
      ghost var young, youngView := jobs.Keys, View();
      SubsetSize(young, view.Keys);
      assert forall id :: id in young ==> youngView[id] == view[id];
      if |jobs.Keys| >= MAX_JOBS {
        DropOldest();
        assert forall v :: OldestFinished(youngView, young, v) <==> OldestFinished(view, young, v);
      }
      SubsetSize(jobs.Keys, view.Keys);
      CleanupInPlainTerms(view, jobs.Keys, now);
    }

    /** The admission check: false exactly when the table is full of unfinished jobs. */
    method Admit(now: int) returns (ok: bool)
      requires Valid()
      modifies this`jobs
      ensures Valid()
      ensures AdmissionLeaves(old(View()), jobs.Keys, now)
      ensures !ok <==> |old(jobs).Keys| == MAX_JOBS && !HoldsFinished(old(View()))
      ensures !ok || |old(jobs).Keys| < 1000 ==> jobs == old(jobs)
      ensures ok ==> |jobs.Keys| < MAX_JOBS
      ensures forall x :: x in jobs ==> x in old(jobs) && jobs[x] == old(jobs)[x]
      ensures View() == Restrict(old(View()), jobs.Keys)
    {
      ghost var view := View();
      ok := true;
      if |jobs.Keys| >= MAX_JOBS {
        CleanupLocked(now);
        RejectedIffFullOfLiveJobs(view, jobs.Keys, now);
        if |jobs.Keys| >= MAX_JOBS {
          KeptWhole(view, jobs.Keys, now);
          assert jobs == old(jobs);
          ok := false;
        }
      }
      RecordsKept();
    }

    /** Insert a job into a table with room, and send it without blocking. */
    method Insert(job: Job)
      requires Valid() && job.id !in jobs && |jobs.Keys| < MAX_JOBS
      modifies this
      ensures Valid()
      ensures jobs == old(jobs)[job.id := job]
      ensures View() == old(View())[job.id := job.Record()]
      ensures pending == if |old(pending)| < CHANNEL_CAPACITY then old(pending) + [job] else old(pending)
    {
      ghost var kept := jobs.Keys;
      jobs := jobs[job.id := job];
      assert jobs.Keys == kept + {job.id};
      if |pending| < CHANNEL_CAPACITY {
        pending := pending + [job];
      }
    }

    method Accept(id: Id, now: int) returns (job: Job)
      requires Valid() && id !in jobs && |jobs.Keys| < MAX_JOBS
      modifies this
      ensures Valid()
      ensures fresh(job) && job.Record() == JobRecord(Pending, now, false)
      ensures jobs == old(jobs)[id := job]
      ensures View() == old(View())[id := JobRecord(Pending, now, false)]
      ensures pending == if |old(pending)| < CHANNEL_CAPACITY then old(pending) + [job] else old(pending)
    {
      ghost var view := View();
      job := new Job(id, now);
      assert View() == view;
      Insert(job);
    }

    /**
      The call fails exactly when the table is full of jobs that are not finished, and then
      changes nothing; otherwise the new job is pending in the table, and in the channel unless
      the channel is full.
     */
    method Enqueue(id: Id, now: int) returns (r: EnqueueResult)
      requires Valid() && id !in jobs
      modifies this
      ensures Valid()
      ensures r.ErrQueueFull? <==> |old(jobs).Keys| == 1000 && !HoldsFinished(old(View()))
      ensures r.ErrQueueFull? ==> jobs == old(jobs) && pending == old(pending)
      ensures r.Accepted? ==>
                && AdmissionLeaves(old(View()), jobs.Keys - {id}, now)
                && id in jobs && jobs[id] == r.job && fresh(r.job)
                && (|old(jobs).Keys| < 1000 ==> jobs == old(jobs)[id := r.job])
                && r.job.Record() == JobRecord(Pending, now, false)
                && (forall x :: x in jobs && x != id ==> x in old(jobs) && jobs[x] == old(jobs)[x])
                && pending == (if |old(pending)| < 100 then old(pending) + [r.job] else old(pending))
                && View() == Restrict(old(View()), jobs.Keys - {id})[id := JobRecord(Pending, now, false)]
    {
      var ok := Admit(now);
      if !ok {
        return ErrQueueFull;
      }
      ghost var kept := jobs.Keys;
      var job := Accept(id, now);
      assert jobs.Keys - {id} == kept;
      r := Accepted(job);
    }

    /** The worker's first critical section. */
    method MarkRunning(job: Job)
      requires Valid()
      modifies job`status
      ensures Valid()
      ensures job.Record() == Q.RunningRecord(old(job.Record()))
      ensures job in jobs.Values ==> View() == old(View())[job.id := job.Record()]
    {
      job.status := Running;
    }

    /** The worker's last critical section, on each of the three ways out of processJob. */
    method Finish(job: Job, way: Q.Phase)
      requires Valid() && Q.CanFinish(way)
      modifies job`status, job`fromCache
      ensures Valid()
      ensures job.Record() == Q.FinalRecord(old(job.Record()), way)
      ensures job in jobs.Values ==> View() == old(View())[job.id := job.Record()]
    {
      match way
      case Hit =>
        job.status := Completed;
        job.fromCache := true;
      case FailurePublished =>
        job.status := Failed;
      case SuccessPublished(_) =>
        job.status := Completed;
    }

    /** All jobs, newest first, cut to limit when it is positive. */
    method ListJobs(limit: int) returns (listed: seq<Job>)
      requires Valid()
      ensures |listed| == if 0 < limit < |jobs.Keys| then limit else |jobs.Keys|
      ensures ES.Descending(listed, (j: Job) => j.createdAt)
      ensures forall j :: j in listed ==> j.id in jobs && jobs[j.id] == j
      ensures Distinct(listed)
      ensures forall id, j | id in jobs && jobs[id] !in listed && j in listed :: jobs[id].createdAt <= j.createdAt
    {
      var all := Collect();
      var ranked := NewestFirst(all);
      listed := ranked;
      if limit > 0 && limit < |listed| {
        listed := listed[..limit];
      }
      forall id, j | id in jobs && jobs[id] !in listed && j in listed ensures jobs[id].createdAt <= j.createdAt {
        ES.CutKeepsTheBest(all, (x: Job) => x.createdAt, |listed|, j, jobs[id]);
      }
    }

    /** The jobs of the table, each once, in any order. */
    method Collect() returns (all: seq<Job>)
      requires Valid()
      ensures |all| == |jobs.Keys|
      ensures forall j :: j in all ==> j.id in jobs && jobs[j.id] == j
      ensures forall id :: id in jobs ==> jobs[id] in all
      ensures Distinct(all)
    {
      all := [];
      var rest := jobs.Keys;
      while rest != {}
        invariant rest <= jobs.Keys
        invariant |all| + |rest| == |jobs.Keys|
        invariant forall j :: j in all ==> j.id in jobs && j.id !in rest && jobs[j.id] == j
        invariant forall id :: id in jobs && id !in rest ==> jobs[id] in all
        invariant Distinct(all)
        decreases rest
      {
        var id :| id in rest;
        rest := rest - {id};
        all := all + [jobs[id]];
      }
    }
  }

  method NewestFirst(all: seq<Job>) returns (ranked: seq<Job>)
    ensures ranked == ES.Rank(all, (j: Job) => j.createdAt, 0)
    ensures ES.Descending(ranked, (j: Job) => j.createdAt)
    ensures |ranked| == |all| && forall j :: j in ranked <==> j in all
    ensures Distinct(all) ==> Distinct(ranked)
  {
    var a := new Job[|all|](i requires 0 <= i < |all| => all[i]);
    assert a[..] == all;
    var key := (j: Job) => j.createdAt;
    ES.Sort(a, key);
    ES.RankIsSortedPermutation(all, key);
    ranked := a[..];
    PermutationKeepsElements(all, ranked);
    if Distinct(all) {
      PermutationKeepsDistinct(all, ranked);
    }
  }

  /** A clean-up that leaves a table at capacity has removed nothing. */
  lemma KeptWhole(view: map<Id, JobRecord>, kept: set<Id>, now: int)
    requires CleanedTo(view, kept, now) && |view.Keys| == MAX_JOBS && |kept| >= MAX_JOBS
    ensures kept == view.Keys
  {
    CleanupDropsOnlyFinished(view, kept, now);
    SubsetSize(kept, view.Keys);
  }

  // ------------------------------------------------- the protocol's steps

  function Restrict(view: map<Id, JobRecord>, kept: set<Id>): map<Id, JobRecord> {
    map id | id in view && id in kept :: view[id]
  }

  /** The queue object with this table and these ids in its channel is in protocol state s. */
  ghost predicate Shows(s: Q.State, view: map<Id, JobRecord>, ids: seq<Id>) {
    s.table == view.Keys && Q.View(s) == view && s.channel == ids
  }

  /** What an accepted Enqueue does to the object is a step of the protocol. */
  lemma EnqueueIsAStep(s: Q.State, view: map<Id, JobRecord>, ids: seq<Id>, kept: set<Id>, id: Id, now: int)
    returns (s': Q.State)
    requires Q.TableInv(s) && Shows(s, view, ids) && s.lock == Q.Free && id !in s.objects
    requires AdmissionLeaves(view, kept, now) && |kept| < 1000
    ensures Q.Next(s, s')
    ensures Shows(s', Restrict(view, kept)[id := JobRecord(Pending, now, false)], if |ids| < 100 then ids + [id] else ids)
  {
    Q.AdmissionTrims(s, kept, now);
    s' := Q.Accepted(s.(table := kept), id, now);
    assert Q.EnqueueBegin(s, s', id, now, kept);
  }

  /** What a rejected Enqueue or the periodic clean-up does to the object is a step of the protocol. */
  lemma CleanupIsAStep(s: Q.State, view: map<Id, JobRecord>, ids: seq<Id>, kept: set<Id>, now: int)
    returns (s': Q.State)
    requires Q.TableInv(s) && Shows(s, view, ids) && s.lock == Q.Free
    requires CleanedTo(view, kept, now) || (AdmissionLeaves(view, kept, now) && |kept| >= 1000)
    ensures Q.Next(s, s') && Shows(s', Restrict(view, kept), ids)
  {
    Q.AdmissionTrims(s, kept, now);
    s' := s.(table := kept);
    assert CleanedTo(view, kept, now) ==> Q.Cleanup(s, s', now, kept);
    assert AdmissionLeaves(view, kept, now) && |kept| >= 1000 ==> Q.EnqueueRejected(s, s', now, kept);
  }

  /** What the worker's first critical section does to the object is a step of the protocol. */
  lemma MarkingIsAStep(s: Q.State, view: map<Id, JobRecord>, ids: seq<Id>, w: nat) returns (s': Q.State)
    requires Q.WorkersInv(s) && Shows(s, view, ids) && s.lock == Q.Free
    requires w < |s.workers| && s.workers[w].Busy? && s.workers[w].phase == Q.Received
    ensures s.workers[w].id in view
    ensures
      var id := s.workers[w].id;
      Q.Next(s, s') && Shows(s', view[id := Q.RunningRecord(view[id])], ids)
  {
    assert Q.WorkerOk(s, w);
    var id := s.workers[w].id;
    s' := s.(objects := s.objects[id := Q.RunningRecord(s.objects[id])],
                 workers := s.workers[w := Q.Busy(id, Q.Marked, false)]);
    assert Q.MarkRunning(s, s', w);
  }

  /** What its last one does, once the worker has published what it had to, is a step too. */
  lemma FinishingIsAStep(s: Q.State, view: map<Id, JobRecord>, ids: seq<Id>, w: nat) returns (s': Q.State)
    requires Q.WorkersInv(s) && Shows(s, view, ids) && s.lock == Q.Free
    requires w < |s.workers| && s.workers[w].Busy? && !s.workers[w].sending && Q.CanFinish(s.workers[w].phase)
    ensures s.workers[w].id in view
    ensures
      var id, p := s.workers[w].id, s.workers[w].phase;
      Q.Next(s, s') && Shows(s', view[id := Q.FinalRecord(view[id], p)], ids)
  {
    assert Q.WorkerOk(s, w);
    var id, p := s.workers[w].id, s.workers[w].phase;
    s' := s.(objects := s.objects[id := Q.FinalRecord(s.objects[id], p)], workers := s.workers[w := Q.Idle]);
    assert Q.Finish(s, s', w);
  }
}
