/** The scheduler object's own state: the in-flight set, and the tick that fills it. */
module Scheduler {
  import opened SchedulerProtocol

  class Scheduler {
    var inflight: set<Id>

    constructor ()
      ensures inflight == {}
    {
      inflight := {};
    }

    /**
      One tick over the due list, with nothing in between: it spawns a run for exactly the due
      schedules that were not in flight, once each even if the list repeats one, in list order.
     */
    method Tick(due: seq<Id>) returns (spawned: seq<Id>)
      modifies this
      ensures inflight == old(inflight) + set id | id in due
      ensures forall id :: id in spawned <==> id in due && id !in old(inflight)
      ensures forall i, j :: 0 <= i < j < |spawned| ==> spawned[i] != spawned[j]
      ensures Subsequence(spawned, due)
    {
      spawned := [];
      var i := 0;
      while i < |due|
        invariant 0 <= i <= |due|
        invariant inflight == old(inflight) + set id | id in due[..i]
        invariant forall id :: id in spawned <==> id in due[..i] && id !in old(inflight)
        invariant forall a, b :: 0 <= a < b < |spawned| ==> spawned[a] != spawned[b]
        invariant Subsequence(spawned, due[..i])
      {
        var id := due[i];
        assert due[..i + 1] == due[..i] + [id];
        SubsequenceGrows(spawned, due[..i], id);
        if id !in inflight {
          inflight := inflight + {id};
          spawned := spawned + [id];
        }
        i := i + 1;
      }
      assert due[..i] == due;
    }
  }

  /** a can be had from b by deleting elements. */
  ghost predicate Subsequence(a: seq<Id>, b: seq<Id>) {
    if a == [] then true
    else if b == [] then false
    else if a[|a| - 1] == b[|b| - 1] then Subsequence(a[..|a| - 1], b[..|b| - 1]) || Subsequence(a, b[..|b| - 1])
    else Subsequence(a, b[..|b| - 1])
  }

  lemma SubsequenceGrows(a: seq<Id>, b: seq<Id>, x: Id)
    requires Subsequence(a, b)
    ensures Subsequence(a, b + [x]) && Subsequence(a + [x], b + [x])
  {
    assert (b + [x])[..|b|] == b && (a + [x])[..|a|] == a;
  }
}
