/** Runs of a transition system given by its step relation. */
module Runs {

  ghost predicate StepAt<S(!new)>(next: (S, S) -> bool, run: seq<S>, i: int) {
    0 <= i < |run| - 1 && next(run[i], run[i + 1])
  }

  /** Consecutive states. */
  ghost predicate IsPath<S(!new)>(next: (S, S) -> bool, run: seq<S>) {
    && |run| > 0
    && forall i {:trigger StepAt(next, run, i)} :: 0 <= i < |run| - 1 ==> StepAt(next, run, i)
  }

  lemma StepOf<S(!new)>(next: (S, S) -> bool, run: seq<S>, i: nat)
    requires IsPath(next, run) && i < |run| - 1
    ensures next(run[i], run[i + 1])
  {
    assert StepAt(next, run, i);
  }

  ghost predicate Preserves<S(!new)>(next: (S, S) -> bool, inv: S -> bool) {
    forall s, s' :: inv(s) && next(s, s') ==> inv(s')
  }

  /** What every step preserves holds from any state on in which it holds. */
  lemma {:induction false} InvariantHolds<S(!new)>(next: (S, S) -> bool, inv: S -> bool, run: seq<S>, i: nat, j: nat)
    requires IsPath(next, run) && i <= j < |run| && inv(run[i]) && Preserves(next, inv)
    ensures inv(run[j])
    decreases j - i
  {
    if i < j {
      InvariantHolds(next, inv, run, i, j - 1);
      StepOf(next, run, j - 1);
    }
  }

  // ---------------------------------------------------------- continuations

  ghost predicate PathFromTo<S(!new)>(next: (S, S) -> bool, run: seq<S>, s: S, t: S) {
    IsPath(next, run) && run[0] == s && run[|run| - 1] == t
  }

  /** Some continuation of s arrives at t. */
  ghost predicate Leads<S(!new)>(next: (S, S) -> bool, s: S, t: S) {
    exists run :: PathFromTo(next, run, s, t)
  }

  lemma LeadsToItself<S(!new)>(next: (S, S) -> bool, s: S)
    ensures Leads(next, s, s)
  {
    assert PathFromTo(next, [s], s, s);
  }

  lemma LeadsTransitively<S(!new)>(next: (S, S) -> bool, s: S, t: S, u: S)
    requires Leads(next, s, t) && Leads(next, t, u)
    ensures Leads(next, s, u)
  {
    var a :| PathFromTo(next, a, s, t);
    var b :| PathFromTo(next, b, t, u);
    var run := a + b[1..];
    forall i | 0 <= i < |run| - 1 ensures StepAt(next, run, i) {
      if i < |a| - 1 {
        assert StepAt(next, a, i);
      } else {
        assert StepAt(next, b, i - (|a| - 1));
      }
    }
    assert PathFromTo(next, run, s, u);
  }

  lemma LeadsOn<S(!new)>(next: (S, S) -> bool, s: S, t: S, u: S)
    requires Leads(next, s, t) && next(t, u)
    ensures Leads(next, s, u)
  {
    assert StepAt(next, [t, u], 0);
    assert PathFromTo(next, [t, u], t, u);
    LeadsTransitively(next, s, t, u);
  }

  lemma InvariantHoldsAfter<S(!new)>(next: (S, S) -> bool, inv: S -> bool, s: S, t: S)
    requires Leads(next, s, t) && inv(s) && Preserves(next, inv)
    ensures inv(t)
  {
    var run :| PathFromTo(next, run, s, t);
    InvariantHolds(next, inv, run, 0, |run| - 1);
  }
}
