/** Runs of a transition system: finite sequences of states that start in an initial
    state and in which every state is a successor of the one before it. */
module Runs {

  ghost predicate IsRun<S(!new)>(init: S -> bool, next: (S, S) -> bool, run: seq<S>) {
    && |run| > 0
    && init(run[0])
    && forall i | 0 < i < |run| :: next(run[i - 1], run[i])
  }

  ghost predicate Inductive<S(!new)>(init: S -> bool, next: (S, S) -> bool, inv: S -> bool) {
    && (forall s :: init(s) ==> inv(s))
    && (forall s, s' :: inv(s) && next(s, s') ==> inv(s'))
  }

  /** What every step keeps holds in every state of every run. */
  lemma {:induction false} Invariance<S(!new)>(init: S -> bool, next: (S, S) -> bool, inv: S -> bool,
                                              run: seq<S>, i: nat)
    requires IsRun(init, next, run) && Inductive(init, next, inv)
    requires i < |run|
    ensures inv(run[i])
  {
    if i > 0 {
      Invariance(init, next, inv, run, i - 1);
    }
  }

  /** A measure that every step from an invariant state lowers bounds the length of every run. */
  lemma {:induction false} Termination<S(!new)>(init: S -> bool, next: (S, S) -> bool, inv: S -> bool,
                                                measure: S -> int, run: seq<S>, i: nat)
    requires IsRun(init, next, run) && Inductive(init, next, inv)
    requires forall s :: inv(s) ==> measure(s) >= 0
    requires forall s, s' :: inv(s) && next(s, s') ==> measure(s') < measure(s)
    requires i < |run|
    ensures 0 <= measure(run[i]) <= measure(run[0]) - i
  {
    Invariance(init, next, inv, run, i);
    if i > 0 {
      Termination(init, next, inv, measure, run, i - 1);
      Invariance(init, next, inv, run, i - 1);
    }
  }

  lemma RunGrows<S(!new)>(init: S -> bool, next: (S, S) -> bool, run: seq<S>, s: S)
    requires IsRun(init, next, run) && next(run[|run| - 1], s)
    ensures IsRun(init, next, run + [s])
  {
  }

  lemma RunShrinks<S(!new)>(init: S -> bool, next: (S, S) -> bool, run: seq<S>)
    requires IsRun(init, next, run) && |run| > 1
    ensures IsRun(init, next, run[..|run| - 1]) && next(run[|run| - 2], run[|run| - 1])
  {
  }
}
