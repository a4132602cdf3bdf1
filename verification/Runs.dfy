/** Runs of a transition system, given by its initial states and its steps. */
module Runs {
  ghost predicate StepAt<S, E>(next: (S, E, S) -> bool, states: seq<S>, steps: seq<E>, k: nat)
    requires k + 1 < |states| && k < |steps|
  {
    next(states[k], steps[k], states[k + 1])
  }

  ghost predicate Run<S, E>(init: S -> bool, next: (S, E, S) -> bool, states: seq<S>, steps: seq<E>) {
    && |states| == |steps| + 1 && init(states[0])
    && (forall k {:trigger StepAt(next, states, steps, k)} :: 0 <= k < |steps| ==> StepAt(next, states, steps, k))
  }

  lemma RunNext<S, E>(init: S -> bool, next: (S, E, S) -> bool, states: seq<S>, steps: seq<E>, step: E, s: S)
    requires Run(init, next, states, steps) && next(states[|steps|], step, s)
    ensures Run(init, next, states + [s], steps + [step])
  {
    var states', steps' := states + [s], steps + [step];
    forall k | 0 <= k < |steps'| ensures StepAt(next, states', steps', k) {
      if k < |steps| { assert StepAt(next, states, steps, k); }
    }
  }

  /** The last state of some run. */
  ghost predicate Reachable<S(!new), E(!new)>(init: S -> bool, next: (S, E, S) -> bool, s: S) {
    exists states, steps :: Run(init, next, states, steps) && states[|steps|] == s
  }

  lemma ReachInit<S(!new), E(!new)>(init: S -> bool, next: (S, E, S) -> bool, s: S)
    requires init(s)
    ensures Reachable(init, next, s)
  {
    assert Run(init, next, [s], []);
  }

  lemma ReachNext<S(!new), E(!new)>(init: S -> bool, next: (S, E, S) -> bool, s: S, step: E, r: S)
    requires Reachable(init, next, s) && next(s, step, r)
    ensures Reachable(init, next, r)
  {
    var states, steps :| Run(init, next, states, steps) && states[|steps|] == s;
    RunNext(init, next, states, steps, step, r);
  }
}
