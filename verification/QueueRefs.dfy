/**
 * Lifetime of a queue in src/queue.c: operations retain it with a compare-and-swap loop and
 * release it, termination gives up the creator's reference once, and whoever drops the last
 * reference destroys the queue.
 */
module QueueRefs {
  import Runs

  datatype State = State(
    refs: int,
    shuttingDown: bool,
    trying: multiset<int>,   // counts that threads in the retain loop have read
    holding: nat,            // operations that hold a reference
    terminating: nat,        // terminations that have raised the flag and not yet released
    destroyed: nat)          // how often the queue has been destroyed

  datatype Step =
    | Load                  // enter the retain loop
    | Swap(seen: int)       // one turn of the loop
    | Miss(seen: int)       // a spurious failure of the swap
    | Release
    | Terminate
    | ReleaseCreator

  const CREATED := State(1, false, multiset{}, 0, 0, 0)

  predicate Enabled(s: State, step: Step) {
    match step
    case Load => true
    case Swap(seen) => seen in s.trying
    case Miss(seen) => seen in s.trying && seen != 0
    case Release => s.holding > 0
    case Terminate => true
    case ReleaseCreator => s.terminating > 0
  }

  /** Whether a turn of the retain loop succeeds. */
  predicate Retains(s: State, seen: int) { seen != 0 && seen == s.refs }

  /** Dropping one reference, destroying on the last. */
  function Drop(s: State): State {
    s.(refs := s.refs - 1, destroyed := s.destroyed + if s.refs == 1 then 1 else 0)
  }

  function Apply(s: State, step: Step): State
    requires Enabled(s, step)
  {
    match step
    case Load => s.(trying := s.trying + multiset{s.refs})
    case Swap(seen) =>
      var t := s.(trying := s.trying - multiset{seen});
      if seen == 0 then t
      else if seen == s.refs then t.(refs := s.refs + 1, holding := s.holding + 1)
      else t.(trying := t.trying + multiset{s.refs})
    case Miss(seen) => s.(trying := s.trying - multiset{seen} + multiset{s.refs})
    case Release => Drop(s).(holding := s.holding - 1)
    case Terminate =>
      if s.shuttingDown then s else s.(shuttingDown := true, terminating := s.terminating + 1)
    case ReleaseCreator => Drop(s).(terminating := s.terminating - 1)
  }

  /** The count is the creator's reference, until it is released, plus the operations in flight. */
  ghost predicate Inv(s: State) {
    && s.refs == s.holding + (if s.shuttingDown then s.terminating else 1)
    && s.terminating <= (if s.shuttingDown then 1 else 0)
    && s.destroyed == if s.refs == 0 then 1 else 0
  }

  predicate Init(s: State) { s == CREATED }

  predicate Next(s: State, step: Step, r: State) { Enabled(s, step) && Apply(s, step) == r }

  ghost predicate Run(states: seq<State>, steps: seq<Step>) { Runs.Run(Init, Next, states, steps) }

  /**
   * In every run: the count is exact; the queue is destroyed at most once, only once shutdown has
   * been flagged and while no operation holds a reference.
   */
  lemma {:induction false} RunKeeps(states: seq<State>, steps: seq<Step>, k: nat)
    requires Run(states, steps) && k < |states|
    ensures Inv(states[k])
    ensures states[k].destroyed <= 1
    ensures states[k].destroyed == 1 ==>
              states[k].shuttingDown && states[k].holding == 0 && states[k].terminating == 0
  {
    if k > 0 {
      RunKeeps(states, steps, k - 1);
      assert Runs.StepAt(Next, states, steps, k - 1);
    }
  }

  /** A turn of the loop gains a reference exactly when the count is what was read and is not zero. */
  lemma RetainsExactly(s: State, seen: int)
    requires Enabled(s, Swap(seen))
    ensures var r := Apply(s, Swap(seen));
            if seen != 0 && seen == s.refs then r.refs == s.refs + 1 && r.holding == s.holding + 1
            else r.refs == s.refs && r.holding == s.holding
    ensures Retains(s, seen) <==> Apply(s, Swap(seen)).holding > s.holding
  {}

  /** Zero is final: from then on the count stays zero and every turn of a retain loop fails. */
  lemma {:induction false} ZeroIsFinal(states: seq<State>, steps: seq<Step>, j: nat, k: nat)
    requires Run(states, steps) && j <= k < |states| && states[j].refs == 0
    ensures states[k].refs == 0 && states[k].holding == 0
    ensures k < |steps| && steps[k].Swap? ==> !Retains(states[k], steps[k].seen)
  {
    RunKeeps(states, steps, k);
    if j < k {
      ZeroIsFinal(states, steps, j, k - 1);
      assert Runs.StepAt(Next, states, steps, k - 1);
    }
  }

  /** The destroying step is the one that takes the count from one to zero. */
  lemma DestroyedByLastRelease(states: seq<State>, steps: seq<Step>, k: nat)
    requires Run(states, steps) && k < |steps|
    ensures states[k + 1].destroyed > states[k].destroyed <==> states[k].refs == 1 && states[k + 1].refs == 0
  {
    RunKeeps(states, steps, k);
    assert Runs.StepAt(Next, states, steps, k);
  }
}
