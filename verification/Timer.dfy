/**
 * Destroying a timer, src/timer.c.  Any number of threads may destroy it from outside: each asks
 * the worker to stop, counts itself as a waiter, joins the worker, and the last to leave cleans
 * up.  The timer's own callback may destroy it too: cleanup is then deferred to the worker's exit,
 * unless outside waiters are there to do it.
 */
module Timer {
  import Runs

  /** Where the worker is. */
  datatype Worker =
    | Top         // about to test the loop condition
    | Sleeping    // waiting out the interval, testing for a stop request at each poll
    | Callback    // running the callback
    | Leaving     // past the loop, about to take the lock for the last time
    | Freeing     // has decided to clean up and released the lock
    | Ended

  datatype State = State(
    worker: Worker,
    stop: bool,          // bStopRequested
    deferred: bool,      // bDestroyDeferred
    cleanup: bool,       // bCleanupDone
    hasThread: bool,     // timer->thread is set
    waiters: nat,        // destroyWaiters
    joining: nat,        // outside destroyers between their two locked sections
    freeing: nat,        // outside destroyers that have decided to clean up
    freed: nat)          // how often the resources were released

  datatype Step =
    | TestLoop           // while (!Timer_ShouldStop(timer))
    | Poll               // a stop test while sleeping
    | Expire             // the stop test after the interval
    | DestroySelf        // Timer_Destroy from the callback
    | ReturnFromCallback
    | Leave              // the worker's last locked section
    | WorkerFrees
    | EnterDestroy       // first locked section of an outside Timer_Destroy
    | LeaveDestroy       // its second locked section, once the worker has been joined
    | DestroyerFrees

  const CREATED := State(Top, false, false, false, true, 0, 0, 0, 0)

  predicate Enabled(s: State, step: Step) {
    match step
    case TestLoop => s.worker == Top
    case Poll => s.worker == Sleeping
    case Expire => s.worker == Sleeping
    case DestroySelf => s.worker == Callback
    case ReturnFromCallback => s.worker == Callback
    case Leave => s.worker == Leaving
    case WorkerFrees => s.worker == Freeing
    case EnterDestroy => !s.cleanup
    case LeaveDestroy => s.joining > 0 && s.worker == Ended
    case DestroyerFrees => s.freeing > 0
  }

  function Apply(s: State, step: Step): State
    requires Enabled(s, step)
  {
    match step
    case TestLoop => s.(worker := if s.stop then Leaving else Sleeping)
    case Poll => s.(worker := if s.stop then Ended else Sleeping)
    case Expire => s.(worker := if s.stop then Ended else Callback)
    case DestroySelf => s.(stop := true, deferred := true)
    case ReturnFromCallback => s.(worker := Top)
    case Leave =>
      if s.deferred && s.waiters == 0 && !s.cleanup then s.(worker := Freeing, cleanup := true, hasThread := false)
      else s.(worker := Ended)
    case WorkerFrees => s.(worker := Ended, freed := s.freed + 1)
    case EnterDestroy =>
      s.(stop := true, waiters := s.waiters + if !s.cleanup && s.hasThread then 1 else 0, joining := s.joining + 1)
    case LeaveDestroy =>
      var w := if s.waiters > 0 then s.waiters - 1 else 0;
      var t := s.(waiters := w, joining := s.joining - 1);
      if !s.cleanup && w == 0 then t.(cleanup := true, hasThread := false, freeing := s.freeing + 1) else t
    case DestroyerFrees => s.(freeing := s.freeing - 1, freed := s.freed + 1)
  }

  ghost predicate Inv(s: State) {
    && s.waiters == s.joining
    && s.hasThread == !s.cleanup
    && (s.cleanup ==> s.joining == 0 && (s.worker == Ended || s.worker == Freeing))
    && s.freed + s.freeing + (if s.worker == Freeing then 1 else 0) == (if s.cleanup then 1 else 0)
    && (s.worker == Leaving ==> s.stop)
    && (s.deferred ==> s.stop && s.worker != Sleeping)
    // a requested stop has someone left to clean up
    && (s.stop ==> s.cleanup || s.joining > 0 || (s.deferred && s.worker != Ended))
    && (s.joining > 0 ==> s.stop)
    && (s.worker == Ended || s.worker == Freeing ==> s.stop)
  }

  predicate Init(s: State) { s == CREATED }

  predicate Next(s: State, step: Step, r: State) { Enabled(s, step) && Apply(s, step) == r }

  ghost predicate Run(states: seq<State>, steps: seq<Step>) { Runs.Run(Init, Next, states, steps) }

  lemma {:induction false} RunKeeps(states: seq<State>, steps: seq<Step>, k: nat)
    requires Run(states, steps) && k < |states|
    ensures Inv(states[k])
  {
    if k > 0 {
      RunKeeps(states, steps, k - 1);
      assert Runs.StepAt(Next, states, steps, k - 1);
    }
  }

  /**
   * At most one party cleans up; cleanup is decided only when the worker has ended or is itself
   * in its last step and no other destroyer is still to come back to the timer.
   */
  lemma CleanedUpAtMostOnce(states: seq<State>, steps: seq<Step>, k: nat)
    requires Run(states, steps) && k < |states|
    ensures var s := states[k];
            && s.freed <= 1
            && (s.cleanup ==> s.worker == Ended || s.worker == Freeing)
            && (s.freed == 1 ==> s.worker == Ended && s.joining == 0 && s.freeing == 0)
  {
    RunKeeps(states, steps, k);
  }

  /** A worker that tests for a stop once one is requested leaves; it begins no further callback. */
  lemma StopEndsWorker(s: State, step: Step)
    requires Enabled(s, step) && s.stop
    ensures step.TestLoop? ==> Apply(s, step).worker == Leaving
    ensures step.Poll? || step.Expire? ==> Apply(s, step).worker == Ended
    ensures Apply(s, step).worker == Callback ==> s.worker == Callback
  {}

  /** Without one it sleeps out its interval and runs the callback, over and over. */
  lemma WorkerGoesRound(s: State)
    requires !s.stop && s.worker == Top
    ensures var a := Apply(s, TestLoop); a.worker == Sleeping && Enabled(a, Poll)
    ensures var b := Apply(Apply(s, TestLoop), Poll); b.worker == Sleeping && Apply(b, Expire).worker == Callback
    ensures Apply(Apply(Apply(s, TestLoop), Expire), ReturnFromCallback) == s
  {}

  /** When everyone involved is done, exactly one has cleaned up. */
  lemma CleanedUpExactlyOnce(states: seq<State>, steps: seq<Step>, k: nat)
    requires Run(states, steps) && k < |states|
    requires states[k].worker == Ended && states[k].joining == 0 && states[k].freeing == 0
    ensures states[k].freed == 1
  {
    RunKeeps(states, steps, k);
  }

  /** The poll interval in milliseconds. */
  const POLL: nat := 100

  /**
   * The inner loop of the worker: sleeps in steps of at most the poll interval.  Unless a stop is
   * seen it has then slept the whole interval; stopAt(k) is what the k-th test answers.
   */
  method SleepInterval(interval: nat, stopAt: nat -> bool) returns (slept: nat, tests: nat, stopped: bool)
    ensures stopped ==> tests > 0 && stopAt(tests - 1) && slept == POLL * (tests - 1) < 1000 * interval
    ensures !stopped ==> slept == 1000 * interval && POLL * tests == 1000 * interval
    ensures forall k :: 0 <= k < tests - (if stopped then 1 else 0) ==> !stopAt(k)
  {
    var remaining := interval * 1000;
    slept, tests, stopped := 0, 0, false;
    while remaining > 0
      invariant remaining >= 0 && slept + remaining == 1000 * interval
      invariant slept == POLL * tests && remaining % POLL == 0
      invariant forall k :: 0 <= k < tests ==> !stopAt(k)
    {
      tests := tests + 1;
      if stopAt(tests - 1) {
        return slept, tests, true;
      }
      var step := if remaining > POLL then POLL else remaining;
      slept := slept + step;
      remaining := remaining - step;
    }
  }
}
