/**
 * The inspection pipeline of src/inspection.c: one receiver takes deliveries and hands them to
 * workers through the pending list; workers hand them back through the completed list; only the
 * receiver settles them.  Shutdown waits for the workers, then for the completed list, then stops
 * and joins the receiver.  Steps of all threads interleave; popping takes the tail of a list.
 */
module Inspection {
  import opened Common
  import Runs

  type Message = nat

  /** How far Inspection_Shutdown has got. */
  datatype Phase = Running | WorkersGone | CompletedEmpty | Destroyed

  datatype State = State(
    shutdownStarted: bool,
    phase: Phase,
    stopReceiver: bool,
    receiverExited: bool,
    workers: nat,                     // workers alive
    received: Option<Message>,        // in the receiver's hand, not yet handed on
    draining: Option<Message>,        // in the receiver's hand, to be acknowledged
    pending: seq<Message>,
    working: multiset<Message>,       // with a worker, not yet processed
    finished: multiset<Message>,      // with a worker, processed
    completed: seq<Message>,
    // history
    seen: set<Message>,
    processed: multiset<Message>,
    acked: multiset<Message>,
    requeued: multiset<Message>,
    gone: multiset<Message>,          // destroyed messages
    lostCompleted: nat)               // processed messages destroyed with the completed list

  datatype Step =
    | Receive(m: Message)
    | Reject(enqueued: bool)
    | PushPending(pushed: bool, enqueued: bool)
    | PopPending
    | Process(m: Message)
    | Complete(m: Message, pushed: bool)
    | WorkerExit
    | DrainPop
    | DrainAck(enqueued: bool)
    | StartShutdown
    | SeeWorkersGone
    | SeeCompletedEmpty
    | StopReceiver
    | ReceiverExit
    | DestroyLists

  function Launched(workers: nat): State {
    State(false, Running, false, false, workers, None, None, [], multiset{}, multiset{}, [],
          {}, multiset{}, multiset{}, multiset{}, multiset{}, 0)
  }

  predicate ReceiverIdle(s: State) { !s.receiverExited && s.received == None && s.draining == None }

  predicate Enabled(s: State, step: Step) {
    match step
    case Receive(m) => ReceiverIdle(s) && m !in s.seen
    case Reject(_) => s.received.Some? && (s.shutdownStarted || s.stopReceiver)
    case PushPending(_, _) => s.received.Some?
    case PopPending => s.pending != [] && |s.working| + |s.finished| < s.workers
    case Process(m) => m in s.working
    case Complete(m, _) => m in s.finished && s.workers > 0
    case WorkerExit => |s.working| + |s.finished| < s.workers
    case DrainPop => ReceiverIdle(s) && s.completed != []
    case DrainAck(_) => s.draining.Some?
    case StartShutdown => true
    case SeeWorkersGone => s.shutdownStarted && s.phase == Running && s.workers == 0
    case SeeCompletedEmpty => s.phase == WorkersGone && s.completed == []
    case StopReceiver => s.phase == CompletedEmpty
    case ReceiverExit => ReceiverIdle(s) && s.stopReceiver && s.completed == []
    case DestroyLists => s.phase == CompletedEmpty && s.receiverExited
  }

  function Destroy(s: State, m: Message): State { s.(gone := s.gone + multiset{m}) }

  /** Rejecting for redelivery, then destroying the message; the rejection may fail to be enqueued. */
  function DoReject(s: State, m: Message, enqueued: bool): State {
    Destroy(s.(received := None, requeued := s.requeued + if enqueued then multiset{m} else multiset{}), m)
  }

  function Apply(s: State, step: Step): State
    requires Enabled(s, step)
  {
    match step
    case Receive(m) => s.(received := Some(m), seen := s.seen + {m})
    case Reject(enqueued) => DoReject(s, s.received.value, enqueued)
    case PushPending(pushed, enqueued) =>
      if pushed then s.(received := None, pending := s.pending + [s.received.value])
      else DoReject(s, s.received.value, enqueued)
    case PopPending =>
      var n := |s.pending| - 1;
      s.(pending := s.pending[..n], working := s.working + multiset{s.pending[n]})
    case Process(m) =>
      s.(working := s.working - multiset{m}, finished := s.finished + multiset{m},
         processed := s.processed + multiset{m})
    case Complete(m, pushed) =>
      var t := s.(finished := s.finished - multiset{m});
      if pushed then t.(completed := s.completed + [m])
      else Destroy(t.(shutdownStarted := true, workers := s.workers - 1), m)
    case WorkerExit => s.(workers := s.workers - 1)
    case DrainPop =>
      var n := |s.completed| - 1;
      s.(completed := s.completed[..n], draining := Some(s.completed[n]))
    case DrainAck(enqueued) =>
      var m := s.draining.value;
      Destroy(s.(draining := None, acked := s.acked + if enqueued then multiset{m} else multiset{}), m)
    case StartShutdown => s.(shutdownStarted := true)
    case SeeWorkersGone => s.(phase := WorkersGone)
    case SeeCompletedEmpty => s.(phase := CompletedEmpty)
    case StopReceiver => s.(stopReceiver := true)
    case ReceiverExit => s.(receiverExited := true)
    case DestroyLists =>
      s.(phase := Destroyed, pending := [], completed := [],
         gone := s.gone + multiset(s.pending) + multiset(s.completed),
         lostCompleted := s.lostCompleted + |s.completed|)
  }

  // ---- conservation ----

  function Hand(o: Option<Message>, m: Message): nat { if o == Some(m) then 1 else 0 }

  /** How many stages hold a message before it is processed, and after. */
  function Before(s: State, m: Message): nat {
    Hand(s.received, m) + multiset(s.pending)[m] + s.working[m]
  }

  function After(s: State, m: Message): nat {
    s.finished[m] + multiset(s.completed)[m] + Hand(s.draining, m)
  }

  /** A message received is in exactly one stage, or destroyed. */
  ghost predicate Staged(s: State, m: Message) {
    Before(s, m) + After(s, m) + s.gone[m] == if m in s.seen then 1 else 0
  }

  /** It is processed at most once; settled at most once, and then as its processing calls for. */
  ghost predicate Settled(s: State, m: Message) {
    && s.processed[m] <= 1
    && (Before(s, m) > 0 ==> s.processed[m] == 0)
    && (After(s, m) > 0 ==> s.processed[m] == 1)
    && s.acked[m] + s.requeued[m] <= s.gone[m]
    && (s.acked[m] > 0 ==> s.processed[m] == 1)
    && (s.requeued[m] > 0 ==> s.processed[m] == 0)
    && (m !in s.seen ==> s.processed[m] == 0)
  }

  ghost predicate MessageOk(s: State, m: Message) { Staged(s, m) && Settled(s, m) }

  /** What the shutdown has seen stays so. */
  ghost predicate ShutdownOk(s: State) {
    && |s.working| + |s.finished| <= s.workers
    && (s.phase != Running ==> s.workers == 0)
    && (s.phase == CompletedEmpty || s.phase == Destroyed ==> s.completed == [])
    && s.lostCompleted == 0
  }

  ghost predicate Inv(s: State) {
    ShutdownOk(s) && forall m {:trigger MessageOk(s, m)} :: MessageOk(s, m)
  }

  lemma ReceiveKeeps(s: State, m: Message)
    requires Inv(s) && Enabled(s, Receive(m))
    ensures Inv(Apply(s, Receive(m)))
  {
    var r := Apply(s, Receive(m));
    assert MessageOk(s, m);
    forall n ensures MessageOk(r, n) { assert MessageOk(s, n); }
  }

  lemma RejectKeeps(s: State, enqueued: bool)
    requires Inv(s) && s.received.Some?
    ensures Inv(DoReject(s, s.received.value, enqueued))
  {
    var r := DoReject(s, s.received.value, enqueued);
    forall m ensures MessageOk(r, m) { assert MessageOk(s, m); }
  }

  lemma HandOnKeeps(s: State)
    requires Inv(s) && s.received.Some?
    ensures Inv(Apply(s, PushPending(true, false)))
  {
    var r := Apply(s, PushPending(true, false));
    forall m ensures MessageOk(r, m) { assert MessageOk(s, m); }
  }

  lemma DrainPopKeeps(s: State)
    requires Inv(s) && Enabled(s, DrainPop)
    ensures Inv(Apply(s, DrainPop))
  {
    var r := Apply(s, DrainPop);
    MultisetPop(s.completed);
    forall m ensures MessageOk(r, m) { assert MessageOk(s, m); }
  }

  lemma DrainAckKeeps(s: State, enqueued: bool)
    requires Inv(s) && Enabled(s, DrainAck(enqueued))
    ensures Inv(Apply(s, DrainAck(enqueued)))
  {
    var r := Apply(s, DrainAck(enqueued));
    forall m ensures MessageOk(r, m) { assert MessageOk(s, m); }
  }

  lemma PopPendingKeeps(s: State)
    requires Inv(s) && Enabled(s, PopPending)
    ensures Inv(Apply(s, PopPending))
  {
    var r := Apply(s, PopPending);
    MultisetPop(s.pending);
    forall m ensures MessageOk(r, m) { assert MessageOk(s, m); }
  }

  lemma ProcessKeeps(s: State, m: Message)
    requires Inv(s) && Enabled(s, Process(m))
    ensures Inv(Apply(s, Process(m)))
  {
    var r := Apply(s, Process(m));
    assert MessageOk(s, m);
    forall n ensures MessageOk(r, n) { assert MessageOk(s, n); }
  }

  lemma CompleteKeeps(s: State, m: Message, pushed: bool)
    requires Inv(s) && Enabled(s, Complete(m, pushed))
    ensures Inv(Apply(s, Complete(m, pushed)))
  {
    var r := Apply(s, Complete(m, pushed));
    assert MessageOk(s, m);
    forall n ensures MessageOk(r, n) { assert MessageOk(s, n); }
  }

  lemma ShutdownKeeps(s: State, step: Step)
    requires Inv(s) && Enabled(s, step)
    requires step.WorkerExit? || step.StartShutdown? || step.SeeWorkersGone? || step.SeeCompletedEmpty? || step.StopReceiver?
             || step.ReceiverExit? || step.DestroyLists?
    ensures Inv(Apply(s, step))
  {
    var r := Apply(s, step);
    forall m ensures MessageOk(r, m) { assert MessageOk(s, m); }
  }

  lemma StepKeeps(s: State, step: Step)
    requires Inv(s) && Enabled(s, step)
    ensures Inv(Apply(s, step))
  {
    match step
    case Receive(m) => ReceiveKeeps(s, m);
    case Reject(enqueued) => RejectKeeps(s, enqueued);
    case PushPending(pushed, enqueued) => if pushed { HandOnKeeps(s); } else { RejectKeeps(s, enqueued); }
    case PopPending => PopPendingKeeps(s);
    case Process(m) => ProcessKeeps(s, m);
    case Complete(m, pushed) => CompleteKeeps(s, m, pushed);
    case DrainPop => DrainPopKeeps(s);
    case DrainAck(enqueued) => DrainAckKeeps(s, enqueued);
    case _ => ShutdownKeeps(s, step);
  }

  /** One completed message is taken, acknowledged if that can be enqueued, and destroyed. */
  function DrainedOne(s: State, enqueued: bool): State
    requires s.completed != []
  {
    var n := |s.completed| - 1;
    s.(completed := s.completed[..n], gone := s.gone + multiset{s.completed[n]},
       acked := s.acked + if enqueued then multiset{s.completed[n]} else multiset{})
  }

  lemma DrainedOneKeeps(s: State, enqueued: bool)
    requires Inv(s) && ReceiverIdle(s) && s.completed != []
    ensures Apply(Apply(s, DrainPop), DrainAck(enqueued)) == DrainedOne(s, enqueued)
    ensures Inv(DrainedOne(s, enqueued)) && ReceiverIdle(DrainedOne(s, enqueued))
  {
    DrainPopKeeps(s);
    DrainAckKeeps(Apply(s, DrainPop), enqueued);
  }

  /** All of them; enqueues(k) is how the k-th acknowledgement comes out. */
  function Drained(s: State, enqueues: nat -> bool, k: nat): State
    decreases |s.completed|
  {
    if s.completed == [] then s else Drained(DrainedOne(s, enqueues(k)), enqueues, k + 1)
  }

  /** Draining destroys every completed message, acknowledges at most those, and changes nothing else. */
  lemma {:induction false} DrainedAll(s: State, enqueues: nat -> bool, k: nat)
    decreases |s.completed|
    ensures var r := Drained(s, enqueues, k);
            && r == s.(completed := [], acked := r.acked, gone := s.gone + multiset(s.completed))
            && s.acked <= r.acked <= s.acked + multiset(s.completed)
            && ((forall i :: k <= i ==> enqueues(i)) ==> r.acked == s.acked + multiset(s.completed))
  {
    if s.completed != [] {
      MultisetPop(s.completed);
      DrainedAll(DrainedOne(s, enqueues(k)), enqueues, k + 1);
    }
  }

  /** Inspection_Drain_Completed, while the workers add nothing. */
  method DrainCompleted(s: State, enqueues: nat -> bool) returns (r: State)
    requires Inv(s) && ReceiverIdle(s)
    ensures Inv(r) && r == Drained(s, enqueues, 0)
  {
    r := s;
    var k := 0;
    while r.completed != []
      invariant Inv(r) && ReceiverIdle(r) && Drained(r, enqueues, k) == Drained(s, enqueues, 0)
      decreases |r.completed|
    {
      DrainedOneKeeps(r, enqueues(k));
      r := Apply(r, DrainPop);
      r := Apply(r, DrainAck(enqueues(k)));
      k := k + 1;
    }
  }

  // ---- runs ----

  predicate Init(s: State) { s == Launched(s.workers) }

  predicate Next(s: State, step: Step, r: State) { Enabled(s, step) && Apply(s, step) == r }

  ghost predicate Run(states: seq<State>, steps: seq<Step>) { Runs.Run(Init, Next, states, steps) }

  lemma {:induction false} RunKeeps(states: seq<State>, steps: seq<Step>, k: nat)
    requires Run(states, steps) && k < |states|
    ensures Inv(states[k])
  {
    if k == 0 {
      forall m ensures MessageOk(states[0], m) {}
    } else {
      RunKeeps(states, steps, k - 1);
      assert Runs.StepAt(Next, states, steps, k - 1);
      StepKeeps(states[k - 1], steps[k - 1]);
    }
  }

  /** What every run keeps of a message. */
  lemma MessageConserved(states: seq<State>, steps: seq<Step>, k: nat, m: Message)
    requires Run(states, steps) && k < |states|
    ensures var s := states[k];
            && (m in s.seen ==> Before(s, m) + After(s, m) + s.gone[m] == 1)
            && s.acked[m] + s.requeued[m] <= 1
            && (s.acked[m] == 1 ==> s.processed[m] == 1)
            && (s.requeued[m] == 1 ==> s.processed[m] == 0)
  {
    RunKeeps(states, steps, k);
    assert MessageOk(states[k], m);
  }

  /** The messages a step lets go of. */
  function Lost(s: State, step: Step): multiset<Message>
    requires Enabled(s, step)
  {
    match step
    case Reject(_) => multiset{s.received.value}
    case PushPending(pushed, _) => if pushed then multiset{} else multiset{s.received.value}
    case Complete(m, pushed) => if pushed then multiset{} else multiset{m}
    case DrainAck(_) => multiset{s.draining.value}
    case DestroyLists => multiset(s.pending) + multiset(s.completed)
    case _ => multiset{}
  }

  /** Whether letting go so acknowledges a message, or rejects it for redelivery. */
  predicate Acks(step: Step) { step.DrainAck? && step.enqueued }

  predicate Requeues(step: Step) {
    (step.Reject? && step.enqueued) || (step.PushPending? && !step.pushed && step.enqueued)
  }

  lemma GoneMoves(s: State, step: Step, m: Message)
    requires Enabled(s, step)
    ensures Apply(s, step).gone[m] == s.gone[m] + Lost(s, step)[m]
  {}

  lemma AckMoves(s: State, step: Step, m: Message)
    requires Enabled(s, step)
    ensures Apply(s, step).acked[m] == s.acked[m] + (if Acks(step) then Lost(s, step)[m] else 0)
  {}

  lemma RequeueMoves(s: State, step: Step, m: Message)
    requires Enabled(s, step)
    ensures Apply(s, step).requeued[m] == s.requeued[m] + (if Requeues(step) then Lost(s, step)[m] else 0)
  {}

  lemma ProcessMoves(s: State, step: Step, m: Message)
    requires Enabled(s, step)
    ensures Apply(s, step).processed[m] == s.processed[m] + (if step == Process(m) then 1 else 0)
  {}

  /** A message that is gone, and was settled as the step that let go of it did. */
  ghost predicate SettledAs(s: State, m: Message, step: Step) {
    && s.gone[m] == 1
    && s.acked[m] == (if Acks(step) then 1 else 0)
    && s.requeued[m] == (if Requeues(step) then 1 else 0)
  }

  lemma LostOnce(s: State, step: Step, m: Message)
    requires Inv(s) && Enabled(s, step)
    ensures s.gone[m] + Lost(s, step)[m] <= 1
  {
    StepKeeps(s, step);
    assert MessageOk(Apply(s, step), m);
    GoneMoves(s, step, m);
  }

  /** A step lets go only of messages that are not gone, once, and settles them then; others stay as they were settled. */
  lemma SettlesOnce(s: State, step: Step, m: Message, was: Step)
    requires Inv(s) && Enabled(s, step)
    ensures s.gone[m] == 0 && Apply(s, step).gone[m] > 0 ==> m in Lost(s, step) && SettledAs(Apply(s, step), m, step)
    ensures SettledAs(s, m, was) ==> SettledAs(Apply(s, step), m, was)
  {
    assert MessageOk(s, m);
    LostOnce(s, step, m);
    GoneMoves(s, step, m);
    AckMoves(s, step, m);
    RequeueMoves(s, step, m);
  }

  lemma SettlesInRun(states: seq<State>, steps: seq<Step>, k: nat, m: Message, was: Step)
    requires Run(states, steps) && k < |steps|
    ensures Enabled(states[k], steps[k])
    ensures states[k].gone[m] == 0 && states[k + 1].gone[m] > 0 ==>
              m in Lost(states[k], steps[k]) && SettledAs(states[k + 1], m, steps[k])
    ensures SettledAs(states[k], m, was) ==> SettledAs(states[k + 1], m, was)
  {
    RunKeeps(states, steps, k);
    assert Runs.StepAt(Next, states, steps, k);
    SettlesOnce(states[k], steps[k], m, was);
  }

  /**
   * Every message that is gone was let go by one step, and was acknowledged or rejected for
   * redelivery exactly as that step did.
   */
  lemma {:induction false} SettledByStep(states: seq<State>, steps: seq<Step>, k: nat, m: Message) returns (j: nat)
    requires Run(states, steps) && k < |states| && states[k].gone[m] > 0
    ensures j < k && Enabled(states[j], steps[j]) && m in Lost(states[j], steps[j])
    ensures SettledAs(states[k], m, steps[j])
  {
    if states[k - 1].gone[m] > 0 {
      j := SettledByStep(states, steps, k - 1, m);
    } else {
      j := k - 1;
    }
    SettlesInRun(states, steps, k - 1, m, steps[j]);
  }

  /** A message has been processed exactly when a worker processed it. */
  lemma {:induction false} ProcessedByStep(states: seq<State>, steps: seq<Step>, k: nat, m: Message)
    requires Run(states, steps) && k < |states|
    ensures states[k].processed[m] > 0 <==> exists j :: 0 <= j < k && steps[j] == Process(m)
  {
    if k > 0 {
      ProcessedByStep(states, steps, k - 1, m);
      assert Runs.StepAt(Next, states, steps, k - 1);
      ProcessMoves(states[k - 1], steps[k - 1], m);
    }
  }

  /** The completed list is empty when shutdown destroys it: no processed message is lost there. */
  lemma CompletedEmptyAtDestroy(states: seq<State>, steps: seq<Step>, k: nat)
    requires Run(states, steps) && k < |steps| && steps[k].DestroyLists?
    ensures states[k].completed == [] && states[k].working == multiset{} && states[k].finished == multiset{}
    ensures states[k].draining == None
  {
    RunKeeps(states, steps, k);
    assert Runs.StepAt(Next, states, steps, k);
    ExitedHandsEmpty(states, steps, k);
  }

  lemma ExitedStays(s: State, step: Step)
    requires Enabled(s, step) && (s.receiverExited ==> s.draining == None && s.received == None)
    ensures var r := Apply(s, step); r.receiverExited ==> r.draining == None && r.received == None
  {}

  lemma {:induction false} ExitedHandsEmpty(states: seq<State>, steps: seq<Step>, k: nat)
    requires Run(states, steps) && k < |states|
    ensures states[k].receiverExited ==> states[k].draining == None && states[k].received == None
  {
    if k > 0 {
      ExitedHandsEmpty(states, steps, k - 1);
      assert Runs.StepAt(Next, states, steps, k - 1);
      ExitedStays(states[k - 1], steps[k - 1]);
    }
  }
}
