/** What each step of the submission pipeline makes of an item, and which items have their data stored. */
module SubmissionItems {
  import opened Common
  import opened Submission
  import opened SubmissionRuns
  import Runs

  // ---- what each step makes of an item ----

  /** The item a step is about. */
  predicate About(step: Step, i: ItemId) { !step.PopRequest? && !step.PopSubmit? && step.i == i }

  /** An item after a step about it, if it is still in the pool. */
  function ItemAfter(x: Item, step: Step): Option<Item> {
    match step
    case Submit(_, flags, CacheHit) => Some(x.(status := SUBMIT, flags := flags.(eventOnly := true)))
    case Submit(_, flags, CacheMiss(_)) => Some(x.(status := CHECK, flags := flags))
    case Submit(_, _, verdict) => Some(x.(status := if verdict == NoType then NO_TYPE else ERROR))
    case Request(_, sent) =>
      Some(if x.status != CHECK then x else x.(status := if sent then CHECKING else ERROR))
    case Respond(_, _, canHaz) =>
      Some(x.(status := SUBMIT, flags := x.flags.(eventOnly := x.flags.eventOnly || !canHaz)))
    case Send(_, sending) =>
      if x.status != SUBMIT then Some(x)
      else
        var kept := x.flags.mayReuse && (sending == Sent || sending == PutFailed);
        Some(x.(status := if sending == Sent then FINALIZED else ERROR, flags := if kept then NO_FLAGS else x.flags))
    case Abandon(_, _) => Some(x.(status := ERROR))
    case SetFinalized(_) => Some(x.(status := FINALIZED, flags := NO_FLAGS))
    case Destroy(_) => None
    case Discard(_) => None
    case _ => Some(x)
  }

  ghost predicate Moves(s: State, step: Step, i: ItemId, r: State)
    requires i in s.pool
  {
    if !About(step, i) then i in r.pool && r.pool[i] == s.pool[i]
    else match ItemAfter(s.pool[i], step)
      case None => i !in r.pool
      case Some(y) => i in r.pool && r.pool[i] == y
  }

  lemma SendMoves(s: State, j: ItemId, sending: Sending)
    requires j in s.pool && j in s.ledger
    ensures var r := DoSend(s, j, sending); j in r.pool && Some(r.pool[j]) == ItemAfter(s.pool[j], Send(j, sending))
  {}

  lemma RequestMoves(s: State, j: ItemId, sent: bool)
    requires j in s.pool && j in s.ledger
    ensures var r := DoRequest(s, j, sent); j in r.pool && Some(r.pool[j]) == ItemAfter(s.pool[j], Request(j, sent))
  {}

  /** Request and submit threads leave the items alone that they did not pop. */
  lemma SendLeaves(s: State, j: ItemId, sending: Sending, i: ItemId)
    requires i != j || i !in s.pool
    ensures var r := DoSend(s, j, sending); (i in r.pool <==> i in s.pool) && (i in s.pool ==> r.pool[i] == s.pool[i])
  {}

  lemma RequestLeaves(s: State, j: ItemId, sent: bool, i: ItemId)
    requires i != j || i !in s.pool
    ensures var r := DoRequest(s, j, sent); (i in r.pool <==> i in s.pool) && (i in s.pool ==> r.pool[i] == s.pool[i])
  {}

  lemma SubmitMoves(s: State, j: ItemId, flags: Flags, verdict: Verdict, i: ItemId)
    requires Enabled(s, Submit(j, flags, verdict)) && i in s.pool
    ensures Moves(s, Submit(j, flags, verdict), i, Apply(s, Submit(j, flags, verdict)))
  {}

  /** Every step leaves the items it is not about as they are, and makes of the other what is said above. */
  lemma ItemMoves(s: State, step: Step, i: ItemId)
    requires Base(s) && Enabled(s, step) && i in s.pool
    ensures Moves(s, step, i, Apply(s, step))
  {
    assert ItemBase(s, i);
    match step
    case Send(j, sending) => if i == j { SendMoves(s, j, sending); } else { SendLeaves(s, j, sending, i); }
    case Request(j, sent) => if i == j { RequestMoves(s, j, sent); } else { RequestLeaves(s, j, sent, i); }
    case Submit(j, flags, verdict) => SubmitMoves(s, j, flags, verdict, i);
    case _ =>
  }

  /** Items come into the pool only by being created, collecting and without flags. */
  lemma NoneAppears(s: State, step: Step, i: ItemId)
    requires Enabled(s, step) && i !in s.pool && i in Apply(s, step).pool
    ensures step.Create? && step.i == i && Apply(s, step).pool[i] == Item(COLLECTING, NO_FLAGS, step.context)
  {
    match step
    case Send(j, sending) => SendLeaves(s, j, sending, i);
    case Request(j, sent) => RequestLeaves(s, j, sent, i);
    case _ =>
  }

  /** Items are popped from the tails of the queues, */
  lemma PopMoves(s: State, step: Step)
    requires Enabled(s, step) && (step.PopRequest? || step.PopSubmit?)
    ensures var r := Apply(s, step);
            if step.PopRequest? then
              var i := s.requests[|s.requests| - 1];
              s.requests == r.requests + [i] && r.submits == s.submits && r.requesting == s.requesting + multiset{i}
            else
              var i := s.submits[|s.submits| - 1];
              s.submits == r.submits + [i] && r.requests == s.requests && r.submitting == s.submitting + multiset{i}
  {}

  /** and pushed there: by a submission to look up, by one not to, and by a response. */
  lemma PushMoves(s: State, step: Step)
    requires Enabled(s, step) && (step.Submit? || step.Respond?)
    ensures var r := Apply(s, step);
            && r.requests == s.requests + (if step.Submit? && step.verdict.CacheMiss? then [step.i] else [])
            && r.submits == s.submits + (if step.Respond? || step.verdict.CacheHit? then [step.i] else [])
  {}

  /** A sent item is kept if it may be reused and was handed to the broker; else its removal is due. */
  lemma SendEnds(s: State, i: ItemId, sending: Sending)
    requires i in s.pool && i in s.ledger && s.pool[i].status == SUBMIT
    ensures var r := DoSend(s, i, sending);
            var kept := s.pool[i].flags.mayReuse && (sending == Sent || sending == PutFailed);
            && r.destroying == (if kept then s.destroying else s.destroying + multiset{i})
            && r.ledger[i].ended == s.ledger[i].ended + (if kept then 1 else 0)
            && r.ledger[i].sent == s.ledger[i].sent + (if sending == Sent then 1 else 0)
            && r.ledger[i].called == s.ledger[i].called + (if s.ledger[i].hasCallback then 1 else 0)
  {}

  // ---- data is stored exactly when asked for ----

  /** The submit thread stores an item's data unless it is flagged event-only or an update. */
  predicate WillStore(s: State, i: ItemId) {
    i in s.pool && s.pool[i].status == SUBMIT && !s.pool[i].flags.eventOnly && !s.pool[i].flags.update
  }

  predicate Submits(step: Step, i: ItemId) { step.Submit? && step.i == i }

  predicate Responds(step: Step, i: ItemId) { step.Respond? && step.i == i }

  /** Step a submits the item, and no later one of the first k does. */
  ghost predicate LastSubmit(steps: seq<Step>, a: nat, k: nat, i: ItemId) {
    a < k <= |steps| && Submits(steps[a], i) && forall m :: a < m < k ==> !Submits(steps[m], i)
  }

  /** No response to that submission has come by then. */
  ghost predicate Unanswered(steps: seq<Step>, a: nat, k: nat, i: ItemId)
    requires k <= |steps|
  {
    forall m :: a < m < k ==> !Responds(steps[m], i)
  }

  /** A response to it has come, and asks for the data. */
  ghost predicate Asked(steps: seq<Step>, a: nat, k: nat, i: ItemId)
    requires k <= |steps|
  {
    exists m :: a < m < k && Responds(steps[m], i) && steps[m].canHaz
  }

  /** How an item in flight gets from one state to the next, other than by being submitted. */
  ghost predicate FliesOn(x: Item, step: Step, i: ItemId, y: Item) {
    if Responds(step, i) then
      x.status == CHECKING && y.status == SUBMIT && y.flags == if step.canHaz then x.flags else x.flags.(eventOnly := true)
    else x == y || (x.status == CHECK && y.status == CHECKING && x.flags == y.flags)
  }

  lemma FlightFrom(s: State, step: Step, i: ItemId)
    requires Base(s) && Enabled(s, step) && !Submits(step, i)
    requires i in Apply(s, step).pool && InFlight(Apply(s, step).pool[i].status)
    ensures i in s.pool && FliesOn(s.pool[i], step, i, Apply(s, step).pool[i])
  {
    if i !in s.pool { NoneAppears(s, step, i); }
    ItemMoves(s, step, i);
  }

  /** An item in flight, and the step that submitted it, after k steps. */
  ghost predicate Tracked(x: Item, steps: seq<Step>, a: nat, k: nat, i: ItemId) {
    && LastSubmit(steps, a, k, i)
    && var flags, verdict := steps[a].flags, steps[a].verdict;
    && (x.status == CHECK || x.status == CHECKING ==>
          verdict.CacheMiss? && x.flags == flags && Unanswered(steps, a, k, i))
    && (x.status == SUBMIT && Unanswered(steps, a, k, i) ==> verdict == CacheHit && x.flags == flags.(eventOnly := true))
    && (x.status == SUBMIT && !Unanswered(steps, a, k, i) ==>
          x.flags == if Asked(steps, a, k, i) then flags else flags.(eventOnly := true))
  }

  lemma TracksOn(x: Item, y: Item, steps: seq<Step>, a: nat, k: nat, i: ItemId)
    requires k < |steps| && Tracked(x, steps, a, k, i) && !Submits(steps[k], i) && FliesOn(x, steps[k], i, y)
    ensures Tracked(y, steps, a, k + 1, i)
  {
    assert Unanswered(steps, a, k + 1, i) <==> Unanswered(steps, a, k, i) && !Responds(steps[k], i);
    assert Asked(steps, a, k + 1, i) <==> Asked(steps, a, k, i) || (Responds(steps[k], i) && steps[k].canHaz);
  }

  lemma FlightOfRun(states: seq<State>, steps: seq<Step>, k: nat, i: ItemId)
    requires Run(states, steps) && 0 < k < |states| && !Submits(steps[k - 1], i)
    requires i in states[k].pool && InFlight(states[k].pool[i].status)
    ensures i in states[k - 1].pool && FliesOn(states[k - 1].pool[i], steps[k - 1], i, states[k].pool[i])
  {
    assert Runs.StepAt(Next, states, steps, k - 1);
    ItemsHaveOnePlace(states, steps, k - 1);
    FlightFrom(states[k - 1], steps[k - 1], i);
  }

  lemma SubmitTracked(states: seq<State>, steps: seq<Step>, k: nat, i: ItemId)
    requires Run(states, steps) && 0 < k < |states| && Submits(steps[k - 1], i)
    requires i in states[k].pool && InFlight(states[k].pool[i].status)
    ensures Tracked(states[k].pool[i], steps, k - 1, k, i)
  {
    assert Runs.StepAt(Next, states, steps, k - 1);
    SubmitMoves(states[k - 1], i, steps[k - 1].flags, steps[k - 1].verdict, i);
  }

  lemma {:induction false} Tracks(states: seq<State>, steps: seq<Step>, k: nat, i: ItemId) returns (a: nat)
    requires Run(states, steps) && k < |states| && i in states[k].pool && InFlight(states[k].pool[i].status)
    ensures Tracked(states[k].pool[i], steps, a, k, i)
  {
    if Submits(steps[k - 1], i) {
      a := k - 1;
      SubmitTracked(states, steps, k, i);
    } else {
      FlightOfRun(states, steps, k, i);
      a := Tracks(states, steps, k - 1, i);
      TracksOn(states[k - 1].pool[i], states[k].pool[i], steps, a, k - 1, i);
    }
  }

  /**
   * In every run, an item about to be sent will have its data stored exactly when the response to
   * its last submission asked for it and that submission was neither event-only nor an update.
   */
  lemma StoredExactlyWhenAsked(states: seq<State>, steps: seq<Step>, k: nat, i: ItemId) returns (a: nat)
    requires Run(states, steps) && k < |states| && i in states[k].pool && states[k].pool[i].status == SUBMIT
    ensures LastSubmit(steps, a, k, i)
    ensures WillStore(states[k], i) <==>
            Asked(steps, a, k, i) && !steps[a].flags.eventOnly && !steps[a].flags.update
  {
    a := Tracks(states, steps, k, i);
  }
}
