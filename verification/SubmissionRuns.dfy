/** What every interleaving of the submission pipeline keeps. */
module SubmissionRuns {
  import opened Common
  import opened Submission
  import Runs

  predicate Ended(status: Status) { status == ERROR || status == NO_TYPE || status == FINALIZED }

  /** An item is where its status says, once, and nowhere else. */
  ghost predicate Placed(s: State, i: ItemId) {
    && (Places(s, i) > 0 ==> i in s.pool)
    && (i in s.pool ==>
          && var status := s.pool[i].status;
          && multiset(s.requests)[i] + s.requesting[i] == (if status == CHECK then 1 else 0)
          && multiset(s.submits)[i] + s.submitting[i] == (if status == SUBMIT then 1 else 0)
          && s.notifying[i] + s.destroying[i] <= (if Ended(status) then 1 else 0)
          && (s.notifying[i] > 0 ==> status == ERROR))
  }

  /**
   * Callbacks and endings balance, but for an item whose removal is still to come, and a callback
   * saw success for each message sent.
   */
  ghost predicate Accounted(s: State, i: ItemId) {
    && (i in s.pool ==> i in s.ledger)
    && (i in s.ledger ==>
          var l := s.ledger[i];
          && l.called == (if l.hasCallback then l.ended + s.destroying[i] else 0)
          && l.succeeded == (if l.hasCallback then l.sent else 0))
  }

  /** No item is destroyed twice or while it is in the pool. */
  ghost predicate DestroyedOnce(s: State, i: ItemId) {
    s.destroyed[i] <= 1 && (s.destroyed[i] > 0 ==> i in s.ledger && i !in s.pool)
  }

  ghost predicate ItemOk(s: State, i: ItemId) {
    Placed(s, i) && Accounted(s, i) && DestroyedOnce(s, i)
  }

  ghost predicate Inv(s: State) {
    s.wrongStatus == 0 && forall i {:trigger ItemOk(s, i)} :: ItemOk(s, i)
  }

  lemma OnlyItem(s: State, i: ItemId)
    requires Inv(s)
    ensures i in s.requesting ==> i in s.pool && i in s.ledger && s.pool[i].status == CHECK
    ensures i in s.submitting ==> i in s.pool && i in s.ledger && s.pool[i].status == SUBMIT
  {
    assert ItemOk(s, i);
  }

  // ---- one lemma for each kind of step ----

  lemma CreateKeeps(s: State, step: Step)
    requires Inv(s) && Enabled(s, step) && (step.Create? || step.TestCollecting?)
    ensures Inv(Apply(s, step))
  {
    var r := Apply(s, step);
    forall j ensures ItemOk(r, j) { assert ItemOk(s, j); }
  }

  /** A late write of FINALIZED: over an item that a queue or a thread expects to find as it left it. */
  predicate Overtaken(s: State, step: Step) {
    && step.SetFinalized? && step.i in s.pool
    && (s.pool[step.i].status == CHECK || s.pool[step.i].status == SUBMIT || s.notifying[step.i] > 0)
  }

  lemma FinalizeKeeps(s: State, i: ItemId)
    requires Inv(s) && Enabled(s, SetFinalized(i))
    ensures Inv(Apply(s, SetFinalized(i))) <==> !Overtaken(s, SetFinalized(i))
  {
    var r := Apply(s, SetFinalized(i));
    assert ItemOk(s, i);
    if Overtaken(s, SetFinalized(i)) {
      assert !ItemOk(r, i);
    } else {
      forall j ensures ItemOk(r, j) { assert ItemOk(s, j); }
    }
  }

  lemma LookupKeeps(s: State, i: ItemId, flags: Flags, recorded: bool)
    requires Inv(s) && Enabled(s, Submit(i, flags, CacheMiss(recorded)))
    ensures Inv(Apply(s, Submit(i, flags, CacheMiss(recorded))))
  {
    var r := Apply(s, Submit(i, flags, CacheMiss(recorded)));
    forall j ensures ItemOk(r, j) { assert ItemOk(s, j); }
  }

  lemma HitKeeps(s: State, i: ItemId, flags: Flags)
    requires Inv(s) && Enabled(s, Submit(i, flags, CacheHit))
    ensures Inv(Apply(s, Submit(i, flags, CacheHit)))
  {
    var r := Apply(s, Submit(i, flags, CacheHit));
    forall j ensures ItemOk(r, j) { assert ItemOk(s, j); }
  }

  /** Giving up an item that is in no queue and with no thread. */
  lemma RefuseKeeps(s: State, i: ItemId, status: Status)
    requires Inv(s) && i in s.pool && i in s.ledger && Places(s, i) == 0 && (status == ERROR || status == NO_TYPE)
    ensures Inv(Fail(s, i, status))
  {
    var r := Fail(s, i, status);
    assert r.ledger == s.ledger[i := r.ledger[i]] && r.pool == s.pool[i := r.pool[i]];
    forall j ensures ItemOk(r, j) { assert ItemOk(s, j); }
  }

  lemma SubmitKeeps(s: State, i: ItemId, flags: Flags, verdict: Verdict)
    requires Inv(s) && Enabled(s, Submit(i, flags, verdict))
    ensures Inv(Apply(s, Submit(i, flags, verdict)))
  {
    match verdict
    case CacheMiss(recorded) => LookupKeeps(s, i, flags, recorded);
    case CacheHit => HitKeeps(s, i, flags);
    case NoType => RefuseKeeps(s, i, NO_TYPE);
    case _ => RefuseKeeps(s, i, ERROR);
  }

  lemma PopRequestKeeps(s: State)
    requires Inv(s) && Enabled(s, PopRequest)
    ensures Inv(Apply(s, PopRequest))
  {
    var r := Apply(s, PopRequest);
    MultisetPop(s.requests);
    forall j ensures ItemOk(r, j) { assert ItemOk(s, j); }
  }

  lemma RequestSentKeeps(s: State, i: ItemId)
    requires Inv(s) && i in s.requesting
    ensures Inv(DoRequest(s, i, true))
  {
    OnlyItem(s, i);
    var r := DoRequest(s, i, true);
    forall j ensures ItemOk(r, j) { assert ItemOk(s, j); }
  }

  /** Ending a submission of an item that a thread holds, whichever queue it came from. */
  lemma FailKeeps(s: State, b: State, i: ItemId, status: Status)
    requires Inv(s) && i in s.pool && i in s.ledger && InFlight(s.pool[i].status) && Ended(status)
    requires b == s.(requesting := b.requesting, submitting := b.submitting, timing := b.timing, ledger := b.ledger)
    requires b.ledger == Put(s, i, status == FINALIZED).ledger
    requires s.requesting + s.submitting == b.requesting + b.submitting + multiset{i}
    requires b.requesting <= s.requesting && b.submitting <= s.submitting
    ensures Inv(Fail(b, i, status))
  {
    var r := Fail(b, i, status);
    assert r.pool == s.pool[i := s.pool[i].(status := status)] && r.destroying == s.destroying + multiset{i};
    assert r.ledger == s.ledger[i := r.ledger[i]];
    forall j ensures ItemOk(r, j) {
      assert ItemOk(s, j);
      assert (s.requesting + s.submitting)[j] == (b.requesting + b.submitting + multiset{i})[j];
      assert r.requesting[j] <= s.requesting[j] && r.submitting[j] <= s.submitting[j];
    }
  }

  lemma RequestKeeps(s: State, i: ItemId, sent: bool)
    requires Inv(s) && Enabled(s, Request(i, sent))
    ensures Inv(Apply(s, Request(i, sent)))
  {
    OnlyItem(s, i);
    if sent {
      RequestSentKeeps(s, i);
    } else {
      var b := s.(requesting := s.requesting - multiset{i}, timing := Cleared(s.timing, i));
      assert b.ledger == Put(s, i, false).ledger;
      FailKeeps(s, b, i, ERROR);
    }
  }

  lemma RespondKeeps(s: State, i: ItemId, c: nat, canHaz: bool)
    requires Inv(s) && Enabled(s, Respond(i, c, canHaz))
    ensures Inv(Apply(s, Respond(i, c, canHaz)))
  {
    var r := Apply(s, Respond(i, c, canHaz));
    forall j ensures ItemOk(r, j) { assert ItemOk(s, j); }
  }

  lemma PopSubmitKeeps(s: State)
    requires Inv(s) && Enabled(s, PopSubmit)
    ensures Inv(Apply(s, PopSubmit))
  {
    var r := Apply(s, PopSubmit);
    MultisetPop(s.submits);
    forall j ensures ItemOk(r, j) { assert ItemOk(s, j); }
  }

  /** An item released for reuse: its entry balanced, its status that of an ended submission. */
  lemma ReleaseKeeps(s: State, i: ItemId, x: Item, l: Ledger)
    requires Inv(s) && i in s.submitting && i in s.pool && i in s.ledger && s.pool[i].status == SUBMIT
    requires Ended(x.status) && l == Called(s.ledger[i].(sent := l.sent), x.status).(ended := s.ledger[i].ended + 1)
    requires l.sent == s.ledger[i].sent + if x.status == FINALIZED then 1 else 0
    ensures Inv(s.(submitting := s.submitting - multiset{i}, pool := s.pool[i := x], ledger := s.ledger[i := l]))
  {
    var r := s.(submitting := s.submitting - multiset{i}, pool := s.pool[i := x], ledger := s.ledger[i := l]);
    forall j ensures ItemOk(r, j) { assert ItemOk(s, j); }
  }

  lemma SendReusedKeeps(s: State, i: ItemId, sending: Sending)
    requires Inv(s) && i in s.submitting && (sending == Sent || sending == PutFailed)
    requires i in s.pool && i in s.ledger && s.pool[i].status == SUBMIT && s.pool[i].flags.mayReuse
    ensures Inv(DoSend(s, i, sending))
  {
    var r := DoSend(s, i, sending);
    assert r.pool == s.pool[i := r.pool[i]] && r.ledger == s.ledger[i := r.ledger[i]];
    ReleaseKeeps(s, i, r.pool[i], r.ledger[i]);
  }

  lemma SendKeeps(s: State, i: ItemId, sending: Sending)
    requires Inv(s) && Enabled(s, Send(i, sending))
    ensures Inv(Apply(s, Send(i, sending)))
  {
    OnlyItem(s, i);
    if s.pool[i].flags.mayReuse && (sending == Sent || sending == PutFailed) {
      SendReusedKeeps(s, i, sending);
    } else {
      var b := Put(s.(submitting := s.submitting - multiset{i}), i, sending == Sent);
      assert sending != Sent ==> b.ledger == s.ledger;
      FailKeeps(s, b, i, if sending == Sent then FINALIZED else ERROR);
    }
  }

  lemma AbandonKeeps(s: State, step: Step)
    requires Inv(s) && Enabled(s, step) && (step.Abandon? || step.Notify?)
    ensures Inv(Apply(s, step))
  {
    var r := Apply(s, step);
    assert ItemOk(s, step.i);
    forall j ensures ItemOk(r, j) { assert ItemOk(s, j); }
  }

  lemma DestroyKeeps(s: State, i: ItemId)
    requires Inv(s) && Enabled(s, Destroy(i))
    ensures Inv(Apply(s, Destroy(i)))
  {
    var r := Apply(s, Destroy(i));
    assert ItemOk(s, i);
    forall j ensures ItemOk(r, j) { assert ItemOk(s, j); }
  }

  lemma DiscardKeeps(s: State, i: ItemId)
    requires Inv(s) && Enabled(s, Discard(i))
    ensures Inv(Apply(s, Discard(i)))
  {
    var r := Apply(s, Discard(i));
    assert ItemOk(s, i);
    forall j ensures ItemOk(r, j) { assert ItemOk(s, j); }
  }

  /** Every step keeps the invariant but a late write of FINALIZED, which breaks it. */
  lemma StepKeeps(s: State, step: Step)
    requires Inv(s) && Enabled(s, step)
    ensures Inv(Apply(s, step)) <==> !Overtaken(s, step)
  {
    match step
    case Create(_, _, _) => CreateKeeps(s, step);
    case TestCollecting(_) => CreateKeeps(s, step);
    case SetFinalized(i) => FinalizeKeeps(s, i);
    case Submit(i, flags, verdict) => SubmitKeeps(s, i, flags, verdict);
    case PopRequest => PopRequestKeeps(s);
    case Request(i, sent) => RequestKeeps(s, i, sent);
    case Respond(i, c, canHaz) => RespondKeeps(s, i, c, canHaz);
    case PopSubmit => PopSubmitKeeps(s);
    case Send(i, sending) => SendKeeps(s, i, sending);
    case Abandon(_, _) => AbandonKeeps(s, step);
    case Notify(_) => AbandonKeeps(s, step);
    case Destroy(i) => DestroyKeeps(s, i);
    case Discard(i) => DiscardKeeps(s, i);
  }

  // ---- the lookup timing list ----

  /** At most one timing entry for an item, and only while its lookup is outstanding. */
  ghost predicate TimedOk(s: State, i: ItemId) {
    && multiset(s.timing)[i] <= 1
    && (multiset(s.timing)[i] > 0 ==> i in s.pool && (s.pool[i].status == CHECK || s.pool[i].status == CHECKING))
  }

  ghost predicate Timed(s: State) {
    forall i {:trigger TimedOk(s, i)} :: TimedOk(s, i)
  }

  /**
   * Steps that forget an item's outstanding lookup: submitting it again without another lookup,
   * removing it from the pool, and writing FINALIZED over its status.
   */
  predicate Stale(s: State, step: Step) {
    match step
    case Submit(i, _, verdict) => !verdict.CacheMiss? && multiset(s.timing)[i] > 0
    case Discard(i) => multiset(s.timing)[i] > 0
    case SetFinalized(i) => multiset(s.timing)[i] > 0
    case _ => false
  }

  lemma LookupTimed(s: State, i: ItemId, flags: Flags, recorded: bool)
    requires Inv(s) && Timed(s) && Enabled(s, Submit(i, flags, CacheMiss(recorded)))
    ensures Timed(Apply(s, Submit(i, flags, CacheMiss(recorded))))
  {
    var r := Apply(s, Submit(i, flags, CacheMiss(recorded)));
    forall j ensures TimedOk(r, j) { assert TimedOk(s, j); }
  }

  lemma NoLookupTimed(s: State, i: ItemId, flags: Flags, verdict: Verdict)
    requires Inv(s) && Timed(s) && Enabled(s, Submit(i, flags, verdict)) && !verdict.CacheMiss?
    ensures Timed(Apply(s, Submit(i, flags, verdict))) <==> !Stale(s, Submit(i, flags, verdict))
  {
    var r := Apply(s, Submit(i, flags, verdict));
    assert ItemOk(s, i) && TimedOk(s, i);
    assert r.timing == s.timing && !(r.pool[i].status == CHECK || r.pool[i].status == CHECKING);
    if multiset(s.timing)[i] > 0 {
      assert !TimedOk(r, i);
    } else {
      forall j ensures TimedOk(r, j) { assert TimedOk(s, j); }
    }
  }

  lemma SubmitTimed(s: State, i: ItemId, flags: Flags, verdict: Verdict)
    requires Inv(s) && Timed(s) && Enabled(s, Submit(i, flags, verdict))
    ensures Timed(Apply(s, Submit(i, flags, verdict))) <==> !Stale(s, Submit(i, flags, verdict))
  {
    match verdict
    case CacheMiss(recorded) => LookupTimed(s, i, flags, recorded);
    case _ => NoLookupTimed(s, i, flags, verdict);
  }

  /** Steps that touch the timing list only to clear their item from it, */
  lemma ClearingTimed(s: State, step: Step)
    requires Inv(s) && Timed(s) && Enabled(s, step) && (step.Respond? || step.Abandon?)
    ensures Timed(Apply(s, step))
  {
    var r := Apply(s, step);
    forall j ensures TimedOk(r, j) { assert TimedOk(s, j); }
  }

  /** or do so when the request cannot be sent. */
  lemma RequestTimed(s: State, i: ItemId, sent: bool)
    requires Inv(s) && Timed(s) && Enabled(s, Request(i, sent))
    ensures Timed(Apply(s, Request(i, sent)))
  {
    var r := Apply(s, Request(i, sent));
    OnlyItem(s, i);
    forall j ensures TimedOk(r, j) { assert TimedOk(s, j); }
  }

  /** Sending acts on an item that has no entry. */
  lemma SendTimed(s: State, i: ItemId, sending: Sending)
    requires Inv(s) && Timed(s) && Enabled(s, Send(i, sending))
    ensures Timed(Apply(s, Send(i, sending)))
  {
    var r := Apply(s, Send(i, sending));
    OnlyItem(s, i);
    assert r.timing == s.timing && r.pool == s.pool[i := r.pool[i]];
    forall j ensures TimedOk(r, j) { assert TimedOk(s, j); }
  }

  /** A step that changes one item, and leaves it without an outstanding lookup. */
  lemma LifeTimed(s: State, r: State, i: ItemId)
    requires Timed(s) && r.timing == s.timing && r.pool - {i} == s.pool - {i}
    requires i in r.pool ==> r.pool[i].status != CHECK && r.pool[i].status != CHECKING
    ensures Timed(r) <==> multiset(s.timing)[i] == 0
  {
    if multiset(s.timing)[i] == 0 {
      forall j ensures TimedOk(r, j) {
        assert TimedOk(s, j);
        assert j != i ==> (j in s.pool <==> j in s.pool - {i}) && (j in r.pool <==> j in r.pool - {i});
      }
    } else {
      assert !TimedOk(r, i);
    }
  }

  lemma CreateTimed(s: State, step: Step)
    requires Inv(s) && Timed(s) && Enabled(s, step) && (step.Create? || step.Destroy?)
    ensures Timed(Apply(s, step))
  {
    assert ItemOk(s, step.i) && TimedOk(s, step.i);
    LifeTimed(s, Apply(s, step), step.i);
  }

  /** The timing list stays right across a step exactly when the step forgets no lookup. */
  lemma StepTimed(s: State, step: Step)
    requires Inv(s) && Timed(s) && Enabled(s, step)
    ensures Timed(Apply(s, step)) <==> !Stale(s, step)
  {
    match step
    case Submit(i, flags, verdict) => SubmitTimed(s, i, flags, verdict);
    case Request(i, sent) => RequestTimed(s, i, sent);
    case Respond(_, _, _) => ClearingTimed(s, step);
    case Abandon(_, _) => ClearingTimed(s, step);
    case Send(i, sending) => SendTimed(s, i, sending);
    case Create(_, _, _) => CreateTimed(s, step);
    case Destroy(_) => CreateTimed(s, step);
    case SetFinalized(i) => LifeTimed(s, Apply(s, step), i);
    case Discard(i) => LifeTimed(s, Apply(s, step), i);
    case _ =>
      var r := Apply(s, step);
      assert r.timing == s.timing && r.pool == s.pool;
      forall j ensures TimedOk(r, j) { assert TimedOk(s, j); }
  }

  // ---- what even a late write of FINALIZED leaves right ----

  /** An item has at most one place, none while it awaits a response; endings have called back; it is destroyed once. */
  ghost predicate ItemBase(s: State, i: ItemId) {
    && Places(s, i) <= 1 && (Places(s, i) > 0 ==> i in s.pool)
    && (i in s.pool && s.pool[i].status == CHECKING ==> Places(s, i) == 0)
    && (i in s.pool ==> i in s.ledger)
    && (i in s.ledger ==> s.ledger[i].called == if s.ledger[i].hasCallback then s.ledger[i].ended + s.destroying[i] else 0)
    && DestroyedOnce(s, i)
  }

  ghost predicate Base(s: State) {
    forall i {:trigger ItemBase(s, i)} :: ItemBase(s, i)
  }

  lemma QueueBase(s: State, i: ItemId, flags: Flags, verdict: Verdict)
    requires Base(s) && Enabled(s, Submit(i, flags, verdict)) && (verdict.CacheHit? || verdict.CacheMiss?)
    ensures Base(Apply(s, Submit(i, flags, verdict)))
  {
    var r := Apply(s, Submit(i, flags, verdict));
    forall j ensures ItemBase(r, j) { assert ItemBase(s, j); }
  }

  lemma RefuseBase(s: State, i: ItemId, status: Status)
    requires Base(s) && i in s.pool && i in s.ledger && Places(s, i) == 0 && (status == ERROR || status == NO_TYPE)
    ensures Base(Fail(s, i, status))
  {
    var r := Fail(s, i, status);
    assert r.ledger == s.ledger[i := r.ledger[i]] && r.pool == s.pool[i := r.pool[i]];
    forall j ensures ItemBase(r, j) { assert ItemBase(s, j); }
  }

  lemma SubmitBase(s: State, i: ItemId, flags: Flags, verdict: Verdict)
    requires Base(s) && Enabled(s, Submit(i, flags, verdict))
    ensures Base(Apply(s, Submit(i, flags, verdict)))
  {
    match verdict
    case NoType => RefuseBase(s, i, NO_TYPE);
    case SelfParent => RefuseBase(s, i, ERROR);
    case NullArguments => RefuseBase(s, i, ERROR);
    case _ => QueueBase(s, i, flags, verdict);
  }

  lemma PopBase(s: State, step: Step)
    requires Base(s) && Enabled(s, step) && (step.PopRequest? || step.PopSubmit?)
    ensures Base(Apply(s, step))
  {
    var r := Apply(s, step);
    MultisetPop(if step.PopRequest? then s.requests else s.submits);
    forall j ensures ItemBase(r, j) { assert ItemBase(s, j); }
  }

  /** A thread that finds its item with another status lets go of it. */
  lemma MissBase(s: State, r: State)
    requires Base(s) && r == s.(requesting := r.requesting, submitting := r.submitting, wrongStatus := r.wrongStatus)
    requires r.requesting <= s.requesting && r.submitting <= s.submitting
    ensures Base(r)
  {
    forall j ensures ItemBase(r, j) {
      assert ItemBase(s, j);
      assert r.requesting[j] <= s.requesting[j] && r.submitting[j] <= s.submitting[j];
    }
  }

  /** One that finds it as expected asks the cache, */
  lemma AskBase(s: State, i: ItemId)
    requires Base(s) && i in s.requesting && i in s.pool
    ensures Base(SetStatus(s.(requesting := s.requesting - multiset{i}), i, CHECKING))
  {
    var r := SetStatus(s.(requesting := s.requesting - multiset{i}), i, CHECKING);
    forall j ensures ItemBase(r, j) { assert ItemBase(s, j); }
  }

  /** or ends the submission and has the item destroyed, */
  lemma FailBase(s: State, b: State, i: ItemId, status: Status)
    requires Base(s) && i in s.pool && i in s.ledger && Ended(status)
    requires b == s.(requesting := b.requesting, submitting := b.submitting, timing := b.timing, ledger := b.ledger)
    requires i in b.ledger && b.ledger == s.ledger[i := s.ledger[i].(sent := b.ledger[i].sent)]
    requires s.requesting + s.submitting == b.requesting + b.submitting + multiset{i}
    ensures Base(Fail(b, i, status))
  {
    var r := Fail(b, i, status);
    assert r.pool == s.pool[i := s.pool[i].(status := status)] && r.destroying == s.destroying + multiset{i};
    assert r.ledger == s.ledger[i := r.ledger[i]];
    forall j ensures ItemBase(r, j) {
      assert ItemBase(s, j);
      assert (s.requesting + s.submitting)[j] == (b.requesting + b.submitting + multiset{i})[j];
    }
  }

  /** or ends it and keeps the item. */
  lemma ReleaseBase(s: State, i: ItemId, x: Item, l: Ledger)
    requires Base(s) && i in s.submitting && i in s.pool && i in s.ledger && Ended(x.status)
    requires l == Called(s.ledger[i].(sent := l.sent), x.status).(ended := s.ledger[i].ended + 1)
    ensures Base(s.(submitting := s.submitting - multiset{i}, pool := s.pool[i := x], ledger := s.ledger[i := l]))
  {
    var r := s.(submitting := s.submitting - multiset{i}, pool := s.pool[i := x], ledger := s.ledger[i := l]);
    forall j ensures ItemBase(r, j) { assert ItemBase(s, j); }
  }

  lemma RequestBase(s: State, i: ItemId, sent: bool)
    requires Base(s) && Enabled(s, Request(i, sent))
    ensures Base(Apply(s, Request(i, sent)))
  {
    if i !in s.pool || i !in s.ledger || s.pool[i].status != CHECK {
      MissBase(s, Apply(s, Request(i, sent)));
    } else if sent {
      AskBase(s, i);
    } else {
      var b := s.(requesting := s.requesting - multiset{i}, timing := Cleared(s.timing, i));
      assert b.ledger == s.ledger[i := s.ledger[i].(sent := b.ledger[i].sent)];
      FailBase(s, b, i, ERROR);
    }
  }

  lemma SendReusedBase(s: State, i: ItemId, sending: Sending)
    requires Base(s) && i in s.submitting && (sending == Sent || sending == PutFailed)
    requires i in s.pool && i in s.ledger && s.pool[i].status == SUBMIT && s.pool[i].flags.mayReuse
    ensures Base(DoSend(s, i, sending))
  {
    var r := DoSend(s, i, sending);
    assert r.pool == s.pool[i := r.pool[i]] && r.ledger == s.ledger[i := r.ledger[i]];
    ReleaseBase(s, i, r.pool[i], r.ledger[i]);
  }

  lemma SendBase(s: State, i: ItemId, sending: Sending)
    requires Base(s) && Enabled(s, Send(i, sending))
    ensures Base(Apply(s, Send(i, sending)))
  {
    if i !in s.pool || i !in s.ledger || s.pool[i].status != SUBMIT {
      MissBase(s, Apply(s, Send(i, sending)));
    } else if s.pool[i].flags.mayReuse && (sending == Sent || sending == PutFailed) {
      SendReusedBase(s, i, sending);
    } else {
      var b := Put(s.(submitting := s.submitting - multiset{i}), i, sending == Sent);
      assert sending != Sent ==> b.ledger == s.ledger;
      FailBase(s, b, i, if sending == Sent then FINALIZED else ERROR);
    }
  }

  lemma RespondBase(s: State, i: ItemId, c: nat, canHaz: bool)
    requires Base(s) && Enabled(s, Respond(i, c, canHaz))
    ensures Base(Apply(s, Respond(i, c, canHaz)))
  {
    var r := Apply(s, Respond(i, c, canHaz));
    forall j ensures ItemBase(r, j) { assert ItemBase(s, j); }
  }

  lemma AbandonBase(s: State, step: Step)
    requires Base(s) && Enabled(s, step) && (step.Abandon? || step.Notify?)
    ensures Base(Apply(s, step))
  {
    var r := Apply(s, step);
    assert ItemBase(s, step.i);
    forall j ensures ItemBase(r, j) { assert ItemBase(s, j); }
  }

  lemma LifeBase(s: State, step: Step)
    requires Base(s) && Enabled(s, step)
    requires step.Create? || step.TestCollecting? || step.SetFinalized? || step.Destroy? || step.Discard?
    ensures Base(Apply(s, step))
  {
    var r := Apply(s, step);
    assert ItemBase(s, step.i);
    forall j ensures ItemBase(r, j) { assert ItemBase(s, j); }
  }

  lemma StepBase(s: State, step: Step)
    requires Base(s) && Enabled(s, step)
    ensures Base(Apply(s, step))
  {
    match step
    case Submit(i, flags, verdict) => SubmitBase(s, i, flags, verdict);
    case PopRequest => PopBase(s, step);
    case PopSubmit => PopBase(s, step);
    case Request(i, sent) => RequestBase(s, i, sent);
    case Send(i, sending) => SendBase(s, i, sending);
    case Respond(i, c, canHaz) => RespondBase(s, i, c, canHaz);
    case Abandon(_, _) => AbandonBase(s, step);
    case Notify(_) => AbandonBase(s, step);
    case _ => LifeBase(s, step);
  }

  /** A thread that changes no item, or asks for one, ends it for reuse, or has it destroyed. */
  ghost predicate ActsOn(s: State, r: State, i: ItemId) {
    && r.notifying == s.notifying
    && ((r.pool == s.pool && r.destroying == s.destroying) ||
        (&& i in r.pool && r.pool == s.pool[i := r.pool[i]] && r.pool[i].status != SUBMIT
         && (r.destroying == s.destroying + multiset{i} ||
             (r.destroying == s.destroying && (r.pool[i].status == CHECKING || r.pool[i].flags == NO_FLAGS)))))
  }

  lemma RequestActs(s: State, i: ItemId, sent: bool)
    ensures ActsOn(s, DoRequest(s, i, sent), i)
  {}

  lemma SendActs(s: State, i: ItemId, sending: Sending)
    ensures ActsOn(s, DoSend(s, i, sending), i)
  {}

  // ---- items between submissions carry no flags ----

  /** An item that is in no submission and about to be neither notified nor destroyed. */
  predicate Idle(s: State, i: ItemId) {
    i in s.pool && !InFlight(s.pool[i].status) && s.notifying[i] == 0 && s.destroying[i] == 0
  }

  ghost predicate IdleBare(s: State) {
    forall i :: Idle(s, i) ==> s.pool[i].flags == NO_FLAGS
  }

  lemma SubmitBare(s: State, i: ItemId, flags: Flags, verdict: Verdict)
    requires IdleBare(s) && Enabled(s, Submit(i, flags, verdict))
    ensures IdleBare(Apply(s, Submit(i, flags, verdict)))
  {
    var r := Apply(s, Submit(i, flags, verdict));
    assert !Idle(r, i);
    forall j | Idle(r, j) ensures r.pool[j].flags == NO_FLAGS { assert Idle(s, j); }
  }

  /** A step that leaves its item busy, or bare, and the other items alone. */
  lemma OneBare(s: State, r: State, i: ItemId)
    requires IdleBare(s) && i in r.pool && r.pool == s.pool[i := r.pool[i]]
    requires Idle(r, i) ==> r.pool[i].flags == NO_FLAGS
    requires forall j :: j != i ==> r.notifying[j] == s.notifying[j] && r.destroying[j] == s.destroying[j]
    ensures IdleBare(r)
  {
    forall j | Idle(r, j) ensures r.pool[j].flags == NO_FLAGS { assert j != i ==> Idle(s, j); }
  }

  lemma ActsBare(s: State, r: State, i: ItemId)
    requires IdleBare(s) && ActsOn(s, r, i)
    ensures IdleBare(r)
  {
    forall j | Idle(r, j) ensures r.pool[j].flags == NO_FLAGS { assert j != i || r.pool == s.pool ==> Idle(s, j); }
  }

  lemma DestroyBare(s: State, i: ItemId)
    requires Base(s) && IdleBare(s) && Enabled(s, Destroy(i))
    ensures IdleBare(Apply(s, Destroy(i)))
  {
    var r := Apply(s, Destroy(i));
    assert ItemBase(s, i);
    forall j | Idle(r, j) ensures r.pool[j].flags == NO_FLAGS { assert Idle(s, j); }
  }

  lemma StepBare(s: State, step: Step)
    requires Base(s) && IdleBare(s) && Enabled(s, step)
    ensures IdleBare(Apply(s, step))
  {
    match step
    case Create(i, _, _) => OneBare(s, Apply(s, step), i);
    case SetFinalized(i) => OneBare(s, Apply(s, step), i);
    case Submit(i, flags, verdict) => SubmitBare(s, i, flags, verdict);
    case Request(i, sent) => RequestActs(s, i, sent); ActsBare(s, Apply(s, step), i);
    case Send(i, sending) => SendActs(s, i, sending); ActsBare(s, Apply(s, step), i);
    case Respond(i, _, _) => OneBare(s, Apply(s, step), i);
    case Abandon(i, _) => OneBare(s, Apply(s, step), i);
    case Destroy(i) => DestroyBare(s, i);
    case _ => QuietBare(s, step);
  }

  /** Steps that leave every item's flags alone and free none of a removal that is due. */
  lemma QuietBare(s: State, step: Step)
    requires IdleBare(s) && Enabled(s, step)
    requires step.PopRequest? || step.PopSubmit? || step.Notify? || step.TestCollecting? || step.Discard?
    ensures IdleBare(Apply(s, step))
  {
    var r := Apply(s, step);
    forall j | Idle(r, j) ensures r.pool[j].flags == NO_FLAGS { assert Idle(s, j); }
  }

  // ---- runs ----

  predicate Init(s: State) { s == EMPTY }

  predicate Next(s: State, step: Step, r: State) { Enabled(s, step) && Apply(s, step) == r }

  ghost predicate Run(states: seq<State>, steps: seq<Step>) { Runs.Run(Init, Next, states, steps) }

  /** In every run an item has at most one place, its endings have called back, and it is destroyed once. */
  lemma {:induction false} ItemsHaveOnePlace(states: seq<State>, steps: seq<Step>, k: nat)
    requires Run(states, steps) && k < |states|
    ensures Base(states[k])
  {
    if k == 0 {
      forall i ensures ItemBase(states[0], i) {}
    } else {
      ItemsHaveOnePlace(states, steps, k - 1);
      assert Runs.StepAt(Next, states, steps, k - 1);
      StepBase(states[k - 1], steps[k - 1]);
    }
  }

  /** No write of FINALIZED came late in the first k steps. */
  ghost predicate Orderly(states: seq<State>, steps: seq<Step>, k: nat)
    requires k <= |steps| && k < |states|
  {
    forall j :: 0 <= j < k ==> !Overtaken(states[j], steps[j])
  }

  /** All along a run items are where their statuses say exactly when no write of FINALIZED came late. */
  lemma {:induction false} RunKeeps(states: seq<State>, steps: seq<Step>, k: nat)
    requires Run(states, steps) && k < |states|
    ensures (forall j :: 0 <= j <= k ==> Inv(states[j])) <==> Orderly(states, steps, k)
  {
    if k == 0 {
      forall i ensures ItemOk(states[0], i) {}
    } else {
      RunKeeps(states, steps, k - 1);
      assert Runs.StepAt(Next, states, steps, k - 1);
      if Inv(states[k - 1]) { StepKeeps(states[k - 1], steps[k - 1]); }
    }
  }

  /** And the timing list is right as well exactly when, besides, no step forgot a lookup. */
  lemma {:induction false} RunTimed(states: seq<State>, steps: seq<Step>, k: nat)
    requires Run(states, steps) && k < |states|
    ensures (forall j :: 0 <= j <= k ==> Inv(states[j]) && Timed(states[j])) <==>
            (forall j :: 0 <= j < k ==> !Overtaken(states[j], steps[j]) && !Stale(states[j], steps[j]))
  {
    if k == 0 {
      forall i ensures ItemOk(states[0], i) && TimedOk(states[0], i) {}
    } else {
      RunTimed(states, steps, k - 1);
      assert Runs.StepAt(Next, states, steps, k - 1);
      if Inv(states[k - 1]) && Timed(states[k - 1]) {
        StepKeeps(states[k - 1], steps[k - 1]);
        StepTimed(states[k - 1], steps[k - 1]);
      }
    }
  }

  /**
   * In every run an item between submissions has no flags, so that its status word is the bare
   * status that adding data compares it with.
   */
  lemma {:induction false} IdleItemsBare(states: seq<State>, steps: seq<Step>, k: nat)
    requires Run(states, steps) && k < |states|
    ensures IdleBare(states[k])
  {
    if k > 0 {
      ItemsHaveOnePlace(states, steps, k - 1);
      IdleItemsBare(states, steps, k - 1);
      assert Runs.StepAt(Next, states, steps, k - 1);
      StepBare(states[k - 1], steps[k - 1]);
    }
  }

  /**
   * The queues hold each item at most once and never both the same; and, unless a write of
   * FINALIZED came late, only items of the status their threads expect.
   */
  lemma QueuesHoldTheirOwn(states: seq<State>, steps: seq<Step>, k: nat)
    requires Run(states, steps) && k < |states|
    ensures var s := states[k];
            && (forall i :: i in s.requests || i in s.submits ==> i in s.pool)
            && (forall i :: i in s.requests ==> i !in s.submits)
            && (forall a, b :: 0 <= a < b < |s.requests| ==> s.requests[a] != s.requests[b])
            && (forall a, b :: 0 <= a < b < |s.submits| ==> s.submits[a] != s.submits[b])
            && (Orderly(states, steps, k) ==>
                  && s.wrongStatus == 0
                  && (forall i :: i in s.requests ==> s.pool[i].status == CHECK)
                  && (forall i :: i in s.submits ==> s.pool[i].status == SUBMIT))
  {
    ItemsHaveOnePlace(states, steps, k);
    var s := states[k];
    forall i ensures multiset(s.requests)[i] + multiset(s.submits)[i] <= 1
      ensures multiset(s.requests)[i] + multiset(s.submits)[i] > 0 ==> i in s.pool
    {
      assert ItemBase(s, i);
    }
    OnceMeansDistinct(s.requests);
    OnceMeansDistinct(s.submits);
    if Orderly(states, steps, k) {
      RunKeeps(states, steps, k);
      forall i ensures i in s.requests ==> s.pool[i].status == CHECK
        ensures i in s.submits ==> s.pool[i].status == SUBMIT
      {
        assert ItemOk(s, i);
      }
    }
  }

  /**
   * Every submission that ended ran the callback exactly once; destruction happens once, outside
   * the queues.  Unless a write of FINALIZED came late, callbacks saw success for messages sent.
   */
  lemma EveryEndCallsBackOnce(states: seq<State>, steps: seq<Step>, k: nat, i: ItemId)
    requires Run(states, steps) && k < |states| && i in states[k].ledger
    ensures var s := states[k];
            && (s.ledger[i].hasCallback && s.destroying[i] == 0 ==> s.ledger[i].called == s.ledger[i].ended)
            && (!s.ledger[i].hasCallback ==> s.ledger[i].called == 0)
            && s.destroyed[i] <= 1
            && (s.destroyed[i] == 1 ==> i !in s.pool && i !in s.requests && i !in s.submits && Places(s, i) == 0)
            && (s.destroying[i] > 0 ==> i !in s.requests && i !in s.submits)
            && (Orderly(states, steps, k) && s.ledger[i].hasCallback ==> s.ledger[i].succeeded == s.ledger[i].sent)
  {
    ItemsHaveOnePlace(states, steps, k);
    assert ItemBase(states[k], i);
    if Orderly(states, steps, k) {
      RunKeeps(states, steps, k);
      assert ItemOk(states[k], i);
    }
  }

  // ---- abandoning the lookups of a context that shuts down ----

  ghost function Stuck(s: State, c: nat): set<ItemId> {
    set i | i in s.pool && s.pool[i].status == CHECKING && s.pool[i].context == c
  }

  /** Abandons, notifies and destroys one item, and touches nothing else. */
  method GiveUp(s: State, i: ItemId, c: nat) returns (r: State)
    requires Base(s) && Enabled(s, Abandon(i, c))
    ensures Base(r) && (Inv(s) ==> Inv(r))
    ensures r.pool == s.pool - {i} && r.destroyed == s.destroyed + multiset{i}
    ensures r.requests == s.requests && r.submits == s.submits
    ensures i in Stuck(s, c) && Stuck(r, c) == Stuck(s, c) - {i}
  {
    assert ItemBase(s, i);
    var a := Apply(s, Abandon(i, c));
    var b := Apply(a, Notify(i));
    r := Apply(b, Destroy(i));
    GivingUpKeeps(s, i, c, a, b);
    assert r.pool == s.pool - {i};
  }

  lemma GivingUpKeeps(s: State, i: ItemId, c: nat, a: State, b: State)
    requires Base(s) && Next(s, Abandon(i, c), a) && Next(a, Notify(i), b) && Enabled(b, Destroy(i))
    ensures Base(Apply(b, Destroy(i))) && (Inv(s) ==> Inv(Apply(b, Destroy(i))))
  {
    StepBase(s, Abandon(i, c));
    StepBase(a, Notify(i));
    StepBase(b, Destroy(i));
    if Inv(s) {
      StepKeeps(s, Abandon(i, c));
      StepKeeps(a, Notify(i));
      StepKeeps(b, Destroy(i));
    }
  }

  lemma MoveOne(s: State, r: State, c: nat, done: set<ItemId>, i: ItemId)
    requires done !! Stuck(r, c) && done + Stuck(r, c) == Stuck(s, c) && i in Stuck(r, c)
    ensures i !in done && |done + {i}| == |done| + 1 && multiset(done + {i}) == multiset(done) + multiset{i}
    ensures done + {i} !! Stuck(r, c) - {i} && (done + {i}) + (Stuck(r, c) - {i}) == Stuck(s, c)
    ensures s.pool - done - {i} == s.pool - (done + {i})
  {}

  /**
   * The loop of a context's shutdown: it ends, and has then given up exactly the items of that
   * context that awaited a response, each destroyed once, and no others.
   */
  method AbandonStuckContextCacheLookups(s: State, c: nat) returns (r: State, count: nat)
    requires Base(s)
    ensures Base(r) && (Inv(s) ==> Inv(r)) && Stuck(r, c) == {} && count == |Stuck(s, c)|
    ensures r.pool == s.pool - Stuck(s, c) && r.destroyed == s.destroyed + multiset(Stuck(s, c))
    ensures r.requests == s.requests && r.submits == s.submits
  {
    r, count := s, 0;
    ghost var done: set<ItemId> := {};
    while exists i :: i in r.pool && r.pool[i].status == CHECKING && r.pool[i].context == c
      invariant Base(r) && (Inv(s) ==> Inv(r)) && count == |done| && done !! Stuck(r, c) && done + Stuck(r, c) == Stuck(s, c)
      invariant r.pool == s.pool - done && r.destroyed == s.destroyed + multiset(done)
      invariant r.requests == s.requests && r.submits == s.submits
      decreases |Stuck(r, c)|
    {
      var i :| i in r.pool && r.pool[i].status == CHECKING && r.pool[i].context == c;
      ghost var before := r;
      r := GiveUp(r, i, c);
      MoveOne(s, before, c, done, i);
      done := done + {i};
      count := count + 1;
    }
    assert done == Stuck(s, c);
  }

  // ---- lookups do get forgotten, and writes do come late ----

  const SUBMITTED := EMPTY.(pool := map[0 := Item(CHECK, NO_FLAGS, 0)], ledger := map[0 := Ledger(false, 0, 0, 0, 0)],
                            requests := [0], timing := [0])

  const AWAITING := SUBMITTED.(pool := map[0 := Item(CHECKING, NO_FLAGS, 0)], requests := [])

  lemma ReachSubmitted()
    ensures Runs.Reachable(Init, Next, SUBMITTED)
  {
    Runs.ReachInit(Init, Next, EMPTY);
    var s := Apply(EMPTY, Create(0, 0, false));
    Runs.ReachNext(Init, Next, EMPTY, Create(0, 0, false), s);
    Runs.ReachNext(Init, Next, s, Submit(0, NO_FLAGS, CacheMiss(true)), SUBMITTED);
  }

  lemma ReachAwaiting()
    ensures Runs.Reachable(Init, Next, AWAITING)
  {
    ReachSubmitted();
    var s := Apply(SUBMITTED, PopRequest);
    Runs.ReachNext(Init, Next, SUBMITTED, PopRequest, s);
    Runs.ReachNext(Init, Next, s, Request(0, true), AWAITING);
  }

  /** Submitting again leaves a timing entry behind for an item that is being sent. */
  lemma StaleSubmissionLeavesEntry()
    ensures exists s :: Runs.Reachable(Init, Next, s) && Inv(s) && 0 in s.timing && 0 in s.submits
  {
    ReachAwaiting();
    var s := Apply(AWAITING, Submit(0, NO_FLAGS, CacheHit));
    Runs.ReachNext(Init, Next, AWAITING, Submit(0, NO_FLAGS, CacheHit), s);
    SubmitKeeps(AWAITING, 0, NO_FLAGS, CacheHit);
    assert s.timing == [0] && s.submits == [0];
  }

  /** Removing an item from the pool leaves a timing entry behind for an item that is gone. */
  lemma DiscardLeavesEntry()
    ensures exists s :: Runs.Reachable(Init, Next, s) && Inv(s) && 0 in s.timing && 0 !in s.pool
  {
    ReachAwaiting();
    var s := Apply(AWAITING, Discard(0));
    Runs.ReachNext(Init, Next, AWAITING, Discard(0), s);
    DiscardKeeps(AWAITING, 0);
    assert s.timing == [0];
  }

  /** An item submitted while it is being finalized is FINALIZED in the request queue. */
  const LATE := EMPTY.(pool := map[0 := Item(FINALIZED, NO_FLAGS, 0)], ledger := map[0 := Ledger(false, 0, 0, 0, 0)],
                       requests := [0], timing := [0])

  lemma ReachLate()
    ensures Runs.Reachable(Init, Next, LATE)
  {
    Runs.ReachInit(Init, Next, EMPTY);
    var s := Apply(EMPTY, Create(0, 0, false));
    Runs.ReachNext(Init, Next, EMPTY, Create(0, 0, false), s);
    var t := s.(finalizing := {0});
    Runs.ReachNext(Init, Next, s, TestCollecting(0), t);
    var u := SUBMITTED.(finalizing := {0});
    Runs.ReachNext(Init, Next, t, Submit(0, NO_FLAGS, CacheMiss(true)), u);
    Runs.ReachNext(Init, Next, u, SetFinalized(0), LATE);
  }

  /** So the request thread meets a wrong status and drops the submission without a callback. */
  lemma LateFinalizeMeetsWrongStatus()
    ensures exists s :: Runs.Reachable(Init, Next, s) && s.wrongStatus > 0
  {
    ReachLate();
    var s := Apply(LATE, PopRequest);
    Runs.ReachNext(Init, Next, LATE, PopRequest, s);
    var t := Apply(s, Request(0, true));
    Runs.ReachNext(Init, Next, s, Request(0, true), t);
    assert t.wrongStatus == 1;
  }
}
