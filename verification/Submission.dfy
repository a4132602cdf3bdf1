/**
 * The submission pipeline of src/submission.c over the block pool: any number of submitting,
 * requesting, responding, submitting-to-broker and abandoning threads, interleaved at the points
 * where they hold an item's lock.  Queue pops take from the tail, as src/list.c does.
 */
module Submission {

  type ItemId = nat

  datatype Status = COLLECTING | FINALIZED | CHECK | CHECKING | SUBMIT | ERROR | NO_TYPE

  datatype Flags = Flags(mayReuse: bool, update: bool, eventOnly: bool)

  datatype Item = Item(status: Status, flags: Flags, context: nat)

  /**
   * Whether an item has a callback, how often it ran, how often it saw the status FINALIZED, how
   * many submissions of the item ended, and how many of its messages were sent.
   */
  datatype Ledger = Ledger(hasCallback: bool, called: nat, succeeded: nat, ended: nat, sent: nat)

  /** The pool, the two work queues, the lookup timing list, and the items threads are at work on. */
  datatype State = State(
    pool: map<ItemId, Item>,
    requests: seq<ItemId>,
    submits: seq<ItemId>,
    timing: seq<ItemId>,
    requesting: multiset<ItemId>,   // popped from the request queue, lock not yet taken
    submitting: multiset<ItemId>,   // popped from the submit queue, lock not yet taken
    notifying: multiset<ItemId>,    // abandoned, callback still to run
    destroying: multiset<ItemId>,   // callback has run, removal from the pool still to come
    finalizing: set<ItemId>,        // found collecting by a thread that has yet to write FINALIZED
    ledger: map<ItemId, Ledger>,
    destroyed: multiset<ItemId>,
    wrongStatus: nat)

  /** How Submission_Submit's tests came out. */
  datatype Verdict = SelfParent | NullArguments | NoType | CacheHit | CacheMiss(recorded: bool)

  datatype Sending = StoreFailed | MessageFailed | PutFailed | Sent

  datatype Step =
    | Create(i: ItemId, context: nat, hasCallback: bool)
    | TestCollecting(i: ItemId)
    | SetFinalized(i: ItemId)
    | Submit(i: ItemId, flags: Flags, verdict: Verdict)
    | PopRequest
    | Request(i: ItemId, sent: bool)
    | Respond(i: ItemId, context: nat, canHaz: bool)
    | PopSubmit
    | Send(i: ItemId, sending: Sending)
    | Abandon(i: ItemId, context: nat)
    | Notify(i: ItemId)
    | Destroy(i: ItemId)
    | Discard(i: ItemId)

  const EMPTY := State(map[], [], [], [], multiset{}, multiset{}, multiset{}, multiset{}, {}, map[], multiset{}, 0)

  const NO_FLAGS := Flags(false, false, false)

  function Last(q: seq<ItemId>): ItemId requires q != [] { q[|q| - 1] }

  function Front(q: seq<ItemId>): seq<ItemId> requires q != [] { q[..|q| - 1] }

  /** The timing list without an item's entries. */
  function Cleared(timing: seq<ItemId>, i: ItemId): (r: seq<ItemId>)
    ensures forall j :: multiset(r)[j] == if j == i then 0 else multiset(timing)[j]
  {
    if timing == [] then []
    else
      assert timing == [timing[0]] + timing[1..];
      if timing[0] == i then Cleared(timing[1..], i) else [timing[0]] + Cleared(timing[1..], i)
  }

  function SetStatus(s: State, i: ItemId, status: Status): State
    requires i in s.pool
  {
    s.(pool := s.pool[i := s.pool[i].(status := status)])
  }

  function SetFlags(s: State, i: ItemId, flags: Flags): State
    requires i in s.pool
  {
    s.(pool := s.pool[i := s.pool[i].(flags := flags)])
  }

  /** An item's entry once its callback, if it has one, has run and seen the given status. */
  function Called(l: Ledger, status: Status): Ledger {
    if !l.hasCallback then l
    else l.(called := l.called + 1, succeeded := l.succeeded + if status == FINALIZED then 1 else 0)
  }

  function Callback(s: State, i: ItemId): State
    requires i in s.pool && i in s.ledger
  {
    s.(ledger := s.ledger[i := Called(s.ledger[i], s.pool[i].status)])
  }

  /** The submission message is put on the broker queue, or not. */
  function Put(s: State, i: ItemId, sent: bool): State
    requires i in s.ledger
  {
    s.(ledger := s.ledger[i := s.ledger[i].(sent := s.ledger[i].sent + if sent then 1 else 0)])
  }

  function End(s: State, i: ItemId): State
    requires i in s.ledger
  {
    s.(ledger := s.ledger[i := s.ledger[i].(ended := s.ledger[i].ended + 1)])
  }

  /** Gives up an item with its lock held: status and callback; its removal comes later. */
  function Fail(s: State, i: ItemId, status: Status): State
    requires i in s.pool && i in s.ledger
  {
    var r := Callback(SetStatus(s, i, status), i);
    r.(destroying := r.destroying + multiset{i})
  }

  predicate InFlight(status: Status) { status == CHECK || status == CHECKING || status == SUBMIT }

  /** How many places an item has in the queues and with threads. */
  function Places(s: State, i: ItemId): nat {
    multiset(s.requests)[i] + multiset(s.submits)[i] + s.requesting[i] + s.submitting[i]
    + s.notifying[i] + s.destroying[i]
  }

  /** Submission_Submit, on an item that is in no queue and with no thread. */
  function DoSubmit(s: State, i: ItemId, flags: Flags, verdict: Verdict): State
    requires i in s.pool && i in s.ledger
  {
    match verdict
    case SelfParent => Fail(s, i, ERROR)
    case NullArguments => Fail(s, i, ERROR)
    case NoType => Fail(s, i, NO_TYPE)
    case CacheHit =>
      var r := SetFlags(SetStatus(s, i, SUBMIT), i, flags.(eventOnly := true));
      r.(submits := r.submits + [i])
    case CacheMiss(recorded) =>
      var r := SetFlags(SetStatus(s, i, CHECK), i, flags);
      r.(requests := r.requests + [i], timing := if recorded then Cleared(r.timing, i) + [i] else r.timing)
  }

  /** The request thread, once it holds the lock of the item it popped. */
  function DoRequest(s: State, i: ItemId, sent: bool): State {
    var r := s.(requesting := s.requesting - multiset{i});
    if i !in s.pool || i !in s.ledger || s.pool[i].status != CHECK then r.(wrongStatus := s.wrongStatus + 1)
    else if sent then SetStatus(r, i, CHECKING)
    else Fail(r.(timing := Cleared(s.timing, i)), i, ERROR)
  }

  /** The response handler, on an item whose block the response names. */
  function DoRespond(s: State, i: ItemId, canHaz: bool): State
    requires i in s.pool
  {
    var r := SetStatus(s, i, SUBMIT);
    var f := if canHaz then r else SetFlags(r, i, r.pool[i].flags.(eventOnly := true));
    f.(timing := Cleared(s.timing, i), submits := s.submits + [i])
  }

  /** The submit thread, once it holds the lock of the item it popped. */
  function DoSend(s: State, i: ItemId, sending: Sending): State {
    var r := s.(submitting := s.submitting - multiset{i});
    if i !in s.pool || i !in s.ledger || s.pool[i].status != SUBMIT then r.(wrongStatus := s.wrongStatus + 1)
    else if sending == StoreFailed || sending == MessageFailed then Fail(r, i, ERROR)
    else
      var put := Put(r, i, sending == Sent);
      var done := Callback(SetStatus(put, i, if sending == Sent then FINALIZED else ERROR), i);
      if s.pool[i].flags.mayReuse then End(SetFlags(done, i, NO_FLAGS), i)
      else done.(destroying := done.destroying + multiset{i})
  }

  function DoDestroy(s: State, i: ItemId): State {
    var r := s.(destroying := s.destroying - multiset{i});
    if i !in s.pool || i !in s.ledger then r
    else End(r.(pool := r.pool - {i}, destroyed := r.destroyed + multiset{i}), i)
  }

  /**
   * Whether a step can be taken.  Finalizing takes no lock: its test and its write are two steps.
   * Only one thread gets past the test, as the item's hash can be finalized once.
   */
  predicate Enabled(s: State, step: Step) {
    match step
    case Create(i, _, _) => i !in s.ledger
    case TestCollecting(i) => i in s.pool && s.pool[i].status == COLLECTING && i !in s.finalizing
    case SetFinalized(i) => i in s.finalizing && i in s.pool
    case Submit(i, _, _) => i in s.pool && i in s.ledger && Places(s, i) == 0
    case PopRequest => s.requests != []
    case Request(i, _) => i in s.requesting
    case Respond(i, c, _) => i in s.pool && s.pool[i].status == CHECKING && s.pool[i].context == c
    case PopSubmit => s.submits != []
    case Send(i, sending) =>
      && i in s.submitting
      && (sending == StoreFailed && i in s.pool ==> !s.pool[i].flags.eventOnly && !s.pool[i].flags.update)
    case Abandon(i, c) => i in s.pool && s.pool[i].status == CHECKING && s.pool[i].context == c
    case Notify(i) => i in s.notifying && i in s.pool && i in s.ledger
    case Destroy(i) => i in s.destroying
    case Discard(i) => i in s.pool && Places(s, i) == 0
  }

  function Apply(s: State, step: Step): State
    requires Enabled(s, step)
  {
    match step
    case Create(i, c, cb) =>
      s.(pool := s.pool[i := Item(COLLECTING, NO_FLAGS, c)], ledger := s.ledger[i := Ledger(cb, 0, 0, 0, 0)])
    case TestCollecting(i) => s.(finalizing := s.finalizing + {i})
    case SetFinalized(i) =>   // the whole status word, flags included
      SetFlags(SetStatus(s, i, FINALIZED), i, NO_FLAGS).(finalizing := s.finalizing - {i})
    case Submit(i, flags, verdict) => DoSubmit(s, i, flags, verdict)
    case PopRequest =>
      s.(requests := Front(s.requests), requesting := s.requesting + multiset{Last(s.requests)})
    case Request(i, sent) => DoRequest(s, i, sent)
    case Respond(i, _, canHaz) => DoRespond(s, i, canHaz)
    case PopSubmit =>
      s.(submits := Front(s.submits), submitting := s.submitting + multiset{Last(s.submits)})
    case Send(i, sending) => DoSend(s, i, sending)
    case Abandon(i, _) =>
      SetStatus(s, i, ERROR).(timing := Cleared(s.timing, i), notifying := s.notifying + multiset{i})
    case Notify(i) =>
      Callback(s, i).(notifying := s.notifying - multiset{i}, destroying := s.destroying + multiset{i})
    case Destroy(i) => DoDestroy(s, i)
    case Discard(i) => s.(pool := s.pool - {i}, destroyed := s.destroyed + multiset{i})
  }
}
