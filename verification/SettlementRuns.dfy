/** Ownership, at-most-once sending and connection safety of settlement records, over all runs. */
module SettlementRuns {
  import opened Common
  import opened Settlement
  import Runs

  function SentRecords(sent: seq<Sent>): multiset<Record> {
    if sent == [] then multiset{}
    else SentRecords(sent[..|sent| - 1]) + multiset{sent[|sent| - 1].record}
  }

  /** A record is with its message, or pending, or spent; it was sent at most once, and then is spent. */
  ghost predicate OwnedOnce(s: State, r: Record) {
    && (if r in s.messages then 1 else 0) + Records(s.pending)[r] + s.spent[r] == (if r in s.stamped then 1 else 0)
    && SentRecords(s.sent)[r] <= s.spent[r]
  }

  /** A record's stamp is the serial of the connection that was live when it was stamped. */
  ghost predicate StampOk(s: State, r: Record, stamp: nat) {
    r in s.stamped && stamp == Serial(s.stamped[r])
  }

  /** A pending record carries its stamp. */
  ghost predicate PendingOk(s: State, p: Pending) { StampOk(s, p.record, p.stamp) }

  /** A record was sent under the serial of its stamp. */
  ghost predicate SentOk(s: State, e: Sent) {
    && StampOk(s, e.record, e.serial)
    && e.serial == Serial(e.connection)
    && s.stamped[e.record] <= e.connection <= s.connections
  }

  ghost predicate Inv(s: State) {
    && s.serial == Serial(s.connections) && (s.connected ==> s.connections > 0)
    && (s.inHand.Some? ==> 0 < s.inHand.value <= s.connections)
    && (forall r {:trigger OwnedOnce(s, r)} :: OwnedOnce(s, r))
    && (forall r :: r in s.messages ==> StampOk(s, r, s.messages[r]))
    && (forall p <- s.pending :: PendingOk(s, p))
    && (forall r :: r in s.stamped ==> r in s.delivered && 0 < s.delivered[r] <= s.stamped[r] <= s.connections)
    && (forall e <- s.sent :: SentOk(s, e))
  }

  lemma ConnectKeeps(s: State, ok: bool)
    requires Inv(s)
    ensures Inv(DoConnect(s, ok))
  {
    SerialBumps(s.connections);
    var r := DoConnect(s, ok);
    forall k ensures OwnedOnce(r, k) { assert OwnedOnce(s, k); }
  }

  lemma ReconnectKeeps(s: State, ok: bool)
    requires Inv(s)
    ensures Inv(DoReconnect(s, ok))
  {
    if !s.shuttingDown {
      var r := s.(connected := false);
      forall k ensures OwnedOnce(r, k) { assert OwnedOnce(s, k); }
      ConnectKeeps(r, ok);
    }
  }

  lemma StampKeeps(s: State, r: Record)
    requires Inv(s) && Enabled(s, Stamp(r))
    ensures Inv(Apply(s, Stamp(r)))
  {
    var b := Apply(s, Stamp(r));
    forall k ensures OwnedOnce(b, k) { assert OwnedOnce(s, k); }
    forall p <- b.pending ensures PendingOk(b, p) { assert PendingOk(s, p); }
    forall e <- b.sent ensures SentOk(b, e) { assert SentOk(s, e); }
  }

  lemma RecordsPush(pending: seq<Pending>, p: Pending)
    ensures Records(pending + [p]) == Records(pending) + multiset{p.record}
  {
    assert (pending + [p])[..|pending|] == pending;
  }

  lemma SettleKeeps(s: State, r: Record, decision: Decision)
    requires Inv(s) && r in s.messages
    ensures Inv(Apply(s, Settle(r, decision, true)))
  {
    var p := Pending(r, s.messages[r], decision);
    var b := s.(pending := s.pending + [p], messages := s.messages - {r});
    RecordsPush(s.pending, p);
    forall k ensures OwnedOnce(b, k) { assert OwnedOnce(s, k); }
    forall q <- b.pending ensures PendingOk(b, q) { assert q == p || PendingOk(s, q); }
    forall e <- b.sent ensures SentOk(b, e) { assert SentOk(s, e); }
  }

  /** Taking the tail of the pending list makes its record spent. */
  lemma TakeKeeps(s: State)
    requires Inv(s) && s.pending != []
    ensures var p := s.pending[|s.pending| - 1];
            Inv(Spend(s.(pending := s.pending[..|s.pending| - 1]), p.record))
  {
    var p, front := s.pending[|s.pending| - 1], s.pending[..|s.pending| - 1];
    var b := Spend(s.(pending := front), p.record);
    assert forall q <- front :: q in s.pending;
    forall k ensures OwnedOnce(b, k) { assert OwnedOnce(s, k); }
  }

  /** Handing a spent record that was never sent to the broker, under its own stamp. */
  lemma SendKeeps(s: State, e: Sent)
    requires Inv(s) && SentOk(s, e) && s.spent[e.record] > 0 && SentRecords(s.sent)[e.record] == 0
    ensures Inv(s.(sent := s.sent + [e]))
  {
    var b := s.(sent := s.sent + [e]);
    assert (s.sent + [e])[..|s.sent|] == s.sent;
    forall k ensures OwnedOnce(b, k) { assert OwnedOnce(s, k); }
    forall f <- b.sent ensures SentOk(b, f) { assert SentOk(s, f); }
  }

  lemma DrainKeeps(s: State, broker: Broker)
    requires Inv(s) && Enabled(s, DrainOne(broker))
    ensures Inv(DoDrainOne(s, broker))
  {
    var p, front := s.pending[|s.pending| - 1], s.pending[..|s.pending| - 1];
    var b := Spend(s.(pending := front), p.record);
    TakeKeeps(s);
    assert p in s.pending && PendingOk(s, p) && OwnedOnce(s, p.record);
    if p.stamp == s.serial {
      var e := Sent(p.record, s.serial, s.connections, p.decision);
      SendKeeps(b, e);
      ReconnectKeeps(b.(sent := b.sent + [e]), broker.reconnects);
    }
  }

  lemma FinalDestroyKeeps(s: State)
    requires Inv(s) && Enabled(s, FinalDestroy)
    ensures Inv(Apply(s, FinalDestroy))
  {
    var b := Apply(s, FinalDestroy);
    forall k ensures OwnedOnce(b, k) { assert OwnedOnce(s, k); }
    forall e <- b.sent ensures SentOk(b, e) { assert SentOk(s, e); }
  }

  /** Steps that send nothing and stamp nothing. */
  lemma QuietKeeps(s: State, step: Step)
    requires Inv(s) && Enabled(s, step)
    requires step.Terminate? || step.Consume? || step.Drop? || step.Discard?
    ensures Inv(Apply(s, step))
  {
    var b := Apply(s, step);
    forall k ensures OwnedOnce(b, k) { assert OwnedOnce(s, k); }
    forall e <- b.sent ensures SentOk(b, e) { assert SentOk(s, e); }
  }

  lemma StepKeeps(s: State, step: Step)
    requires Inv(s) && Enabled(s, step)
    ensures Inv(Apply(s, step))
  {
    match step
    case Connect(ok) => ConnectKeeps(s, ok);
    case Reconnect(ok) => ReconnectKeeps(s, ok);
    case Stamp(r) => StampKeeps(s, r);
    case Settle(r, decision, pushed) => if pushed { SettleKeeps(s, r, decision); }
    case DrainOne(broker) => DrainKeeps(s, broker);
    case FinalDestroy => FinalDestroyKeeps(s);
    case _ => QuietKeeps(s, step);
  }

  // ---- runs ----

  predicate Init(s: State) { s == START }

  predicate Next(s: State, step: Step, r: State) { Enabled(s, step) && Apply(s, step) == r }

  ghost predicate Run(states: seq<State>, steps: seq<Step>) { Runs.Run(Init, Next, states, steps) }

  lemma {:induction false} RunKeeps(states: seq<State>, steps: seq<Step>, k: nat)
    requires Run(states, steps) && k < |states|
    ensures Inv(states[k])
  {
    if k == 0 {
      forall r ensures OwnedOnce(states[0], r) {}
    } else {
      RunKeeps(states, steps, k - 1);
      assert Runs.StepAt(Next, states, steps, k - 1);
      StepKeeps(states[k - 1], steps[k - 1]);
    }
  }

  /** Every record is owned exactly once and sent at most once. */
  lemma RecordsOwnedOnce(states: seq<State>, steps: seq<Step>, k: nat, r: Record)
    requires Run(states, steps) && k < |states|
    ensures var s := states[k];
            && (r in s.stamped ==>
                  (if r in s.messages then 1 else 0) + Records(s.pending)[r] + s.spent[r] == 1)
            && SentRecords(s.sent)[r] <= 1
            && (SentRecords(s.sent)[r] == 1 ==> r !in s.messages && Records(s.pending)[r] == 0)
  {
    RunKeeps(states, steps, k);
    assert OwnedOnce(states[k], r);
  }

  /**
   * Every record sent was sent under the serial it was stamped with; so, until the 64-bit serial
   * has gone round, on the very connection that was live when it was stamped.
   */
  lemma SentOnStampedConnection(states: seq<State>, steps: seq<Step>, k: nat, e: Sent)
    requires Run(states, steps) && k < |states| && e in states[k].sent
    ensures var s := states[k];
            && e.record in s.stamped && e.serial == Serial(s.stamped[e.record]) == Serial(e.connection)
            && (e.connection < s.stamped[e.record] + CYCLE ==> e.connection == s.stamped[e.record])
  {
    RunKeeps(states, steps, k);
    var s := states[k];
    assert SentOk(s, e);
    if e.connection < s.stamped[e.record] + CYCLE {
      SerialDistinguishes(s.stamped[e.record], e.connection);
    }
  }

  /** Nothing stamped before a successful reconnect is sent after it. */
  lemma NotSentAfterReconnect(states: seq<State>, steps: seq<Step>, j: nat, k: nat, e: Sent)
    requires Run(states, steps) && j <= k < |states| && states[k].connections < CYCLE
    requires e in states[k].sent && e.connection > states[j].connections
    ensures e.record !in states[j].stamped
  {
    RunKeeps(states, steps, j);
    RunKeeps(states, steps, k);
    SentOnStampedConnection(states, steps, k, e);
    assert SentOk(states[k], e);
    if e.record in states[j].stamped {
      assert e.record in states[j].delivered;
      StampsStay(states, steps, j, k, e.record);
    }
  }

  /** What is known of a stamped record stays. */
  lemma HistoryStays(s: State, step: Step, r: Record)
    requires Enabled(s, step)
    ensures r in s.stamped ==>
              r in Apply(s, step).stamped && Apply(s, step).stamped[r] == s.stamped[r]
    ensures r in s.stamped && r in s.delivered ==>
              r in Apply(s, step).delivered && Apply(s, step).delivered[r] == s.delivered[r]
    ensures r !in s.stamped && r in Apply(s, step).stamped ==> step == Stamp(r)
  {}

  lemma {:induction false} StampsStay(states: seq<State>, steps: seq<Step>, j: nat, k: nat, r: Record)
    requires Run(states, steps) && j <= k < |states| && r in states[j].stamped && r in states[j].delivered
    ensures r in states[k].stamped && states[k].stamped[r] == states[j].stamped[r]
    ensures r in states[k].delivered && states[k].delivered[r] == states[j].delivered[r]
  {
    if j < k {
      StampsStay(states, steps, j, k - 1, r);
      assert Runs.StepAt(Next, states, steps, k - 1);
      HistoryStays(states[k - 1], steps[k - 1], r);
    }
  }

  // ---- what is sent is what was asked ----

  /** A step that hands a record over to be settled. */
  predicate Settles(step: Step, r: Record) { step.Settle? && step.pushed && step.r == r }

  lemma PendingFrom(s: State, step: Step, p: Pending)
    requires Enabled(s, step) && p in Apply(s, step).pending
    ensures p in s.pending || step == Settle(p.record, p.decision, true)
  {}

  lemma SentFrom(s: State, step: Step, e: Sent)
    requires Enabled(s, step) && e in Apply(s, step).sent && e !in s.sent
    ensures exists p <- s.pending :: p.record == e.record && p.decision == e.decision
  {
    assert step.DrainOne?;
    assert s.pending[|s.pending| - 1] in s.pending;
  }

  lemma {:induction false} PendingAsAsked(states: seq<State>, steps: seq<Step>, k: nat, p: Pending)
    requires Run(states, steps) && k < |states| && p in states[k].pending
    ensures exists m :: 0 <= m < k && steps[m] == Settle(p.record, p.decision, true)
  {
    if k > 0 {
      assert Runs.StepAt(Next, states, steps, k - 1);
      PendingFrom(states[k - 1], steps[k - 1], p);
      if p in states[k - 1].pending { PendingAsAsked(states, steps, k - 1, p); }
    }
  }

  lemma {:induction false} SentWasAsked(states: seq<State>, steps: seq<Step>, k: nat, e: Sent)
    requires Run(states, steps) && k < |states| && e in states[k].sent
    ensures exists m :: 0 <= m < k && steps[m] == Settle(e.record, e.decision, true)
  {
    if k > 0 {
      assert Runs.StepAt(Next, states, steps, k - 1);
      if e in states[k - 1].sent {
        SentWasAsked(states, steps, k - 1, e);
      } else {
        SentFrom(states[k - 1], steps[k - 1], e);
        var p :| p in states[k - 1].pending && p.record == e.record && p.decision == e.decision;
        PendingAsAsked(states, steps, k - 1, p);
      }
    }
  }

  /** A record that has left its message never comes back to it. */
  lemma LeftForGood(s: State, step: Step, r: Record)
    requires Enabled(s, step)
    ensures r in s.stamped && r !in s.messages ==> r !in Apply(s, step).messages
    ensures Settles(step, r) ==> r in s.messages && r !in Apply(s, step).messages
  {}

  lemma {:induction false} NeverBack(states: seq<State>, steps: seq<Step>, j: nat, k: nat, r: Record)
    requires Run(states, steps) && j <= k < |states| && r in states[j].stamped && r !in states[j].messages
    ensures r in states[k].stamped && r !in states[k].messages
  {
    if j < k {
      NeverBack(states, steps, j, k - 1, r);
      assert Runs.StepAt(Next, states, steps, k - 1);
      HistoryStays(states[k - 1], steps[k - 1], r);
      LeftForGood(states[k - 1], steps[k - 1], r);
    }
  }

  lemma SettledOnce(states: seq<State>, steps: seq<Step>, m: nat, j: nat, r: Record)
    requires Run(states, steps) && m < j < |steps| && Settles(steps[m], r)
    ensures !Settles(steps[j], r)
  {
    assert Runs.StepAt(Next, states, steps, m) && Runs.StepAt(Next, states, steps, j);
    HistoryStays(states[m], steps[m], r);
    LeftForGood(states[m], steps[m], r);
    RunKeeps(states, steps, m);
    assert StampOk(states[m], r, states[m].messages[r]);
    NeverBack(states, steps, m + 1, j, r);
    LeftForGood(states[j], steps[j], r);
  }

  /** Every record sent was sent as the one step that handed it over asked. */
  lemma SentAsAsked(states: seq<State>, steps: seq<Step>, k: nat, e: Sent)
    requires Run(states, steps) && k < |states| && e in states[k].sent
    ensures exists m :: 0 <= m < k && steps[m] == Settle(e.record, e.decision, true)
    ensures forall j, m :: 0 <= j < |steps| && 0 <= m < |steps| && Settles(steps[j], e.record) && Settles(steps[m], e.record)
                           ==> j == m
  {
    SentWasAsked(states, steps, k, e);
    forall j, m | 0 <= j < |steps| && 0 <= m < |steps| && Settles(steps[j], e.record) && Settles(steps[m], e.record)
      ensures j == m
    {
      if j < m {
        SettledOnce(states, steps, j, m, e.record);
      } else if m < j {
        SettledOnce(states, steps, m, j, e.record);
      }
    }
  }

  // ---- the connection of the stamp need not be the connection of the delivery ----

  const ACK := Decision(true, false)

  /** Record 0 is pending when the next delivery has been consumed on the first connection. */
  const CONSUMED := START.(connected := true, serial := 1, connections := 1, inHand := Some(1),
                           pending := [Pending(0, 1, ACK)], stamped := map[0 := 1], delivered := map[0 := 1])

  /** The broker refuses record 0 and the reader connects again before it stamps the delivery. */
  const STAMPED := CONSUMED.(serial := 2, connections := 2, inHand := None, pending := [],
                             stamped := map[0 := 1, 1 := 2], delivered := map[0 := 1, 1 := 1], messages := map[1 := 2],
                             spent := multiset{0}, sent := [Sent(0, 1, 1, ACK)])

  lemma ReachConsumed()
    ensures Runs.Reachable(Init, Next, CONSUMED)
  {
    Runs.ReachInit(Init, Next, START);
    var s1 := START.(connected := true, serial := 1, connections := 1);
    Runs.ReachNext(Init, Next, START, Connect(true), s1);
    var s2 := s1.(inHand := Some(1));
    Runs.ReachNext(Init, Next, s1, Consume, s2);
    var s3 := s1.(stamped := map[0 := 1], delivered := map[0 := 1], messages := map[0 := 1]);
    Runs.ReachNext(Init, Next, s2, Stamp(0), s3);
    var s4 := s3.(messages := map[], pending := [Pending(0, 1, ACK)]);
    Runs.ReachNext(Init, Next, s3, Settle(0, ACK, true), s4);
    Runs.ReachNext(Init, Next, s4, Consume, CONSUMED);
  }

  lemma ReachStamped()
    ensures Runs.Reachable(Init, Next, STAMPED)
  {
    ReachConsumed();
    var refuse := DrainOne(Broker(false, true));
    var s := CONSUMED.(serial := 2, connections := 2, pending := [], spent := multiset{0}, sent := [Sent(0, 1, 1, ACK)]);
    Runs.ReachNext(Init, Next, CONSUMED, refuse, s);
    Runs.ReachNext(Init, Next, s, Stamp(1), STAMPED);
  }

  /** A run in which a delivery of one connection is settled on the next. */
  lemma SettledElsewhere()
    ensures exists s, e :: Runs.Reachable(Init, Next, s) && e in s.sent && e.record in s.delivered && s.delivered[e.record] != e.connection
  {
    ReachStamped();
    var s := STAMPED.(messages := map[], pending := [Pending(1, 2, ACK)]);
    Runs.ReachNext(Init, Next, STAMPED, Settle(1, ACK, true), s);
    var r := Apply(s, DrainOne(Broker(true, false)));
    Runs.ReachNext(Init, Next, s, DrainOne(Broker(true, false)), r);
    assert Sent(1, 2, 2, ACK) in r.sent;
  }

  /** A step that opens another connection. */
  predicate NewConnection(s: State, step: Step) {
    match step
    case Connect(ok) => ok && !s.connected && !s.shuttingDown
    case Reconnect(ok) => ok && !s.shuttingDown
    case DrainOne(broker) =>
      && s.pending != [] && s.pending[|s.pending| - 1].stamp == s.serial
      && !broker.accepts && broker.reconnects && !s.shuttingDown
    case _ => false
  }

  ghost predicate SameConnection(states: seq<State>, steps: seq<Step>, c: nat, d: nat)
    requires c <= d < |states| && d <= |steps|
  {
    forall m :: c <= m < d ==> !NewConnection(states[m], steps[m])
  }

  /** Stamping or dropping takes a delivery out of the reader's hand. */
  predicate LetsGo(step: Step) { step.Stamp? || step.Drop? }

  /** A delivery consumed by step c and stamped as record r by step d. */
  ghost predicate Delivery(steps: seq<Step>, c: nat, d: nat, r: Record) {
    && c < d < |steps| && steps[c].Consume? && steps[d] == Stamp(r)
    && forall m :: c < m < d ==> !LetsGo(steps[m])
  }

  lemma ConnectionCounted(s: State, step: Step)
    requires Enabled(s, step)
    ensures Apply(s, step).connections == s.connections + if NewConnection(s, step) then 1 else 0
  {}

  /** A delivery comes to hand by being consumed and stays there until it is stamped or dropped. */
  lemma HandStays(s: State, step: Step)
    requires Enabled(s, step)
    ensures s.inHand.Some? && !LetsGo(step) ==> Apply(s, step).inHand == s.inHand
    ensures Apply(s, step).inHand.Some? ==>
              (step.Consume? && Apply(s, step).inHand == Some(s.connections)) || (s.inHand.Some? && !LetsGo(step))
  {}

  lemma {:induction false} ConnectionsCounted(states: seq<State>, steps: seq<Step>, c: nat, d: nat)
    requires Run(states, steps) && c <= d < |states|
    ensures states[c].connections <= states[d].connections
    ensures states[c].connections == states[d].connections <==> SameConnection(states, steps, c, d)
  {
    if c < d {
      ConnectionsCounted(states, steps, c, d - 1);
      assert Runs.StepAt(Next, states, steps, d - 1);
      ConnectionCounted(states[d - 1], steps[d - 1]);
    }
  }

  lemma {:induction false} HeldInHand(states: seq<State>, steps: seq<Step>, c: nat, d: nat)
    requires Run(states, steps) && c < d < |states| && steps[c].Consume?
    requires forall m :: c < m < d ==> !LetsGo(steps[m])
    ensures states[d].inHand == Some(states[c].connections)
  {
    assert Runs.StepAt(Next, states, steps, d - 1);
    if c < d - 1 {
      HeldInHand(states, steps, c, d - 1);
      HandStays(states[d - 1], steps[d - 1]);
    }
  }

  lemma {:induction false} ConsumedEarlier(states: seq<State>, steps: seq<Step>, d: nat)
    requires Run(states, steps) && d < |states| && states[d].inHand.Some?
    ensures exists c :: 0 <= c < d && steps[c].Consume? && forall m :: c < m < d ==> !LetsGo(steps[m])
  {
    if d > 0 {
      assert Runs.StepAt(Next, states, steps, d - 1);
      HandStays(states[d - 1], steps[d - 1]);
      if !steps[d - 1].Consume? {
        ConsumedEarlier(states, steps, d - 1);
      }
    }
  }

  /** Every stamped record was consumed and then stamped, with nothing stamped or dropped between. */
  lemma {:induction false} DeliveryExists(states: seq<State>, steps: seq<Step>, k: nat, r: Record)
    requires Run(states, steps) && k < |states| && r in states[k].stamped
    ensures exists c: nat, d: nat :: Delivery(steps, c, d, r) && d < k
  {
    if k > 0 {
      assert Runs.StepAt(Next, states, steps, k - 1);
      HistoryStays(states[k - 1], steps[k - 1], r);
      if r in states[k - 1].stamped {
        DeliveryExists(states, steps, k - 1, r);
      } else {
        ConsumedEarlier(states, steps, k - 1);
        var c :| 0 <= c < k - 1 && steps[c].Consume? && forall m :: c < m < k - 1 ==> !LetsGo(steps[m]);
        assert Delivery(steps, c, k - 1, r);
      }
    }
  }

  /**
   * A delivery is settled on the connection it came from exactly when no connection was opened
   * between consuming it and stamping it and the serial did not go all the way round before it
   * was sent.
   */
  lemma SettledWhereDelivered(states: seq<State>, steps: seq<Step>, c: nat, d: nat, k: nat, e: Sent)
    requires Run(states, steps) && d < k < |states| && Delivery(steps, c, d, e.record) && e in states[k].sent
    ensures e.connection == states[c].connections <==>
              SameConnection(states, steps, c, d) && e.connection < states[d].connections + CYCLE
    ensures e.record in states[k].delivered && states[k].delivered[e.record] == states[c].connections
  {
    HeldInHand(states, steps, c, d);
    assert Runs.StepAt(Next, states, steps, d);
    StampsStay(states, steps, d + 1, k, e.record);
    ConnectionsCounted(states, steps, c, d);
    SentOnStampedConnection(states, steps, k, e);
    RunKeeps(states, steps, k);
    assert SentOk(states[k], e);
  }
}
