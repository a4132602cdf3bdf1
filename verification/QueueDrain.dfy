/** The reader's drain loop of src/queue.c in place, against the settlement steps. */
module QueueDrain {
  import opened Settlement
  import opened SettlementRuns

  /** Draining until the list is empty or the connection is lost; the broker's k-th answer is broker(k). */
  function Drained(s: State, broker: nat -> Broker, k: nat): State
    decreases |s.pending|
  {
    if !s.connected || s.pending == [] then s
    else Drained(DoDrainOne(s, broker(k)), broker, k + 1)
  }

  class Queue {
    var serial: nat
    var connected: bool
    var shuttingDown: bool
    var pending: seq<Pending>
    ghost var past: State

    /** The state these fields stand for; `past` supplies the rest of it. */
    ghost function View(): State
      reads this
    {
      past.(serial := serial, connected := connected, shuttingDown := shuttingDown, pending := pending)
    }

    method Reconnect(ok: bool)
      modifies this
      ensures View() == DoReconnect(old(View()), ok)
    {
      if shuttingDown { return; }
      connected := false;
      if !ok { return; }
      connected := true;
      serial := (serial + 1) % 0x1_0000_0000_0000_0000;
      if serial == 0 {
        serial := serial + 1;
      }
      past := past.(connections := past.connections + 1);
    }

    /** Sends one settlement; when the broker refuses it, the read side connects again. */
    method Settle(p: Pending, broker: Broker) returns (ok: bool)
      modifies this
      ensures ok == broker.accepts
      ensures var e := Sent(p.record, old(serial), old(past).connections, p.decision);
              var sent := old(View()).(sent := old(past).sent + [e]);
              View() == if ok then sent else DoReconnect(sent, broker.reconnects)
    {
      past := past.(sent := past.sent + [Sent(p.record, serial, past.connections, p.decision)]);
      if !broker.accepts {
        Reconnect(broker.reconnects);
        return false;
      }
      return true;
    }

    /** Answers false exactly when there is no connection at the start or at the end. */
    method ProcessPendingSettlements(broker: nat -> Broker) returns (ok: bool)
      modifies this
      ensures View() == Drained(old(View()), broker, 0)
      ensures ok <==> connected && old(connected)
    {
      if !connected { return false; }
      var k := 0;
      while pending != []
        invariant connected
        invariant Drained(View(), broker, k) == Drained(old(View()), broker, 0)
        decreases |pending|
      {
        var p := pending[|pending| - 1];
        pending := pending[..|pending| - 1];
        past := past.(spent := past.spent + multiset{p.record});
        if p.stamp == serial {
          var sent := Settle(p, broker(k));
          if !sent && !connected { return false; }
        }
        k := k + 1;
      }
      return true;
    }
  }

  lemma {:induction false} DrainedOwned(s: State, broker: nat -> Broker, k: nat)
    requires Inv(s)
    decreases |s.pending|
    ensures Inv(Drained(s, broker, k))
  {
    if s.connected && s.pending != [] {
      DrainKeeps(s, broker(k));
      DrainedOwned(DoDrainOne(s, broker(k)), broker, k + 1);
    }
  }

  lemma DrainOneKeeps(s: State, broker: Broker)
    requires s.pending != []
    ensures var r := DoDrainOne(s, broker);
            r.stamped == s.stamped && r.inHand == s.inHand && |r.pending| == |s.pending| - 1
  {}

  lemma {:induction false} DrainedEmpties(s: State, broker: nat -> Broker, k: nat)
    decreases |s.pending|
    ensures Drained(s, broker, k).connected ==> Drained(s, broker, k).pending == []
    ensures Drained(s, broker, k).stamped == s.stamped && Drained(s, broker, k).inHand == s.inHand
  {
    if s.connected && s.pending != [] {
      var r := DoDrainOne(s, broker(k));
      DrainOneKeeps(s, broker(k));
      DrainedEmpties(r, broker, k + 1);
      assert Drained(s, broker, k) == Drained(r, broker, k + 1);
    }
  }

  /** A drain keeps the ownership invariant and, unless the connection is lost, leaves nothing pending. */
  lemma DrainedKeeps(s: State, broker: nat -> Broker, k: nat)
    requires Inv(s)
    ensures Inv(Drained(s, broker, k))
    ensures Drained(s, broker, k).connected ==> Drained(s, broker, k).pending == []
    ensures Drained(s, broker, k).stamped == s.stamped && Drained(s, broker, k).inHand == s.inHand
  {
    DrainedOwned(s, broker, k);
    DrainedEmpties(s, broker, k);
  }

  /** What a drain hands to a broker that accepts everything: the live records, from the tail on. */
  function Handed(pending: seq<Pending>, serial: nat, connection: nat): seq<Sent> {
    if pending == [] then []
    else
      var n := |pending| - 1;
      (if pending[n].stamp == serial then [Sent(pending[n].record, serial, connection, pending[n].decision)] else [])
      + Handed(pending[..n], serial, connection)
  }

  /** Every live record sent, every stale one dropped, and nothing else changed. */
  function Emptied(s: State): State {
    s.(pending := [], spent := s.spent + Records(s.pending),
       sent := s.sent + Handed(s.pending, s.serial, s.connections))
  }

  lemma HandedOne(pending: seq<Pending>, serial: nat, connection: nat, sent: seq<Sent>)
    requires pending != []
    ensures var p, front := pending[|pending| - 1], pending[..|pending| - 1];
            sent + Handed(pending, serial, connection) ==
            (if p.stamp == serial then sent + [Sent(p.record, serial, connection, p.decision)] else sent)
            + Handed(front, serial, connection)
  {}

  lemma EmptiedOne(s: State, broker: Broker)
    requires s.pending != [] && broker.accepts
    ensures var r := DoDrainOne(s, broker);
            r.connected == s.connected && r.pending == s.pending[..|s.pending| - 1] && Emptied(r) == Emptied(s)
  {
    HandedOne(s.pending, s.serial, s.connections, s.sent);
  }

  /** That is what a drain does, with such a broker. */
  lemma {:induction false} DrainedSends(s: State, broker: nat -> Broker, k: nat)
    requires s.connected && forall i :: broker(i).accepts
    decreases |s.pending|
    ensures Drained(s, broker, k) == Emptied(s)
  {
    if s.pending == [] {
      assert s.spent + Records([]) == s.spent && s.sent + [] == s.sent;
    } else {
      EmptiedOne(s, broker(k));
      DrainedSends(DoDrainOne(s, broker(k)), broker, k + 1);
    }
  }
}
