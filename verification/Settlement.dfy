/**
 * Deferred acknowledgement in src/queue.c.  A delivery taken without automatic acknowledgement
 * carries a settlement record stamped with the serial of the read connection.  Any thread may
 * move the record to the pending list; the reader drains that list and sends a record to the
 * broker only if its stamp is the live serial.  The broker's answers are arbitrary.
 */
module Settlement {
  import opened Common

  type Record = nat

  datatype Decision = Decision(ack: bool, requeue: bool)

  /** A record as the pending list holds it. */
  datatype Pending = Pending(record: Record, stamp: nat, decision: Decision)

  /** A record handed to the broker: under which serial, and on which connection. */
  datatype Sent = Sent(record: Record, serial: nat, connection: nat, decision: Decision)

  datatype State = State(
    serial: nat,                    // readConnectionSerial, 64 bits
    connected: bool,                // pReadSocket != NULL
    shuttingDown: bool,
    pending: seq<Pending>,
    messages: map<Record, nat>,     // records still with their message, and their stamps
    inHand: Option<nat>,            // connection that a consumed, not yet stamped delivery came from
    // history
    connections: nat,               // successful connects so far
    stamped: map<Record, nat>,      // connection count when each record was stamped
    delivered: map<Record, nat>,    // connection each record's delivery came from
    spent: multiset<Record>,
    sent: seq<Sent>)

  /** How the broker answers a settlement, and whether connecting again would succeed. */
  datatype Broker = Broker(accepts: bool, reconnects: bool)

  datatype Step =
    | Terminate
    | Connect(ok: bool)
    | Reconnect(ok: bool)
    | Consume
    | Stamp(r: Record)
    | Drop
    | Settle(r: Record, decision: Decision, pushed: bool)
    | Discard(r: Record)
    | DrainOne(broker: Broker)
    | FinalDestroy

  const START := State(0, false, false, [], map[], None, 0, map[], map[], multiset{}, [])

  /** One more, in 64 bits, skipping zero. */
  function Bump(serial: nat): nat {
    var next := (serial + 1) % 0x1_0000_0000_0000_0000;
    if next == 0 then 1 else next
  }

  function DoConnect(s: State, ok: bool): State {
    if s.shuttingDown || s.connected || !ok then s
    else s.(connected := true, serial := Bump(s.serial), connections := s.connections + 1)
  }

  function DoReconnect(s: State, ok: bool): State {
    if s.shuttingDown then s else DoConnect(s.(connected := false), ok)
  }

  function Spend(s: State, r: Record): State { s.(spent := s.spent + multiset{r}) }

  /** The records of a pending list. */
  function Records(pending: seq<Pending>): (m: multiset<Record>)
  {
    if pending == [] then multiset{}
    else Records(pending[..|pending| - 1]) + multiset{pending[|pending| - 1].record}
  }

  /** Takes the tail of the pending list; drops it if stale, else hands it to the broker. */
  function DoDrainOne(s: State, broker: Broker): State
    requires s.pending != []
  {
    var p := s.pending[|s.pending| - 1];
    var r := Spend(s.(pending := s.pending[..|s.pending| - 1]), p.record);
    if p.stamp != s.serial then r
    else
      var q := r.(sent := r.sent + [Sent(p.record, s.serial, s.connections, p.decision)]);
      if broker.accepts then q else DoReconnect(q, broker.reconnects)
  }

  /**
   * The reader has at most one delivery in hand.  Until that is stamped or dropped it settles
   * pending records but neither connects by itself nor lets go of the queue.
   */
  predicate Enabled(s: State, step: Step) {
    match step
    case Terminate => true
    case Connect(_) => s.inHand == None
    case Reconnect(_) => s.inHand == None
    case Consume => s.connected && s.inHand == None
    case Stamp(r) => s.connected && s.inHand.Some? && r !in s.stamped
    case Drop => s.inHand.Some?
    case Settle(r, _, _) => r in s.messages
    case Discard(r) => r in s.messages
    case DrainOne(_) => s.connected && s.pending != []
    case FinalDestroy => s.shuttingDown && s.inHand == None
  }

  function Apply(s: State, step: Step): State
    requires Enabled(s, step)
  {
    match step
    case Terminate => s.(shuttingDown := true)
    case Connect(ok) => DoConnect(s, ok)
    case Reconnect(ok) => DoReconnect(s, ok)
    case Consume => s.(inHand := Some(s.connections))
    case Stamp(r) =>
      s.(messages := s.messages[r := s.serial], inHand := None,
         stamped := s.stamped[r := s.connections], delivered := s.delivered[r := s.inHand.value])
    case Drop => s.(inHand := None)
    case Settle(r, decision, pushed) =>
      if pushed then s.(pending := s.pending + [Pending(r, s.messages[r], decision)], messages := s.messages - {r})
      else s
    case Discard(r) => Spend(s.(messages := s.messages - {r}), r)
    case DrainOne(broker) => DoDrainOne(s, broker)
    case FinalDestroy => s.(pending := [], connected := false, spent := s.spent + Records(s.pending))
  }

  /** Connecting again: nothing during shutdown; else the old connection is closed, and a new one counts if it succeeds. */
  lemma ReconnectMeans(s: State, ok: bool)
    ensures var r := DoReconnect(s, ok);
            if s.shuttingDown then r == s
            else && r.connected == ok && r.connections == s.connections + (if ok then 1 else 0)
                 && r == s.(connected := r.connected, connections := r.connections, serial := r.serial)
                 && (!ok ==> r.serial == s.serial)
  {}

  // ---- serials and connections ----

  const CYCLE: nat := 0xFFFF_FFFF_FFFF_FFFF

  /** The serial after that many successful connects. */
  function Serial(connections: nat): nat {
    if connections == 0 then 0 else (connections - 1) % CYCLE + 1
  }

  lemma SerialBumps(n: nat)
    ensures Serial(n + 1) == Bump(Serial(n))
  {}

  /** Serials tell connections apart until they have gone all the way round. */
  lemma SerialDistinguishes(a: nat, b: nat)
    requires 0 < a <= b < a + CYCLE && Serial(a) == Serial(b)
    ensures a == b
  {}
}
