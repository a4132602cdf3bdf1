/**
 * The cache as a bounded map: when keys have one length and are added only after a lookup missed
 * them, keys stay distinct and every key still held carries the flags last written for it.
 */
module ArcMap {
  import opened Common
  import opened ArcModel
  import opened ArcRuns

  ghost predicate DistinctKeys(slots: seq<Content>) {
    forall i, j :: 0 <= i < j < |slots| ==> slots[i].key != slots[j].key
  }

  /** The key to flags map the slots stand for. */
  ghost function Assoc(slots: seq<Content>): map<Key, Flags>
    requires DistinctKeys(slots)
  {
    map i | 0 <= i < |slots| :: slots[i].key := slots[i].flags
  }

  // ---- one operation ----

  /** A check finds a key exactly when a slot of some list holds it, and reports the lowest one. */
  lemma CheckFinds(a: Arc, key: Key)
    requires Inv(a)
    ensures Check(a, key).Some?
    ensures Check(a, key).value.found.Some? <==>
            exists l, n :: n in a.lists.At(l) && n < |a.slots| && Matches(a.slots[n].key, key)
    ensures forall n :: 0 <= n < |a.slots| && Matches(a.slots[n].key, key)
                        && (forall j :: 0 <= j < n ==> !Matches(a.slots[j].key, key))
                        ==> Check(a, key).value.found == Some(a.slots[n].flags)
  {
    CheckSafe(a, key);
    var r := Find(a.slots, key);
    if r.Some? {
      HeldSlot(a, r.value);
      assert r.value in a.lists.At(Holder(a, r.value).value) && Matches(a.slots[r.value].key, key);
    }
  }

  /** The slot an addition writes. */
  function WrittenSlot(a: Arc): Slot
    requires MakeRoom(a).Some?
  {
    MakeRoom(a).value.slot
  }

  /**
   * An addition writes one slot and leaves every other slot's key and flags alone.  The slot is
   * fresh, or it was the least recently used one of T1, B1 or B2 in a cache that is full.
   */
  lemma AddWritesOneSlot(a: Arc, c: Content)
    requires Inv(a)
    ensures MakeRoom(a).Some? && Add(a, c).Some?
    ensures var n := WrittenSlot(a);
            && (n == |a.slots| ==> Add(a, c).value.slots == a.slots + [c])
            && (n != |a.slots| ==> n < |a.slots| && Add(a, c).value.slots == a.slots[n := c]
                                   && Reused(a, n) && |a.slots| >= a.size)
    ensures var t1 := Add(a, c).value.lists.t1; t1 != [] && t1[|t1| - 1] == WrittenSlot(a)
  {
    MakeRoomSafe(a);
    var n := WrittenSlot(a);
    if n == |a.slots| {
      assert (a.slots + [BLANK])[n := c] == a.slots + [c];
    }
  }

  lemma AssocOverwriteTo(slots: seq<Content>, n: nat, c: Content, k: Key)
    requires n < |slots| && DistinctKeys(slots) && DistinctKeys(slots[n := c])
    requires k in Assoc(slots) && k != slots[n].key
    ensures k in Assoc(slots[n := c])
  {
    var i :| 0 <= i < |slots| && slots[i].key == k;
    assert slots[n := c][i].key == k;
  }

  lemma AssocOverwrite(slots: seq<Content>, n: nat, c: Content)
    requires n < |slots| && DistinctKeys(slots) && DistinctKeys(slots[n := c])
    ensures Assoc(slots[n := c]) == (Assoc(slots) - {slots[n].key})[c.key := c.flags]
  {
    assert slots[n := c][n] == c;
    forall k | k in Assoc(slots[n := c]) && k != c.key
      ensures k != slots[n].key && k in Assoc(slots) && Assoc(slots)[k] == Assoc(slots[n := c])[k]
    {
    }
    forall k | k in Assoc(slots) && k != slots[n].key ensures k in Assoc(slots[n := c]) {
      AssocOverwriteTo(slots, n, c, k);
    }
  }

  lemma AssocAppend(slots: seq<Content>, c: Content)
    requires DistinctKeys(slots)
    requires forall i :: 0 <= i < |slots| ==> slots[i].key != c.key
    ensures DistinctKeys(slots + [c])
    ensures Assoc(slots + [c]) == Assoc(slots)[c.key := c.flags]
  {
    var after := slots + [c];
    assert forall i :: 0 <= i < |slots| ==> after[i] == slots[i];
    assert after[|slots|] == c;
  }

  /** The keys an addition drops: none, or the one held by a least recently used slot. */
  ghost function Victims(a: Arc): set<Key>
    requires MakeRoom(a).Some?
  {
    if WrittenSlot(a) < |a.slots| then {a.slots[WrittenSlot(a)].key} else {}
  }

  /** As a map: the new binding replaces at most one other key. */
  lemma AddEvictsAtMostOne(a: Arc, c: Content)
    requires Inv(a) && DistinctKeys(a.slots)
    requires forall i :: 0 <= i < |a.slots| ==> a.slots[i].key != c.key
    ensures MakeRoom(a).Some? && |Victims(a)| <= 1
    ensures Add(a, c).Some? && DistinctKeys(Add(a, c).value.slots)
    ensures Assoc(Add(a, c).value.slots) == (Assoc(a.slots) - Victims(a))[c.key := c.flags]
  {
    AddWritesOneSlot(a, c);
    if WrittenSlot(a) == |a.slots| {
      AssocAppend(a.slots, c);
      assert Assoc(a.slots) - {} == Assoc(a.slots);
    } else {
      AssocOverwrite(a.slots, WrittenSlot(a), c);
    }
  }

  // ---- when keys stay distinct ----

  /** No slot but the one an addition will overwrite holds its key. */
  ghost predicate Harmless(a: Arc, c: Content)
    requires MakeRoom(a).Some?
  {
    forall i :: 0 <= i < |a.slots| && i != WrittenSlot(a) ==> a.slots[i].key != c.key
  }

  /** An addition leaves keys distinct exactly when it is harmless. */
  lemma AddDistinctExactly(a: Arc, c: Content)
    requires Inv(a) && DistinctKeys(a.slots)
    ensures MakeRoom(a).Some? && Add(a, c).Some?
    ensures DistinctKeys(Add(a, c).value.slots) <==> Harmless(a, c)
  {
    AddWritesOneSlot(a, c);
    var n, after := WrittenSlot(a), Add(a, c).value.slots;
    assert after[n] == c && forall i :: 0 <= i < |a.slots| && i != n ==> after[i] == a.slots[i];
    if !Harmless(a, c) {
      var i :| 0 <= i < |a.slots| && i != n && a.slots[i].key == c.key;
      assert after[i].key == after[n].key;
    }
  }

  /** Every state along a run holds distinct keys. */
  ghost predicate AllDistinct(a: Arc, ops: seq<Op>)
    decreases |ops|
  {
    && DistinctKeys(a.slots)
    && (ops == [] || (Step(a, ops[0]).Some? && AllDistinct(Step(a, ops[0]).value, ops[1..])))
  }

  /** Every addition of a run is harmless when it happens. */
  ghost predicate AllHarmless(a: Arc, ops: seq<Op>)
    decreases |ops|
  {
    ops == [] ||
    (&& (ops[0].AddOp? ==> MakeRoom(a).Some? && Harmless(a, ops[0].content))
     && (Step(a, ops[0]).Some? ==> AllHarmless(Step(a, ops[0]).value, ops[1..])))
  }

  lemma StepDistinctExactly(a: Arc, op: Op)
    requires Inv(a) && DistinctKeys(a.slots)
    ensures Step(a, op).Some? && Inv(Step(a, op).value)
    ensures DistinctKeys(Step(a, op).value.slots) <==> AllHarmless(a, [op])
  {
    StepSafe(a, op);
    assert AllHarmless(Step(a, op).value, [op][1..]);
    match op
    case CheckOp(k) => CheckSafe(a, k);
    case AddOp(c) => AddDistinctExactly(a, c);
    case UpdateOp(c) =>
  }

  /** The keys stay distinct all along a run exactly when every addition in it is harmless. */
  lemma {:induction false} RunDistinctExactly(a: Arc, ops: seq<Op>)
    requires Inv(a) && DistinctKeys(a.slots)
    decreases |ops|
    ensures AllDistinct(a, ops) <==> AllHarmless(a, ops)
  {
    if ops != [] {
      StepDistinctExactly(a, ops[0]);
      var b := Step(a, ops[0]).value;
      assert AllHarmless(b, [ops[0]][1..]);
      if DistinctKeys(b.slots) { RunDistinctExactly(b, ops[1..]); }
    }
  }

  // ---- disciplined runs ----

  /** Every addition happens when a lookup of its key would miss. */
  ghost predicate Disciplined(a: Arc, ops: seq<Op>)
    decreases |ops|
  {
    ops == [] ||
    (&& (ops[0].AddOp? ==> Find(a.slots, ops[0].content.key).None?)
     && (Step(a, ops[0]).Some? ==> Disciplined(Step(a, ops[0]).value, ops[1..])))
  }

  lemma StepKeepsDistinct(a: Arc, op: Op)
    requires Inv(a) && DistinctKeys(a.slots) && Disciplined(a, [op])
    ensures Step(a, op).Some? && Inv(Step(a, op).value) && DistinctKeys(Step(a, op).value.slots)
  {
    StepSafe(a, op);
    match op
    case CheckOp(k) => CheckSafe(a, k);
    case AddOp(c) =>
      AddEvictsAtMostOne(a, c);
    case UpdateOp(c) =>
  }

  /** Disciplined runs never hold a key twice; keys may differ in length, shorter ones matching longer. */
  lemma {:induction false} RunKeepsDistinct(a: Arc, ops: seq<Op>)
    requires Inv(a) && DistinctKeys(a.slots) && Disciplined(a, ops)
    decreases |ops|
    ensures Run(a, ops).Some? && Inv(Run(a, ops).value) && DistinctKeys(Run(a, ops).value.slots)
  {
    if ops != [] {
      assert Disciplined(a, [ops[0]]);
      StepKeepsDistinct(a, ops[0]);
      RunKeepsDistinct(Step(a, ops[0]).value, ops[1..]);
    }
  }

  // ---- flags are the last ones written ----

  function KeyOf(op: Op): Key {
    match op case CheckOp(k) => k case AddOp(c) => c.key case UpdateOp(c) => c.key
  }

  /** The flags of the last addition or update in the history that names the key. */
  function LastWrite(history: seq<Op>, key: Key): Option<Flags> {
    if history == [] then None
    else
      var op := history[|history| - 1];
      if !op.CheckOp? && op.content.key == key then Some(op.content.flags)
      else LastWrite(history[..|history| - 1], key)
  }

  /** Keys of one length, and each held key carrying its last written flags. */
  ghost predicate Written(a: Arc, history: seq<Op>, length: nat) {
    forall i :: 0 <= i < |a.slots| ==>
      |a.slots[i].key| == length && LastWrite(history, a.slots[i].key) == Some(a.slots[i].flags)
  }

  lemma FindExact(slots: seq<Content>, key: Key)
    requires forall i :: 0 <= i < |slots| ==> |slots[i].key| == |key|
    ensures forall i :: 0 <= i < |slots| ==> (Matches(slots[i].key, key) <==> slots[i].key == key)
  {
    assert forall i :: 0 <= i < |slots| ==> slots[i].key[..|key|] == slots[i].key;
  }

  lemma StepKeepsWritten(a: Arc, op: Op, history: seq<Op>)
    requires Inv(a) && DistinctKeys(a.slots) && Disciplined(a, [op])
    requires Written(a, history, |KeyOf(op)|)
    ensures Step(a, op).Some? && Written(Step(a, op).value, history + [op], |KeyOf(op)|)
  {
    StepSafe(a, op);
    assert (history + [op])[..|history|] == history;
    FindExact(a.slots, KeyOf(op));
    match op
    case CheckOp(k) => CheckSafe(a, k);
    case AddOp(c) => AddWritesOneSlot(a, c);
    case UpdateOp(c) =>
  }

  /**
   * In a disciplined run whose keys have one length, every key held at the end carries the flags
   * of the last addition or update that named it.
   */
  lemma {:induction false} RunKeepsWritten(a: Arc, ops: seq<Op>, history: seq<Op>, length: nat)
    requires Inv(a) && DistinctKeys(a.slots) && Disciplined(a, ops)
    requires forall i :: 0 <= i < |ops| ==> |KeyOf(ops[i])| == length
    requires Written(a, history, length)
    decreases |ops|
    ensures Run(a, ops).Some? && Written(Run(a, ops).value, history + ops, length)
  {
    if ops == [] {
      assert history + ops == history;
    } else {
      assert Disciplined(a, [ops[0]]);
      StepKeepsDistinct(a, ops[0]);
      StepKeepsWritten(a, ops[0], history);
      RunKeepsWritten(Step(a, ops[0]).value, ops[1..], history + [ops[0]], length);
      assert history + [ops[0]] + ops[1..] == history + ops;
    }
  }

  /** From an empty cache: what a final check of a held key reports. */
  lemma CheckReportsLastWrite(size: nat, ops: seq<Op>, key: Key)
    requires 1 <= size < 0x8000_0000
    requires Disciplined(Init(size), ops)
    requires forall i :: 0 <= i < |ops| ==> |KeyOf(ops[i])| == |key|
    ensures Run(Init(size), ops).Some? && Check(Run(Init(size), ops).value, key).Some?
    ensures var a := Run(Init(size), ops).value; var found := Check(a, key).value.found;
            && (found.Some? <==> key in (set i | 0 <= i < |a.slots| :: a.slots[i].key))
            && (found.Some? ==> found == LastWrite(ops, key))
  {
    RunKeepsDistinct(Init(size), ops);
    RunKeepsWritten(Init(size), ops, [], |key|);
    assert [] + ops == ops;
    var a := Run(Init(size), ops).value;
    CheckSafe(a, key);
    FindExact(a.slots, key);
  }

  /** Without the discipline the property can fail: with room for two, a second addition stores the key again. */
  lemma UndisciplinedAddDuplicates(size: nat, c: Content, d: Flags)
    requires 2 <= size < 0x8000_0000
    ensures var ops := [AddOp(c), AddOp(c.(flags := d))];
            Run(Init(size), ops).Some? && !DistinctKeys(Run(Init(size), ops).value.slots)
            && Find(Run(Init(size), ops).value.slots, c.key) == Some(0)
  {
    var ops := [AddOp(c), AddOp(c.(flags := d))];
    var a := Add(Init(size), c).value;
    assert a.slots == [c];
    assert ops[1..] == [AddOp(c.(flags := d))];
    var b := Add(a, c.(flags := d)).value;
    assert b.slots == [c, c.(flags := d)];
    assert Run(b, ops[1..][1..]) == Some(b);
    assert Run(a, ops[1..]) == Some(b);
    assert b.slots[0].key == b.slots[1].key;
    assert c.key[..|c.key|] == c.key;
    assert Matches(b.slots[0].key, c.key);
  }
}
