/**
 * What a hit reports.  checkLocalEntry finds the slot and moves it under the cache's mutex, but
 * copies the slot's flags after it has released the mutex, so other operations may come between.
 */
module ArcCopy {
  import opened Common
  import opened ArcModel
  import opened ArcRuns
  import opened ArcMap

  /** The content last added to a slot along a run, if there was an addition to it. */
  ghost function LastAdded(a: Arc, ops: seq<Op>, n: Slot): Option<Content>
    decreases |ops|
  {
    if ops == [] || Step(a, ops[0]).None? then None
    else
      var later := LastAdded(Step(a, ops[0]).value, ops[1..], n);
      if later.Some? then later
      else if ops[0].AddOp? && MakeRoom(a).Some? && WrittenSlot(a) == n then Some(ops[0].content)
      else None
  }

  /** Nothing was added to the slot along the run, or what was added last has this key again. */
  ghost predicate StillHolds(a: Arc, ops: seq<Op>, n: Slot, key: Key) {
    LastAdded(a, ops, n).None? || LastAdded(a, ops, n).value.key == key
  }

  /** A step leaves a slot's key alone unless it is an addition to that slot. */
  lemma StepSlotKey(a: Arc, op: Op, n: Slot)
    requires Inv(a) && n < |a.slots|
    ensures Step(a, op).Some? && Inv(Step(a, op).value) && n < |Step(a, op).value.slots|
    ensures op.AddOp? ==> MakeRoom(a).Some?
    ensures Step(a, op).value.slots[n].key ==
            if op.AddOp? && WrittenSlot(a) == n then op.content.key else a.slots[n].key
  {
    StepSafe(a, op);
    match op
    case CheckOp(k) => CheckSafe(a, k);
    case AddOp(c) => AddWritesOneSlot(a, c);
    case UpdateOp(c) =>
  }

  lemma {:induction false} RunSlotKey(a: Arc, ops: seq<Op>, n: Slot)
    requires Inv(a) && n < |a.slots|
    decreases |ops|
    ensures Run(a, ops).Some? && n < |Run(a, ops).value.slots|
    ensures Run(a, ops).value.slots[n].key ==
            if LastAdded(a, ops, n).Some? then LastAdded(a, ops, n).value.key else a.slots[n].key
  {
    if ops != [] {
      StepSlotKey(a, ops[0], n);
      RunSlotKey(Step(a, ops[0]).value, ops[1..], n);
    }
  }

  /**
   * When the flags are copied, the slot holds the key that was hit exactly when no addition in
   * between overwrote it, or the last one to do so added that key back.
   */
  lemma CopiesOwnSlot(a: Arc, key: Key, between: seq<Op>, n: Slot)
    requires Inv(a) && Find(a.slots, key) == Some(n)
    ensures Check(a, key).Some? && Run(Check(a, key).value.arc, between).Some?
    ensures var b := Check(a, key).value.arc; var c := Run(b, between).value;
            n < |c.slots| && (c.slots[n].key == a.slots[n].key <==> StillHolds(b, between, n, a.slots[n].key))
  {
    CheckSafe(a, key);
    RunSlotKey(Check(a, key).value.arc, between, n);
  }

  /**
   * From an empty cache, in disciplined runs with keys of one length: the flags copied are those
   * last written for the key the slot then holds, which is the key that was hit exactly when the
   * slot still holds it.
   */
  lemma CopiedFlags(size: nat, before: seq<Op>, a: Arc, key: Key, between: seq<Op>, n: Slot)
    requires 1 <= size < 0x8000_0000 && Disciplined(Init(size), before) && Run(Init(size), before) == Some(a)
    requires Find(a.slots, key) == Some(n) && Disciplined(a, [CheckOp(key)] + between)
    requires forall op <- before + between :: |KeyOf(op)| == |key|
    ensures Check(a, key).Some? && Run(Check(a, key).value.arc, between).Some?
    ensures var b := Check(a, key).value.arc; var c := Run(b, between).value;
            && n < |c.slots|
            && (c.slots[n].key == key <==> StillHolds(b, between, n, key))
            && LastWrite(before + [CheckOp(key)] + between, c.slots[n].key) == Some(c.slots[n].flags)
  {
    forall i | 0 <= i < |before| ensures |KeyOf(before[i])| == |key| { assert before[i] in before + between; }
    RunKeepsDistinct(Init(size), before);
    RunKeepsWritten(Init(size), before, [], |key|);
    assert [] + before == before;
    FindExact(a.slots, key);
    var ops := [CheckOp(key)] + between;
    assert ops[0] == CheckOp(key) && ops[1..] == between;
    forall i | 0 <= i < |ops| ensures |KeyOf(ops[i])| == |key| { assert i > 0 ==> ops[i] in before + between; }
    RunKeepsWritten(a, ops, before, |key|);
    assert before + ops == before + [CheckOp(key)] + between;
    CopiesOwnSlot(a, key, between, n);
  }

  // ---- with room for one entry, three operations suffice to overwrite the slot ----

  function One(t1: seq<Slot>, t2: seq<Slot>, b2: seq<Slot>, slots: seq<Content>): Arc {
    Arc(1, 1, PerList(t1, t2, [], b2), slots)
  }

  lemma FirstOnly(c: Content)
    ensures Add(Init(1), c) == Some(One([0], [], [], [c])) && Find([c], c.key) == Some(0)
    ensures Check(One([0], [], [], [c]), c.key) == Some(Checked(One([], [0], [], [c]), Some(c.flags)))
  {
    FindExact([c], c.key);
    assert [BLANK][0 := c] == [c] && [] + [BLANK] == [BLANK] && [] + [0] == [0] && Without([0], 0) == [];
  }

  lemma OthersAfter(c: Content, d: Content, e: Content)
    requires |c.key| == |d.key| && c.key != d.key
    ensures Add(One([], [0], [], [c]), d) == Some(One([1], [], [0], [c, d]))
    ensures Step(One([1], [], [0], [c, d]), CheckOp(d.key)) == Some(One([], [1], [0], [c, d]))
    ensures Add(One([], [1], [0], [c, d]), e) == Some(One([0], [], [1], [e, d]))
  {
    var slots := [c, d];
    FindExact(slots, d.key);
    assert !Matches(slots[0].key, d.key) && Matches(slots[1].key, d.key) && Find(slots, d.key) == Some(1);
    assert [1][1..] == [] && [0][1..] == [] && Without([1], 1) == [] && [] + [0] == [0] && [] + [1] == [1];
    assert [c, BLANK][1 := d] == [c, d] && [c] + [BLANK] == [c, BLANK] && [c, d][0 := e] == [e, d];
  }

  lemma ThreeSteps(a: Arc, x: Op, b: Arc, y: Op, c: Arc, z: Op, d: Arc)
    requires Step(a, x) == Some(b) && Step(b, y) == Some(c) && Step(c, z) == Some(d)
    ensures Run(a, [x, y, z]) == Some(d)
  {
    assert [x, y, z][1..] == [y, z] && [y, z][1..] == [z] && [z][1..] == [];
    assert Run(c, [z]) == Some(d);
    assert Run(b, [y, z]) == Some(d);
  }

  /** A hit on one key that copies the flags of another. */
  lemma CopiesAnotherKey(c: Content, d: Content, e: Content)
    requires |c.key| == |d.key| && c.key != d.key
    ensures var a, between := One([0], [], [], [c]), [AddOp(d), CheckOp(d.key), AddOp(e)];
            && Run(Init(1), [AddOp(c)]) == Some(a) && Find(a.slots, c.key) == Some(0)
            && Check(a, c.key).Some? && Run(Check(a, c.key).value.arc, between).Some?
            && Run(Check(a, c.key).value.arc, between).value.slots == [e, d]
  {
    FirstOnly(c);
    OthersAfter(c, d, e);
    ThreeSteps(One([], [0], [], [c]), AddOp(d), One([1], [], [0], [c, d]), CheckOp(d.key), One([], [1], [0], [c, d]),
               AddOp(e), One([0], [], [1], [e, d]));
  }
}
