/** What every run of checks, additions and updates keeps, and exactly which capacities are safe. */
module ArcRuns {
  import opened Common
  import opened ArcModel

  /** How often each slot occurs in the four lists together. */
  ghost function Held(lists: PerList<seq<Slot>>): multiset<Slot> {
    multiset(lists.t1) + multiset(lists.t2) + multiset(lists.b1) + multiset(lists.b2)
  }

  /** The arithmetic that the paths through the code rely on. */
  ghost predicate Balanced(a: Arc) {
    var n := |a.slots|;
    && 1 <= a.size < 0x8000_0000
    && |a.lists.t1| + |a.lists.t2| == Min(n, a.size)
    && |a.lists.t1| + |a.lists.b1| <= a.size
    && |a.lists.t1| + |a.lists.t2| + |a.lists.b1| + |a.lists.b2| == n <= 2 * a.size
    && 0 <= a.target <= a.size
  }

  /** The lists partition the slots 0..n-1: each is in one list, once. */
  ghost predicate Partitions(lists: PerList<seq<Slot>>, n: nat) {
    forall i: Slot :: Held(lists)[i] == if i < n then 1 else 0
  }

  ghost predicate Inv(a: Arc) {
    Balanced(a) && Partitions(a.lists, |a.slots|)
  }

  // ---- list surgery conserves slots ----

  lemma PurgeConserves(a: Arc, l: ListType)
    requires a.lists.At(l) != []
    ensures PurgeLRU(a, l).Some?
    ensures var d := PurgeLRU(a, l).value;
            && d.slot == a.lists.At(l)[0]
            && |d.arc.lists.At(l)| == |a.lists.At(l)| - 1
            && Held(a.lists) == Held(d.arc.lists) + multiset{d.slot}
  {
    var s := a.lists.At(l);
    assert s == [s[0]] + s[1..];
    assert multiset(s) == multiset{s[0]} + multiset(s[1..]);
  }

  lemma AppendConserves(a: Arc, n: Slot, l: ListType)
    ensures Held(AddMRU(a, n, l).lists) == Held(a.lists) + multiset{n}
  {
    assert multiset(a.lists.At(l) + [n]) == multiset(a.lists.At(l)) + multiset{n};
  }

  lemma RemoveConserves(a: Arc, n: Slot, l: ListType)
    requires n in a.lists.At(l)
    ensures Held(a.lists) == Held(RemoveEntry(a, n, l).lists) + multiset{n}
  {
    assert multiset(a.lists.At(l)) == multiset(Without(a.lists.At(l), n)) + multiset{n};
  }

  /** Replacement needs only a full cache: whichever side it takes from is not empty. */
  lemma ReplaceSafe(a: Arc)
    requires 1 <= a.size && a.target <= a.size
    requires |a.lists.t1| + |a.lists.t2| == a.size
    ensures Replace(a).Some?
    ensures var b := Replace(a).value;
            && b == a.(lists := b.lists) && Held(b.lists) == Held(a.lists)
            && |b.lists.t1| + |b.lists.t2| == a.size - 1
            && |b.lists.t1| + |b.lists.b1| == |a.lists.t1| + |a.lists.b1|
            && |b.lists.t2| + |b.lists.b2| == |a.lists.t2| + |a.lists.b2|
  {
    var l := if |a.lists.t1| >= Max(a.target, 1) then T1 else T2;
    PurgeConserves(a, l);
    var d := PurgeLRU(a, l).value;
    AppendConserves(d.arc, d.slot, if l == T1 then B1 else B2);
  }

  // ---- operations keep the invariant ----

  lemma HeldSlot(a: Arc, n: Slot)
    requires Inv(a) && n < |a.slots|
    ensures Holder(a, n).Some? && n in a.lists.At(Holder(a, n).value)
  {
    assert Held(a.lists)[n] == 1;
  }

  /** The ratio is defined, and the target stays within the capacity. */
  lemma AdaptSafe(a: Arc, l: ListType)
    requires l == B1 || l == B2
    requires a.lists.At(l) != [] && 0 <= a.target <= a.size
    ensures Adapt(a, l).Some? && 0 <= Adapt(a, l).value <= a.size
    ensures l == B1 ==> Adapt(a, l).value == a.size || Adapt(a, l).value > a.target
    ensures l == B2 ==> Adapt(a, l).value == 0 || Adapt(a, l).value < a.target
  {
    var hit, other := |a.lists.At(l)|, |a.lists.At(if l == B1 then B2 else B1)|;
    var ratio := other / hit;
    assert Max(ratio, 1) >= 1;
  }

  lemma PromoteCached(a: Arc, n: Slot, l: ListType)
    requires Inv(a) && n in a.lists.At(l) && (l == T1 || l == T2)
    ensures Promote(a, n, l).Some? && Inv(Promote(a, n, l).value)
    ensures Promote(a, n, l).value.slots == a.slots
  {
    RemoveConserves(a, n, l);
    AppendConserves(RemoveEntry(a, n, l), n, T2);
  }

  lemma PromoteGhost(a: Arc, n: Slot, l: ListType)
    requires Inv(a) && n in a.lists.At(l) && (l == B1 || l == B2)
    ensures Promote(a, n, l).Some? && Inv(Promote(a, n, l).value)
    ensures Promote(a, n, l).value.slots == a.slots
  {
    AdaptSafe(a, l);
    var b := a.(target := Adapt(a, l).value);
    RemoveConserves(b, n, l);
    var r := RemoveEntry(b, n, l);
    ReplaceSafe(r);
    AppendConserves(Replace(r).value, n, T2);
  }

  lemma PromoteSafe(a: Arc, n: Slot, l: ListType)
    requires Inv(a) && n in a.lists.At(l)
    ensures Promote(a, n, l).Some? && Inv(Promote(a, n, l).value)
    ensures Promote(a, n, l).value.slots == a.slots
  {
    if l == T1 || l == T2 { PromoteCached(a, n, l); } else { PromoteGhost(a, n, l); }
  }

  lemma CheckSafe(a: Arc, key: Key)
    requires Inv(a)
    ensures Check(a, key).Some? && Inv(Check(a, key).value.arc)
    ensures Check(a, key).value.arc.slots == a.slots
  {
    if Find(a.slots, key).Some? {
      var n := Find(a.slots, key).value;
      HeldSlot(a, n);
      PromoteSafe(a, n, Holder(a, n).value);
    }
  }

  /** Where an addition's slot comes from: a fresh one, or the least recent of T1, B1 or B2. */
  ghost predicate Reused(a: Arc, n: Slot) {
    exists l :: l != T2 && a.lists.At(l) != [] && a.lists.At(l)[0] == n
  }

  /** What making room leaves: a detached slot, and lists with one place to fill in T1. */
  ghost predicate Roomy(a: Arc, d: Detached) {
    var b := d.arc;
    && b == a.(lists := b.lists, slots := b.slots)
    && |b.lists.t1| + |b.lists.b1| < a.size
    && |b.lists.t1| + |b.lists.t2| == Min(|b.slots|, a.size) - 1
    && |b.lists.t1| + |b.lists.t2| + |b.lists.b1| + |b.lists.b2| == |b.slots| - 1
    && |b.slots| <= 2 * a.size
    && d.slot < |b.slots|
    && (|| (d.slot == |a.slots| && b.slots == a.slots + [BLANK] && Held(b.lists) == Held(a.lists))
        || (Reused(a, d.slot) && b.slots == a.slots && |a.slots| >= a.size
            && Held(a.lists) == Held(b.lists) + multiset{d.slot}))
  }

  lemma PurgeReuses(a: Arc, l: ListType)
    requires Inv(a) && l != T2 && a.lists.At(l) != []
    ensures PurgeLRU(a, l).Some?
    ensures var d := PurgeLRU(a, l).value;
            && Reused(a, d.slot) && d.slot < |a.slots|
            && Held(a.lists) == Held(d.arc.lists) + multiset{d.slot}
  {
    PurgeConserves(a, l);
    SlotInRange(a, l);
  }

  lemma RoomFromRecency(a: Arc)
    requires Inv(a) && |a.lists.t1| + |a.lists.b1| == a.size
    ensures MakeRoom(a).Some? && Roomy(a, MakeRoom(a).value)
  {
    if |a.lists.t1| < a.size {
      PurgeReuses(a, B1);
      ReplaceSafe(PurgeLRU(a, B1).value.arc);
    } else {
      PurgeReuses(a, T1);
    }
  }

  lemma RoomFromGhosts(a: Arc)
    requires Inv(a) && |a.lists.t1| + |a.lists.b1| != a.size && |a.slots| == 2 * a.size
    ensures MakeRoom(a).Some? && Roomy(a, MakeRoom(a).value)
  {
    assert Doubled(a.size) == 2 * a.size && a.lists.b2 != [];
    PurgeReuses(a, B2);
    var d := PurgeLRU(a, B2).value;
    ReplaceSafe(d.arc);
    assert MakeRoom(a) == Some(Detached(d.slot, Replace(d.arc).value));
  }

  lemma RoomFromFresh(a: Arc)
    requires Inv(a) && |a.lists.t1| + |a.lists.b1| != a.size && |a.slots| < 2 * a.size
    ensures MakeRoom(a).Some? && Roomy(a, MakeRoom(a).value)
  {
    if |a.slots| >= a.size {
      ReplaceSafe(NewEntry(a).value.arc);
    }
  }

  lemma MakeRoomSafe(a: Arc)
    requires Inv(a)
    ensures MakeRoom(a).Some? && Roomy(a, MakeRoom(a).value)
  {
    if |a.lists.t1| + |a.lists.b1| == a.size {
      RoomFromRecency(a);
    } else if |a.slots| < 2 * a.size {
      RoomFromFresh(a);
    } else {
      RoomFromGhosts(a);
    }
  }

  lemma SlotInRange(a: Arc, l: ListType)
    requires Inv(a) && a.lists.At(l) != []
    ensures a.lists.At(l)[0] < |a.slots|
  {
    assert a.lists.At(l)[0] in a.lists.At(l);
    assert Held(a.lists)[a.lists.At(l)[0]] > 0;
  }

  /** Placing the detached slot completes the partition. */
  lemma PlacingPartitions(a: Arc, d: Detached, after: PerList<seq<Slot>>)
    requires Partitions(a.lists, |a.slots|) && Roomy(a, d)
    requires Held(after) == Held(d.arc.lists) + multiset{d.slot}
    ensures Partitions(after, |d.arc.slots|)
  {
    forall i: Slot ensures Held(after)[i] == if i < |d.arc.slots| then 1 else 0 {
      assert Held(a.lists)[i] == if i < |a.slots| then 1 else 0;
    }
  }

  lemma AddSafe(a: Arc, c: Content)
    requires Inv(a)
    ensures Add(a, c).Some? && Inv(Add(a, c).value)
  {
    MakeRoomSafe(a);
    var d := MakeRoom(a).value;
    var b := d.arc.(slots := d.arc.slots[d.slot := c]);
    AppendConserves(b, d.slot, T1);
    PlacingPartitions(a, d, AddMRU(b, d.slot, T1).lists);
  }

  // ---- runs ----

  datatype Op = CheckOp(key: Key) | AddOp(content: Content) | UpdateOp(content: Content)

  function Step(a: Arc, op: Op): Option<Arc> {
    match op
    case CheckOp(k) => var r :- Check(a, k); Some(r.arc)
    case AddOp(c) => Add(a, c)
    case UpdateOp(c) => Some(Update(a, c))
  }

  function Run(a: Arc, ops: seq<Op>): Option<Arc>
    decreases |ops|
  {
    if ops == [] then Some(a)
    else
      var b :- Step(a, ops[0]);
      Run(b, ops[1..])
  }

  lemma StepSafe(a: Arc, op: Op)
    requires Inv(a)
    ensures Step(a, op).Some? && Inv(Step(a, op).value)
  {
    match op
    case CheckOp(k) => CheckSafe(a, k);
    case AddOp(c) => AddSafe(a, c);
    case UpdateOp(c) =>
  }

  /** Safety of whole runs: no fault, and the invariant at the end. */
  lemma {:induction false} RunSafe(a: Arc, ops: seq<Op>)
    requires Inv(a)
    decreases |ops|
    ensures Run(a, ops).Some? && Inv(Run(a, ops).value)
  {
    if ops != [] {
      StepSafe(a, ops[0]);
      RunSafe(Step(a, ops[0]).value, ops[1..]);
    }
  }

  // ---- which capacities are safe ----

  ghost predicate FaultFree(size: nat) {
    forall ops :: Run(Init(size), ops).Some?
  }

  /** n additions to a cache that never fills. */
  function Adds(n: nat): seq<Op> {
    if n == 0 then [] else [AddOp(BLANK)] + Adds(n - 1)
  }

  /** From a cache whose slots are all in T1, enough additions exhaust the wrapped slot array. */
  lemma {:induction false} AddsFault(a: Arc)
    requires a.lists == PerList(a.lists.t1, [], [], []) && |a.lists.t1| == |a.slots|
    requires 0x8000_0000 <= a.size < 0x1_0000_0000
    requires |a.slots| <= Doubled(a.size)
    decreases Doubled(a.size) - |a.slots|
    ensures Run(a, Adds(Doubled(a.size) - |a.slots| + 1)).None?
  {
    var n := Doubled(a.size) - |a.slots|;
    assert Adds(n + 1)[1..] == Adds(n);
    if n > 0 {
      AddsFault(Add(a, BLANK).value);
    }
  }

  /**
   * Every run of a cache of the given 32-bit capacity is free of faults exactly when the capacity
   * is not zero and twice it fits in 32 bits.
   */
  lemma SafeCapacities(size: nat)
    requires size < 0x1_0000_0000
    ensures FaultFree(size) <==> 1 <= size < 0x8000_0000
  {
    if 1 <= size < 0x8000_0000 {
      assert Inv(Init(size));
      forall ops ensures Run(Init(size), ops).Some? { RunSafe(Init(size), ops); }
    } else if size == 0 {
      assert Run(Init(0), [AddOp(BLANK)]).None?;
    } else {
      AddsFault(Init(size));
    }
  }
}
