/**
 * The adaptive replacement cache of src/local_cache.c as a function on plain values: four
 * recency lists over one growing set of slots.  Each list runs from its least recently used slot
 * to its most recently used one.  `None` stands for the faults of the C code: using the result of
 * purging an empty list, using the slot that could not be allocated, dividing by zero.
 */
module ArcModel {
  import opened Common

  type Key = seq<Byte>
  type Slot = nat

  datatype ListType = T1 | T2 | B1 | B2

  /** One value for each list, as the arrays indexed by list type hold. */
  datatype PerList<T> = PerList(t1: T, t2: T, b1: T, b2: T) {
    function At(l: ListType): T {
      match l case T1 => t1 case T2 => t2 case B1 => b1 case B2 => b2
    }
    function With(l: ListType, v: T): PerList<T> {
      match l
      case T1 => this.(t1 := v)
      case T2 => this.(t2 := v)
      case B1 => this.(b1 := v)
      case B2 => this.(b2 := v)
    }
  }

  datatype Flags = Flags(sf: nat, ent: nat)
  datatype Content = Content(key: Key, flags: Flags)

  const BLANK := Content([], Flags(0, 0))

  datatype Arc = Arc(size: nat, target: int, lists: PerList<seq<Slot>>, slots: seq<Content>)

  function Max(a: int, b: int): int { if a > b then a else b }
  function Min(a: int, b: int): int { if a > b then b else a }

  /** Twice the capacity, as 32-bit unsigned arithmetic computes it. */
  function Doubled(size: nat): nat { (2 * size) % 0x1_0000_0000 }

  function Init(size: nat): Arc {
    Arc(size, size, PerList([], [], [], []), [])
  }

  // ---- lookup ----

  /**
   * Comparing the first |key| bytes of the stored key.  Lookups no longer than the stored keys are
   * meant: for a longer one the C code compares past the end of the stored key.
   */
  predicate Matches(stored: Key, key: Key) {
    |key| <= |stored| && stored[..|key|] == key
  }

  function FindFrom(slots: seq<Content>, key: Key, i: nat): (r: Option<Slot>)
    requires i <= |slots|
    decreases |slots| - i
    ensures r.Some? ==> i <= r.value < |slots| && Matches(slots[r.value].key, key)
                        && forall j :: i <= j < r.value ==> !Matches(slots[j].key, key)
    ensures r.None? ==> forall j :: i <= j < |slots| ==> !Matches(slots[j].key, key)
  {
    if i == |slots| then None
    else if Matches(slots[i].key, key) then Some(i)
    else FindFrom(slots, key, i + 1)
  }

  /** The lowest slot holding the key, in whichever list it is. */
  function Find(slots: seq<Content>, key: Key): (r: Option<Slot>)
    ensures r.Some? ==> r.value < |slots| && Matches(slots[r.value].key, key)
                        && forall j :: 0 <= j < r.value ==> !Matches(slots[j].key, key)
    ensures r.None? ==> forall j :: 0 <= j < |slots| ==> !Matches(slots[j].key, key)
  {
    FindFrom(slots, key, 0)
  }

  // ---- list surgery ----

  datatype Detached = Detached(slot: Slot, arc: Arc)

  function PurgeLRU(a: Arc, l: ListType): Option<Detached> {
    var s := a.lists.At(l);
    if s == [] then None else Some(Detached(s[0], a.(lists := a.lists.With(l, s[1..]))))
  }

  function AddMRU(a: Arc, n: Slot, l: ListType): Arc {
    a.(lists := a.lists.With(l, a.lists.At(l) + [n]))
  }

  function Without(s: seq<Slot>, n: Slot): (r: seq<Slot>)
    ensures n !in s ==> r == s
    ensures n in s ==> |r| == |s| - 1 && multiset(r) == multiset(s) - multiset{n}
  {
    if s == [] then []
    else
      assert s == [s[0]] + s[1..];
      if s[0] == n then s[1..] else [s[0]] + Without(s[1..], n)
  }

  function RemoveEntry(a: Arc, n: Slot, l: ListType): Arc {
    a.(lists := a.lists.With(l, Without(a.lists.At(l), n)))
  }

  function NewEntry(a: Arc): Option<Detached> {
    if |a.slots| < Doubled(a.size)
    then Some(Detached(|a.slots|, a.(slots := a.slots + [BLANK])))
    else None
  }

  /** Moves the least recent slot of T1 or T2 to the ghost list behind it. */
  function Replace(a: Arc): Option<Arc> {
    if |a.lists.t1| >= Max(a.target, 1) then
      var d :- PurgeLRU(a, T1);
      Some(AddMRU(d.arc, d.slot, B1))
    else
      var d :- PurgeLRU(a, T2);
      Some(AddMRU(d.arc, d.slot, B2))
  }

  // ---- operations ----

  function Holder(a: Arc, n: Slot): Option<ListType> {
    if n in a.lists.t1 then Some(T1)
    else if n in a.lists.t2 then Some(T2)
    else if n in a.lists.b1 then Some(B1)
    else if n in a.lists.b2 then Some(B2)
    else None
  }

  /** A hit in a ghost list moves the target towards that list's side. */
  function Adapt(a: Arc, l: ListType): Option<int>
    requires l == B1 || l == B2
  {
    var hit, other := |a.lists.At(l)|, |a.lists.At(if l == B1 then B2 else B1)|;
    if hit == 0 then None
    else if l == B1 then Some(Min(a.target + Max(other / hit, 1), a.size))
    else Some(Max(a.target - Max(other / hit, 1), 0))
  }

  function Promote(a: Arc, n: Slot, l: ListType): Option<Arc> {
    match l
    case T1 => Some(AddMRU(RemoveEntry(a, n, l), n, T2))
    case T2 => Some(AddMRU(RemoveEntry(a, n, l), n, T2))
    case _ =>
      var target :- Adapt(a, l);
      var b :- Replace(RemoveEntry(a.(target := target), n, l));
      Some(AddMRU(b, n, T2))
  }

  /** checkLocalEntry: the flags found, if any, and the cache after the hit. */
  datatype Checked = Checked(arc: Arc, found: Option<Flags>)

  function Check(a: Arc, key: Key): Option<Checked> {
    match Find(a.slots, key)
    case None => Some(Checked(a, None))
    case Some(n) =>
      var l :- Holder(a, n);
      var b :- Promote(a, n, l);
      Some(Checked(b, Some(a.slots[n].flags)))
  }

  /** The slot an addition will write, after making room for it. */
  function MakeRoom(a: Arc): Option<Detached> {
    if |a.lists.t1| + |a.lists.b1| == a.size then
      if |a.lists.t1| < a.size then
        var d :- PurgeLRU(a, B1);
        var b :- Replace(d.arc);
        Some(Detached(d.slot, b))
      else
        PurgeLRU(a, T1)
    else if |a.slots| >= a.size then
      var d :- if |a.slots| >= Doubled(a.size) then PurgeLRU(a, B2) else NewEntry(a);
      var b :- Replace(d.arc);
      Some(Detached(d.slot, b))
    else
      NewEntry(a)
  }

  function Add(a: Arc, c: Content): Option<Arc> {
    var d :- MakeRoom(a);
    if d.slot < |d.arc.slots|
    then Some(AddMRU(d.arc.(slots := d.arc.slots[d.slot := c]), d.slot, T1))
    else None
  }

  /** updateLocalEntry: overwrites the flags of the lowest matching slot. */
  function Update(a: Arc, c: Content): Arc {
    match Find(a.slots, c.key)
    case None => a
    case Some(n) => a.(slots := a.slots[n := a.slots[n].(flags := c.flags)])
  }
}
