/**
 * Where each operation of the cache leaves every slot, and what it makes of the target: the lists
 * after a hit, a replacement and an addition, written out.
 */
module ArcMoves {
  import opened Common
  import opened ArcModel
  import opened ArcRuns

  type Lists = PerList<seq<Slot>>

  /** Replacement takes from T1 when that is neither empty nor shorter than the target, else from T2. */
  predicate FromT1(lists: Lists, target: int) { |lists.t1| >= 1 && |lists.t1| >= target }

  /** The first slot of T1 becomes the last of B1, or the first of T2 the last of B2. */
  ghost function Demoted(lists: Lists, target: int): Lists
    requires FromT1(lists, target) || lists.t2 != []
  {
    if FromT1(lists, target) then lists.(t1 := lists.t1[1..], b1 := lists.b1 + [lists.t1[0]])
    else lists.(t2 := lists.t2[1..], b2 := lists.b2 + [lists.t2[0]])
  }

  /** By how much a ghost hit moves the target: how many times longer the other ghost list is, at least one. */
  ghost function Stride(hit: nat, other: nat): nat
    requires hit > 0
  {
    if other < 2 * hit then 1 else other / hit
  }

  /** A hit in B1 raises the target, up to the capacity; one in B2 lowers it, down to zero. */
  ghost function Retargeted(a: Arc, l: ListType): int
    requires l == B1 || l == B2
    requires a.lists.At(l) != []
  {
    var b1, b2 := |a.lists.b1|, |a.lists.b2|;
    if l == B1 then (if a.target + Stride(b1, b2) < a.size then a.target + Stride(b1, b2) else a.size)
    else if a.target > Stride(b2, b1) then a.target - Stride(b2, b1)
    else 0
  }

  lemma StrideIs(hit: nat, other: nat)
    requires hit > 0
    ensures Stride(hit, other) == Max(other / hit, 1)
  {
    if other < hit {
      assert other / hit == 0;
    } else if other < 2 * hit {
      assert other == hit * 1 + (other - hit) && 0 <= other - hit < hit;
      assert other / hit == 1;
    } else {
      assert (2 * hit) / hit == 2 && other / hit >= 2;
    }
  }

  lemma AdaptMoves(a: Arc, l: ListType)
    requires (l == B1 || l == B2) && a.lists.At(l) != []
    ensures Adapt(a, l) == Some(Retargeted(a, l))
  {
    StrideIs(|a.lists.At(l)|, |a.lists.At(if l == B1 then B2 else B1)|);
  }

  /** What replacement moves, in a cache that is full. */
  lemma ReplaceMoves(a: Arc)
    requires 1 <= a.size && a.target <= a.size && |a.lists.t1| + |a.lists.t2| == a.size
    ensures FromT1(a.lists, a.target) || a.lists.t2 != []
    ensures Replace(a) == Some(a.(lists := Demoted(a.lists, a.target)))
  {}

  lemma {:induction false} WithoutSplit(p: seq<Slot>, n: Slot, q: seq<Slot>)
    requires n !in p
    ensures Without(p + [n] + q, n) == p + q
  {
    var s := p + [n] + q;
    if p == [] {
      assert s[1..] == q && p + q == q;
    } else {
      assert s[1..] == p[1..] + [n] + q && p + q == [p[0]] + (p[1..] + q);
      WithoutSplit(p[1..], n, q);
    }
  }

  lemma OnceInList(a: Arc, l: ListType, p: seq<Slot>, n: Slot, q: seq<Slot>)
    requires Inv(a) && a.lists.At(l) == p + [n] + q
    ensures n !in p && Without(a.lists.At(l), n) == p + q
  {
    assert multiset(a.lists.At(l)) == multiset(p) + multiset{n} + multiset(q);
    assert Held(a.lists)[n] <= 1;
    WithoutSplit(p, n, q);
  }

  // ---- a hit ----

  /**
   * The cache after a hit on slot n of a list p + [n] + q: the slot is the last of T2.  A hit in a
   * ghost list also moves the target and then replaces once; all other slots stay as they are.
   */
  ghost function AfterHit(a: Arc, l: ListType, p: seq<Slot>, n: Slot, q: seq<Slot>): Arc
    requires Inv(a) && a.lists.At(l) == p + [n] + q
  {
    var lists := a.lists;
    match l
    case T1 => a.(lists := lists.(t1 := p + q, t2 := lists.t2 + [n]))
    case T2 => a.(lists := lists.(t2 := p + q + [n]))
    case B1 =>
      var target := Retargeted(a, l);
      if FromT1(lists, target)
      then a.(target := target, lists := PerList(lists.t1[1..], lists.t2 + [n], p + q + [lists.t1[0]], lists.b2))
      else a.(target := target, lists := PerList(lists.t1, lists.t2[1..] + [n], p + q, lists.b2 + [lists.t2[0]]))
    case B2 =>
      var target := Retargeted(a, l);
      if FromT1(lists, target)
      then a.(target := target, lists := PerList(lists.t1[1..], lists.t2 + [n], lists.b1 + [lists.t1[0]], p + q))
      else a.(target := target, lists := PerList(lists.t1, lists.t2[1..] + [n], lists.b1, p + q + [lists.t2[0]]))
  }

  lemma PromoteMoves(a: Arc, l: ListType, p: seq<Slot>, n: Slot, q: seq<Slot>)
    requires Inv(a) && a.lists.At(l) == p + [n] + q
    ensures Promote(a, n, l) == Some(AfterHit(a, l, p, n, q))
  {
    OnceInList(a, l, p, n, q);
    if l == B1 || l == B2 {
      AdaptSafe(a, l);
      AdaptMoves(a, l);
      var b := RemoveEntry(a.(target := Retargeted(a, l)), n, l);
      ReplaceMoves(b);
    }
  }

  /** A check that finds a key leaves every slot and the target so; one that misses changes nothing. */
  lemma CheckMoves(a: Arc, key: Key, l: ListType, p: seq<Slot>, n: Slot, q: seq<Slot>)
    requires Inv(a) && a.lists.At(l) == p + [n] + q
    ensures Find(a.slots, key) == Some(n) ==>
              Check(a, key) == Some(Checked(AfterHit(a, l, p, n, q), Some(a.slots[n].flags)))
    ensures Find(a.slots, key) == None ==> Check(a, key) == Some(Checked(a, None))
  {
    if Find(a.slots, key) == Some(n) {
      OneList(a, l, n);
      PromoteMoves(a, l, p, n, q);
    }
  }

  lemma OneList(a: Arc, l: ListType, n: Slot)
    requires Inv(a) && n in a.lists.At(l)
    ensures Holder(a, n) == Some(l)
  {
    assert Held(a.lists)[n] <= 1;
  }

  // ---- an addition ----

  /** The lists once room has been made, and the slot that is then free. */
  ghost function AfterRoom(a: Arc): (Lists, Slot)
    requires Inv(a)
  {
    var lists := a.lists;
    if |lists.t1| == a.size then (lists.(t1 := lists.t1[1..]), lists.t1[0])
    else if |lists.t1| + |lists.b1| == a.size then
      (Demoted(lists.(b1 := lists.b1[1..]), a.target), lists.b1[0])
    else if |a.slots| < a.size then (lists, |a.slots|)
    else if |a.slots| < 2 * a.size then (Demoted(lists, a.target), |a.slots|)
    else (Demoted(lists.(b2 := lists.b2[1..]), a.target), lists.b2[0])
  }

  lemma RoomMoves(a: Arc)
    requires Inv(a)
    ensures MakeRoom(a).Some?
    ensures MakeRoom(a).value.slot == AfterRoom(a).1 && MakeRoom(a).value.arc.lists == AfterRoom(a).0
  {
    MakeRoomSafe(a);
    if |a.lists.t1| + |a.lists.b1| == a.size {
      if |a.lists.t1| < a.size { ReplaceMoves(PurgeLRU(a, B1).value.arc); }
    } else if |a.slots| >= 2 * a.size {
      ReplaceMoves(PurgeLRU(a, B2).value.arc);
    } else if |a.slots| >= a.size {
      ReplaceMoves(a.(slots := a.slots + [BLANK]));
    }
  }

  /** An addition puts the slot last in T1 and moves nothing else than making room did. */
  lemma AddMoves(a: Arc, c: Content)
    requires Inv(a)
    ensures var (lists, n) := AfterRoom(a);
            && Add(a, c).Some?
            && var b := Add(a, c).value;
            && b == a.(lists := lists.(t1 := lists.t1 + [n]), slots := b.slots)
            && b.slots == if n < |a.slots| then a.slots[n := c] else a.slots + [c]
  {
    RoomMoves(a);
    MakeRoomSafe(a);
    if AfterRoom(a).1 == |a.slots| { assert (a.slots + [BLANK])[|a.slots| := c] == a.slots + [c]; }
  }

  // ---- an update ----

  /** An update rewrites the flags of the lowest slot that matches, and nothing else. */
  lemma UpdateMoves(a: Arc, c: Content)
    ensures var b := Update(a, c);
            && b == a.(slots := b.slots) && |b.slots| == |a.slots|
            && forall i :: 0 <= i < |a.slots| ==>
                 b.slots[i] == if Matches(a.slots[i].key, c.key) && !exists j :: 0 <= j < i && Matches(a.slots[j].key, c.key)
                               then Content(a.slots[i].key, c.flags) else a.slots[i]
  {}
}
