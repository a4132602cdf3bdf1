/**
 * src/local_cache.c in place: one array of slots linked into four doubly linked lists, with the
 * end pointers, list sizes and target updated step by step.  `lists` records, for the proof only,
 * the slots of each list from least to most recently used.
 */
module ArcCache {
  import opened Common
  import opened ArcModel
  import opened ArcRuns
  import ListSpec

  /** An entry pointer: NULL, or the index of a slot. */
  datatype Pointer = Null | To(slot: Slot)

  datatype Entry = Entry(next: Pointer, prev: Pointer, listtype: Option<ListType>, content: Content)

  const CLEARED := Entry(Null, Null, None, BLANK)

  // ---- well-formed chains ----

  /** The k-th slot of a chain points at its neighbours. */
  ghost predicate NodeAt(e: seq<Entry>, s: seq<Slot>, l: ListType, k: int)
    requires 0 <= k < |s|
  {
    && s[k] < |e|
    && e[s[k]].listtype == Some(l)
    && e[s[k]].prev == (if k == 0 then Null else To(s[k - 1]))
    && e[s[k]].next == (if k == |s| - 1 then Null else To(s[k + 1]))
  }

  ghost predicate Linked(e: seq<Entry>, s: seq<Slot>, l: ListType, lru: Pointer, mru: Pointer) {
    && lru == (if s == [] then Null else To(s[0]))
    && mru == (if s == [] then Null else To(s[|s| - 1]))
    && (forall k {:trigger NodeAt(e, s, l, k)} :: 0 <= k < |s| ==> NodeAt(e, s, l, k))
    && (forall j, k :: 0 <= j < k < |s| ==> s[j] != s[k])
  }

  /** Chains depend only on the slots that carry their list type. */
  lemma LinkedFrame(e: seq<Entry>, f: seq<Entry>, s: seq<Slot>, l: ListType, lru: Pointer, mru: Pointer)
    requires Linked(e, s, l, lru, mru) && |e| <= |f|
    requires forall i :: 0 <= i < |e| && e[i].listtype == Some(l) ==> f[i] == e[i]
    ensures Linked(f, s, l, lru, mru)
  {
    forall k | 0 <= k < |s| ensures NodeAt(f, s, l, k) { assert NodeAt(e, s, l, k); }
  }

  ghost predicate AllLinked(e: seq<Entry>, lists: PerList<seq<Slot>>, lru: PerList<Pointer>, mru: PerList<Pointer>) {
    forall l {:trigger Linked(e, lists.At(l), l, lru.At(l), mru.At(l))} ::
      Linked(e, lists.At(l), l, lru.At(l), mru.At(l))
  }

  /** Replacing one chain leaves the others linked when only its slots and free slots changed. */
  lemma Relink(e: seq<Entry>, f: seq<Entry>, lists: PerList<seq<Slot>>, lru: PerList<Pointer>, mru: PerList<Pointer>,
               l: ListType, t: seq<Slot>, p: Pointer, q: Pointer)
    requires AllLinked(e, lists, lru, mru) && |e| == |f|
    requires forall i :: 0 <= i < |e| && e[i] != f[i] ==> e[i].listtype.None? || e[i].listtype == Some(l)
    requires Linked(f, t, l, p, q)
    ensures AllLinked(f, lists.With(l, t), lru.With(l, p), mru.With(l, q))
  {
    forall m
      ensures Linked(f, lists.With(l, t).At(m), m, lru.With(l, p).At(m), mru.With(l, q).At(m))
    {
      if m != l {
        LinkedFrame(e, f, lists.At(m), m, lru.At(m), mru.At(m));
      }
    }
  }

  /** Every slot that carries a list type is in that list. */
  ghost predicate Listed(e: seq<Entry>, lists: PerList<seq<Slot>>) {
    forall i {:trigger ListedAt(e, lists, i)} :: 0 <= i < |e| ==> ListedAt(e, lists, i)
  }

  ghost predicate ListedAt(e: seq<Entry>, lists: PerList<seq<Slot>>, i: Slot)
    requires i < |e|
  {
    e[i].listtype.Some? ==> i in lists.At(e[i].listtype.value)
  }

  /** The entries after unlinking the first slot of a chain. */
  function DropFirst(e: seq<Entry>, n: Slot): (f: seq<Entry>)
    requires n < |e| && (e[n].next.To? ==> e[n].next.slot < |e|)
    ensures |f| == |e| && forall i :: 0 <= i < |e| ==> f[i].content == e[i].content
  {
    var d := if e[n].next.To? then e[e[n].next.slot := e[e[n].next.slot].(prev := Null)] else e;
    d[n := d[n].(prev := Null, next := Null, listtype := None)]
  }

  lemma FirstNode(e: seq<Entry>, s: seq<Slot>, l: ListType, lru: Pointer, mru: Pointer)
    requires Linked(e, s, l, lru, mru) && s != []
    ensures s[0] < |e| && e[s[0]].listtype == Some(l) && e[s[0]].prev == Null
    ensures |s| == 1 ==> e[s[0]].next == Null
    ensures |s| > 1 ==> e[s[0]].next == To(s[1]) && s[1] < |e| && s[1] != s[0]
  {
    assert NodeAt(e, s, l, 0);
    if |s| > 1 { assert NodeAt(e, s, l, 1); }
  }

  lemma DropFirstLinked(e: seq<Entry>, s: seq<Slot>, l: ListType, lru: Pointer, mru: Pointer)
    requires Linked(e, s, l, lru, mru) && s != [] && s[0] < |e|
    requires e[s[0]].next == if |s| == 1 then Null else To(s[1])
    requires |s| > 1 ==> s[1] < |e|
    ensures Linked(DropFirst(e, s[0]), s[1..], l, e[s[0]].next, if |s| > 1 then mru else Null)
  {
    var t, f := s[1..], DropFirst(e, s[0]);
    forall k | 0 <= k < |t| ensures NodeAt(f, t, l, k) {
      assert NodeAt(e, s, l, k + 1);
    }
  }

  /** The entries after linking a free slot behind the last one of a chain. */
  function PushLast(e: seq<Entry>, mru: Pointer, n: Slot, l: ListType): (f: seq<Entry>)
    requires n < |e| && (mru.To? ==> mru.slot < |e|)
    ensures |f| == |e| && forall i :: 0 <= i < |e| ==> f[i].content == e[i].content
  {
    var d := if mru.To? then e[mru.slot := e[mru.slot].(next := To(n))] else e;
    d[n := d[n].(prev := mru, next := Null, listtype := Some(l))]
  }

  lemma LastNode(e: seq<Entry>, s: seq<Slot>, l: ListType, lru: Pointer, mru: Pointer)
    requires Linked(e, s, l, lru, mru) && s != []
    ensures mru == To(s[|s| - 1]) && mru.slot < |e| && e[mru.slot].listtype == Some(l)
  {
    assert NodeAt(e, s, l, |s| - 1);
  }

  lemma PushLastLinked(e: seq<Entry>, s: seq<Slot>, l: ListType, lru: Pointer, mru: Pointer, n: Slot)
    requires Linked(e, s, l, lru, mru) && n < |e| && e[n].listtype == None
    requires mru.To? ==> mru.slot < |e| && e[mru.slot].listtype == Some(l)
    ensures Linked(PushLast(e, mru, n, l), s + [n], l, if s == [] then To(n) else lru, To(n))
  {
    var t, f := s + [n], PushLast(e, mru, n, l);
    forall k | 0 <= k < |t| ensures NodeAt(f, t, l, k) {
      if k < |s| { assert NodeAt(e, s, l, k); }
    }
    forall j | 0 <= j < |s| ensures s[j] != n { assert NodeAt(e, s, l, j); }
  }

  lemma HasFirst(e: seq<Entry>, lists: PerList<seq<Slot>>, lru: PerList<Pointer>, mru: PerList<Pointer>, l: ListType)
    requires AllLinked(e, lists, lru, mru) && lru.At(l) != Null
    ensures lists.At(l) != []
  {
    assert Linked(e, lists.At(l), l, lru.At(l), mru.At(l));
  }

  lemma DropFirstChained(e: seq<Entry>, lists: PerList<seq<Slot>>, lru: PerList<Pointer>, mru: PerList<Pointer>, l: ListType)
    requires AllLinked(e, lists, lru, mru) && Listed(e, lists) && lists.At(l) != []
    ensures var s := lists.At(l); var n := s[0];
            && lru.At(l) == To(n) && n < |e| && e[n].listtype == Some(l)
            && (e[n].next.To? ==> e[n].next.slot < |e| && e[n].next.slot != n)
            && AllLinked(DropFirst(e, n), lists.With(l, s[1..]), lru.With(l, e[n].next),
                         mru.With(l, if e[n].next.To? then mru.At(l) else Null))
            && Listed(DropFirst(e, n), lists.With(l, s[1..]))
  {
    var s := lists.At(l);
    var n := s[0];
    assert Linked(e, s, l, lru.At(l), mru.At(l));
    FirstNode(e, s, l, lru.At(l), mru.At(l));
    DropFirstLinked(e, s, l, lru.At(l), mru.At(l));
    if |s| > 1 { assert NodeAt(e, s, l, 1); }
    var f := DropFirst(e, n);
    Relink(e, f, lists, lru, mru, l, s[1..], e[n].next, if |s| > 1 then mru.At(l) else Null);
    forall i | 0 <= i < |f| ensures ListedAt(f, lists.With(l, s[1..]), i) {
      assert ListedAt(e, lists, i);
    }
  }

  lemma PushLastChained(e: seq<Entry>, lists: PerList<seq<Slot>>, lru: PerList<Pointer>, mru: PerList<Pointer>,
                      l: ListType, n: Slot)
    requires AllLinked(e, lists, lru, mru) && Listed(e, lists) && n < |e| && e[n].listtype == None
    ensures var s := lists.At(l); var m := mru.At(l);
            && (m.To? ==> m.slot < |e| && m.slot != n)
            && AllLinked(PushLast(e, m, n, l), lists.With(l, s + [n]),
                         lru.With(l, if m.To? then lru.At(l) else To(n)), mru.With(l, To(n)))
            && Listed(PushLast(e, m, n, l), lists.With(l, s + [n]))
  {
    var s, m := lists.At(l), mru.At(l);
    assert Linked(e, s, l, lru.At(l), m);
    if s != [] { LastNode(e, s, l, lru.At(l), m); }
    PushLastLinked(e, s, l, lru.At(l), m, n);
    var f := PushLast(e, m, n, l);
    Relink(e, f, lists, lru, mru, l, s + [n], if m.To? then lru.At(l) else To(n), To(n));
    forall i | 0 <= i < |f| ensures ListedAt(f, lists.With(l, s + [n]), i) {
      assert ListedAt(e, lists, i);
    }
  }

  // ---- unlinking a slot wherever it is in its chain ----

  ghost predicate Neighbours(e: seq<Entry>, n: Slot) {
    && n < |e|
    && (e[n].next.To? ==> e[n].next.slot < |e| && e[n].next.slot != n)
    && (e[n].prev.To? ==> e[n].prev.slot < |e| && e[n].prev.slot != n)
  }

  /** The entries after joining a slot's neighbours and clearing its own links. */
  ghost function Unlink(e: seq<Entry>, n: Slot): (f: seq<Entry>)
    requires Neighbours(e, n)
    ensures |f| == |e| && forall i :: 0 <= i < |e| ==> f[i].content == e[i].content
  {
    var c := if e[n].next.To? then e[e[n].next.slot := e[e[n].next.slot].(prev := e[n].prev)] else e;
    var d := if e[n].prev.To? then c[e[n].prev.slot := c[e[n].prev.slot].(next := e[n].next)] else c;
    d[n := d[n].(prev := Null, next := Null, listtype := None)]
  }

  lemma Associate(x: seq<Slot>, y: seq<Slot>, z: seq<Slot>)
    ensures x + (y + z) == (x + y) + z
  {}

  lemma {:induction false} WithoutAt(s: seq<Slot>, i: nat)
    requires i < |s| && s[i] !in s[..i]
    ensures Without(s, s[i]) == s[..i] + s[i + 1..]
  {
    if i > 0 {
      var t := s[1..];
      assert s[..i] == [s[0]] + s[1..i];
      assert t[..i - 1] == s[1..i] && t[i..] == s[i + 1..] && t[i - 1] == s[i];
      WithoutAt(t, i - 1);
      Associate([s[0]], s[1..i], s[i + 1..]);
    }
  }

  lemma ChainNeighbours(e: seq<Entry>, s: seq<Slot>, l: ListType, lru: Pointer, mru: Pointer, i: nat)
    requires Linked(e, s, l, lru, mru) && i < |s|
    ensures Neighbours(e, s[i]) && NodeAt(e, s, l, i)
    ensures e[s[i]].prev.To? ==> e[e[s[i]].prev.slot].listtype == Some(l)
    ensures e[s[i]].next.To? ==> e[e[s[i]].next.slot].listtype == Some(l)
  {
    assert NodeAt(e, s, l, i);
    if i > 0 { assert NodeAt(e, s, l, i - 1); }
    if i + 1 < |s| { assert NodeAt(e, s, l, i + 1); }
  }

  lemma UnlinkLinked(e: seq<Entry>, s: seq<Slot>, l: ListType, lru: Pointer, mru: Pointer, i: nat)
    requires Linked(e, s, l, lru, mru) && i < |s| && Neighbours(e, s[i]) && NodeAt(e, s, l, i)
    ensures var n := s[i];
            Linked(Unlink(e, n), s[..i] + s[i + 1..], l,
                   if e[n].prev.To? then lru else e[n].next, if e[n].next.To? then mru else e[n].prev)
  {
    var t, f := s[..i] + s[i + 1..], Unlink(e, s[i]);
    forall k | 0 <= k < |t| ensures NodeAt(f, t, l, k) {
      assert NodeAt(e, s, l, if k < i then k else k + 1);
    }
  }

  lemma UnlinkListed(e: seq<Entry>, lists: PerList<seq<Slot>>, l: ListType, n: Slot, i: nat)
    requires Neighbours(e, n) && Listed(e, lists) && i < |lists.At(l)| && lists.At(l)[i] == n
    requires e[n].listtype == Some(l)
    ensures Listed(Unlink(e, n), lists.With(l, lists.At(l)[..i] + lists.At(l)[i + 1..]))
  {
    var s := lists.At(l);
    var f, after := Unlink(e, n), lists.With(l, s[..i] + s[i + 1..]);
    forall j | 0 <= j < |e| ensures ListedAt(f, after, j) {
      assert ListedAt(e, lists, j);
      if j != n && e[j].listtype == Some(l) {
        var k :| 0 <= k < |s| && s[k] == j;
        assert (s[..i] + s[i + 1..])[if k < i then k else k - 1] == j;
      }
    }
  }

  lemma UnlinkTouches(e: seq<Entry>, n: Slot, l: ListType)
    requires Neighbours(e, n) && e[n].listtype == Some(l)
    requires e[n].prev.To? ==> e[e[n].prev.slot].listtype == Some(l)
    requires e[n].next.To? ==> e[e[n].next.slot].listtype == Some(l)
    ensures forall i :: 0 <= i < |e| && e[i] != Unlink(e, n)[i] ==> e[i].listtype == Some(l)
  {}

  lemma UnlinkAt(e: seq<Entry>, lists: PerList<seq<Slot>>, lru: PerList<Pointer>, mru: PerList<Pointer>, l: ListType, i: nat)
    requires AllLinked(e, lists, lru, mru) && i < |lists.At(l)|
    ensures var s := lists.At(l); var n := s[i];
            && Neighbours(e, n) && e[n].listtype == Some(l)
            && (e[n].prev == Null ==> i == 0)
            && AllLinked(Unlink(e, n), lists.With(l, s[..i] + s[i + 1..]),
                         lru.With(l, if e[n].prev.To? then lru.At(l) else e[n].next),
                         mru.With(l, if e[n].next.To? then mru.At(l) else e[n].prev))
  {
    var s, p, q := lists.At(l), lru.At(l), mru.At(l);
    var n := s[i];
    assert Linked(e, s, l, p, q);
    ChainNeighbours(e, s, l, p, q, i);
    UnlinkLinked(e, s, l, p, q, i);
    UnlinkTouches(e, n, l);
    Relink(e, Unlink(e, n), lists, lru, mru, l, s[..i] + s[i + 1..],
           if e[n].prev.To? then p else e[n].next, if e[n].next.To? then q else e[n].prev);
  }

  lemma UnlinkChained(e: seq<Entry>, lists: PerList<seq<Slot>>, lru: PerList<Pointer>, mru: PerList<Pointer>,
                      l: ListType, n: Slot)
    requires AllLinked(e, lists, lru, mru) && Listed(e, lists) && n in lists.At(l)
    ensures Neighbours(e, n)
    ensures AllLinked(Unlink(e, n), lists.With(l, Without(lists.At(l), n)),
                      lru.With(l, if e[n].prev.To? then lru.At(l) else e[n].next),
                      mru.With(l, if e[n].next.To? then mru.At(l) else e[n].prev))
    ensures Listed(Unlink(e, n), lists.With(l, Without(lists.At(l), n)))
    ensures e[n].prev == Null ==> lists.At(l)[0] == n
  {
    var s := lists.At(l);
    var i :| 0 <= i < |s| && s[i] == n;
    UnlinkAt(e, lists, lru, mru, l, i);
    UnlinkListed(e, lists, l, n, i);
    assert Linked(e, s, l, lru.At(l), mru.At(l));
    WithoutAt(s, i);
  }

  lemma GrowChained(e: seq<Entry>, lists: PerList<seq<Slot>>, lru: PerList<Pointer>, mru: PerList<Pointer>)
    requires AllLinked(e, lists, lru, mru) && Listed(e, lists)
    ensures AllLinked(e + [CLEARED], lists, lru, mru) && Listed(e + [CLEARED], lists)
    ensures ContentsOf(e + [CLEARED]) == ContentsOf(e) + [BLANK]
  {
    forall l ensures Linked(e + [CLEARED], lists.At(l), l, lru.At(l), mru.At(l)) {
      LinkedFrame(e, e + [CLEARED], lists.At(l), l, lru.At(l), mru.At(l));
    }
    forall i | 0 <= i < |e| ensures ListedAt(e + [CLEARED], lists, i) {
      assert ListedAt(e, lists, i);
    }
  }

  /** Writing keys and flags does not touch the chains. */
  lemma RewriteChained(e: seq<Entry>, f: seq<Entry>, lists: PerList<seq<Slot>>, lru: PerList<Pointer>, mru: PerList<Pointer>)
    requires AllLinked(e, lists, lru, mru) && Listed(e, lists) && |e| == |f|
    requires forall i :: 0 <= i < |e| ==> f[i] == e[i].(content := f[i].content)
    ensures AllLinked(f, lists, lru, mru) && Listed(f, lists)
  {
    forall l ensures Linked(f, lists.At(l), l, lru.At(l), mru.At(l)) {
      assert Linked(e, lists.At(l), l, lru.At(l), mru.At(l));
      forall k | 0 <= k < |lists.At(l)| ensures NodeAt(f, lists.At(l), l, k) {
        assert NodeAt(e, lists.At(l), l, k);
      }
    }
    forall i | 0 <= i < |e| ensures ListedAt(f, lists, i) {
      assert ListedAt(e, lists, i);
    }
  }

  /** The pointer to the last entry that satisfies the test, or NULL when there is none. */
  ghost predicate Last(e: seq<Entry>, p: Pointer, test: Entry -> bool) {
    && (p.To? ==> p.slot < |e| && test(e[p.slot]))
    && (forall i :: 0 <= i < |e| && (p.To? ==> p.slot < i) ==> !test(e[i]))
  }

  /** In well-formed chains a list without an end pointer has no slots to search for. */
  lemma NoStrays(e: seq<Entry>, lists: PerList<seq<Slot>>, lru: PerList<Pointer>, mru: PerList<Pointer>, l: ListType)
    requires AllLinked(e, lists, lru, mru) && Listed(e, lists)
    requires lru.At(l) == Null || mru.At(l) == Null
    ensures lists.At(l) == [] && forall i :: 0 <= i < |e| ==> e[i].listtype != Some(l)
  {
    assert Linked(e, lists.At(l), l, lru.At(l), mru.At(l));
    forall i | 0 <= i < |e| ensures e[i].listtype != Some(l) { assert ListedAt(e, lists, i); }
  }

  ghost function ContentsOf(e: seq<Entry>): (c: seq<Content>)
    ensures |c| == |e| && forall i :: 0 <= i < |e| ==> c[i] == e[i].content
  {
    seq(|e|, i requires 0 <= i < |e| => e[i].content)
  }

  class Cache {
    const size: nat
    const entrylist: array<Entry>
    var entries: nat
    var target: int
    var listSize: PerList<int>
    var lru: PerList<Pointer>
    var mru: PerList<Pointer>
    ghost var lists: PerList<seq<Slot>>

    /** The four chains are well formed and hold every slot that carries a list type. */
    ghost predicate Chained()
      reads this, entrylist
    {
      && entries <= entrylist.Length == Doubled(size)
      && AllLinked(entrylist[..entries], lists, lru, mru)
      && Listed(entrylist[..entries], lists)
    }

    ghost function Contents(): seq<Content>
      reads this, entrylist
      requires entries <= entrylist.Length
    {
      ContentsOf(entrylist[..entries])
    }

    /** The abstract cache this object stands for. */
    ghost function View(): Arc
      reads this, entrylist
      requires entries <= entrylist.Length
    {
      Arc(size, target, lists, Contents())
    }

    ghost predicate Sized()
      reads this
    {
      listSize == PerList(|lists.t1|, |lists.t2|, |lists.b1|, |lists.b2|)
    }

    ghost predicate Valid()
      reads this, entrylist
    {
      Chained() && Sized() && Inv(View())
    }

    constructor (size: nat)
      requires 1 <= size < 0x8000_0000
      ensures Valid() && fresh(entrylist)
      ensures View() == Init(size)
    {
      this.size := size;
      entrylist := new Entry[Doubled(size)](_ => CLEARED);
      entries := 0;
      target := size;
      listSize := PerList(0, 0, 0, 0);
      lru := PerList(Null, Null, Null, Null);
      mru := PerList(Null, Null, Null, Null);
      lists := PerList([], [], [], []);
    }

    method FindEntry(key: Key) returns (hit: Pointer)
      requires entries <= entrylist.Length
      ensures hit == match Find(Contents(), key) case None => Null case Some(n) => To(n)
    {
      var i := 0;
      while i < entries
        invariant 0 <= i <= entries
        invariant forall j :: 0 <= j < i ==> !Matches(entrylist[j].content.key, key)
      {
        if Matches(entrylist[i].content.key, key) {
          assert Contents()[i] == entrylist[i].content;
          return To(i);
        }
        i := i + 1;
      }
      return Null;
    }

    /** A missing end pointer is searched for: the last slot of the list with no predecessor. */
    method FindLRU(l: ListType) returns (p: Pointer)
      requires entries <= entrylist.Length
      modifies this`lru
      ensures lru == old(lru).With(l, p)
      ensures old(lru.At(l)) != Null ==> p == old(lru.At(l))
      ensures old(lru.At(l)) == Null ==>
                Last(entrylist[..entries], p, (e: Entry) => e.prev == Null && e.listtype == Some(l))
    {
      if lru.At(l) == Null {
        var i := 0;
        while i < entries
          invariant 0 <= i <= entries
          invariant lru == old(lru).With(l, lru.At(l))
          invariant Last(entrylist[..i], lru.At(l), (e: Entry) => e.prev == Null && e.listtype == Some(l))
        {
          if entrylist[i].prev == Null && entrylist[i].listtype == Some(l) {
            lru := lru.With(l, To(i));
          }
          i := i + 1;
        }
      }
      return lru.At(l);
    }

    /** Likewise the last slot of the list with no successor. */
    method FindMRU(l: ListType) returns (p: Pointer)
      requires entries <= entrylist.Length
      modifies this`mru
      ensures mru == old(mru).With(l, p)
      ensures old(mru.At(l)) != Null ==> p == old(mru.At(l))
      ensures old(mru.At(l)) == Null ==>
                Last(entrylist[..entries], p, (e: Entry) => e.next == Null && e.listtype == Some(l))
    {
      if mru.At(l) == Null {
        var i := 0;
        while i < entries
          invariant 0 <= i <= entries
          invariant mru == old(mru).With(l, mru.At(l))
          invariant Last(entrylist[..i], mru.At(l), (e: Entry) => e.next == Null && e.listtype == Some(l))
        {
          if entrylist[i].next == Null && entrylist[i].listtype == Some(l) {
            mru := mru.With(l, To(i));
          }
          i := i + 1;
        }
      }
      return mru.At(l);
    }

    /** Slots in no list stay in no list, but for the one that is being placed. */
    twostate predicate KeepsFree(placed: set<Slot>)
      reads this, entrylist
    {
      && old(entries) <= entries <= entrylist.Length
      && (forall i :: 0 <= i < old(entries) && i !in placed && old(entrylist[i].listtype).None? ==>
            entrylist[i].listtype.None?)
    }

    method PurgeLRU(l: ListType) returns (p: Pointer)
      requires Chained()
      modifies this`lru, this`mru, this`lists, entrylist
      ensures Chained() && KeepsFree({})
      ensures match ArcModel.PurgeLRU(old(View()), l)
              case None => p == Null && View() == old(View())
              case Some(d) =>
                && p == To(d.slot) && View() == d.arc && d.slot < entries
                && old(entrylist[d.slot].listtype) == Some(l)
                && entrylist[d.slot] == Entry(Null, Null, None, old(entrylist[d.slot]).content)
    {
      ghost var e, s := entrylist[..entries], lists.At(l);
      if lru.At(l) == Null { NoStrays(e, lists, lru, mru, l); }
      p := FindLRU(l);
      assert p == old(lru.At(l)) && lru == old(lru);
      if p == Null { return; }
      HasFirst(e, lists, lru, mru, l);
      DropFirstChained(e, lists, lru, mru, l);
      var n := p.slot;
      if entrylist[n].next != Null {
        var m := entrylist[n].next.slot;
        entrylist[m] := entrylist[m].(prev := Null);
        lru := lru.With(l, To(m));
      } else {
        lru := lru.With(l, Null);
        mru := mru.With(l, Null);
      }
      entrylist[n] := entrylist[n].(prev := Null, next := Null, listtype := None);
      lists := lists.With(l, s[1..]);
      assert entrylist[..entries] == DropFirst(e, n);
      assert Contents() == old(Contents());
    }

    method AddMRU(n: Slot, l: ListType)
      requires Chained() && n < entries && entrylist[n].listtype == None
      modifies this`lru, this`mru, this`lists, entrylist
      ensures Chained() && KeepsFree({n})
      ensures View() == ArcModel.AddMRU(old(View()), n, l)
    {
      ghost var e := entrylist[..entries];
      if mru.At(l) == Null { NoStrays(e, lists, lru, mru, l); }
      var m := FindMRU(l);
      assert m == old(mru.At(l)) && mru == old(mru);
      PushLastChained(e, lists, lru, mru, l, n);
      if m != Null {
        entrylist[m.slot] := entrylist[m.slot].(next := To(n));
        entrylist[n] := entrylist[n].(prev := m, next := Null);
      } else {
        lru := lru.With(l, To(n));
        entrylist[n] := entrylist[n].(prev := Null, next := Null);
      }
      mru := mru.With(l, To(n));
      entrylist[n] := entrylist[n].(listtype := Some(l));
      lists := lists.With(l, lists.At(l) + [n]);
      ghost var f := PushLast(e, m, n, l);
      assert entrylist[..entries] == f;
      assert lru == old(lru).With(l, if m.To? then old(lru).At(l) else To(n));
      assert ContentsOf(f) == ContentsOf(e);
    }

    method RemoveEntry(n: Slot)
      requires Chained() && n < entries && entrylist[n].listtype.Some?
      modifies this`lru, this`mru, this`lists, entrylist
      ensures Chained() && entrylist[n].listtype == None
      ensures View() == ArcModel.RemoveEntry(old(View()), n, old(entrylist[n].listtype.value))
    {
      var l := entrylist[n].listtype.value;
      ghost var e, s := entrylist[..entries], lists.At(l);
      assert ListedAt(e, lists, n);
      UnlinkChained(e, lists, lru, mru, l, n);
      var next, prev := entrylist[n].next, entrylist[n].prev;
      if next != Null {
        if prev != Null {
          entrylist[next.slot] := entrylist[next.slot].(prev := prev);
          entrylist[prev.slot] := entrylist[prev.slot].(next := next);
        } else {
          var _ := PurgeLRU(l);
        }
      } else if prev != Null {
        entrylist[prev.slot] := entrylist[prev.slot].(next := Null);
        mru := mru.With(l, prev);
      } else {
        mru := mru.With(l, Null);
        lru := lru.With(l, Null);
      }
      ghost var f := entrylist[..entries];
      entrylist[n] := entrylist[n].(listtype := None, prev := Null, next := Null);
      if next == Null || prev != Null {
        lists := lists.With(l, Without(s, n));
        assert entrylist[..entries] == Unlink(e, n);
        assert lru == old(lru).With(l, if prev.To? then old(lru).At(l) else next);
        assert mru == old(mru).With(l, if next.To? then old(mru).At(l) else prev);
        assert ContentsOf(Unlink(e, n)) == ContentsOf(e);
      } else {
        assert entrylist[..entries] == f;
      }
    }

    method GetNewEntry() returns (p: Pointer)
      requires Chained()
      modifies this`entries, entrylist
      ensures Chained() && KeepsFree({})
      ensures match NewEntry(old(View()))
              case None => p == Null && View() == old(View())
              case Some(d) =>
                && p == To(d.slot) && View() == d.arc && d.slot < entries
                && entrylist[d.slot].listtype == None
    {
      if entries >= Doubled(size) { return Null; }
      ghost var e := entrylist[..entries];
      entrylist[entries] := CLEARED;
      entries := entries + 1;
      assert entrylist[..entries] == e + [CLEARED];
      GrowChained(e, lists, lru, mru);
      return To(entries - 1);
    }

    method Replace()
      requires Chained() && Sized() && ArcModel.Replace(View()).Some?
      modifies this`lru, this`mru, this`lists, this`listSize, entrylist
      ensures Chained() && Sized() && KeepsFree({})
      ensures View() == ArcModel.Replace(old(View())).value
    {
      if listSize.t1 >= Max(target, 1) {
        var moved := PurgeLRU(T1);
        AddMRU(moved.slot, B1);
        listSize := listSize.(t1 := listSize.t1 - 1);
        listSize := listSize.(b1 := listSize.b1 + 1);
      } else {
        var moved := PurgeLRU(T2);
        AddMRU(moved.slot, B2);
        listSize := listSize.(t2 := listSize.t2 - 1);
        listSize := listSize.(b2 := listSize.b2 + 1);
      }
    }

    /** Chooses the slot an addition will use, evicting to make room for it. */
    method MakeRoom() returns (p: Pointer)
      requires Chained() && Sized() && ArcModel.MakeRoom(View()).Some?
      modifies this, entrylist
      ensures Chained() && Sized()
      ensures p.To? && ArcModel.MakeRoom(old(View())) == Some(Detached(p.slot, View()))
      ensures p.slot < entries && entrylist[p.slot].listtype == None
    {
      if listSize.t1 + listSize.b1 == size {
        if listSize.t1 < size {
          p := PurgeLRU(B1);
          listSize := listSize.(b1 := listSize.b1 - 1);
          Replace();
        } else {
          p := PurgeLRU(T1);
          listSize := listSize.(t1 := listSize.t1 - 1);
        }
      } else if entries >= size {
        if entries >= Doubled(size) {
          p := PurgeLRU(B2);
          listSize := listSize.(b2 := listSize.b2 - 1);
        } else {
          p := GetNewEntry();
        }
        Replace();
      } else {
        p := GetNewEntry();
      }
    }

    method AddLocalEntry(c: Content)
      requires Valid()
      modifies this, entrylist
      ensures Valid() && Some(View()) == Add(old(View()), c)
    {
      AddSafe(View(), c);
      var p := MakeRoom();
      AddMRU(p.slot, T1);
      listSize := listSize.(t1 := listSize.t1 + 1);
      ghost var e := entrylist[..entries];
      entrylist[p.slot] := entrylist[p.slot].(content := c);
      RewriteChained(e, entrylist[..entries], lists, lru, mru);
      assert Contents() == ContentsOf(e)[p.slot := c];
    }

    method UpdateLocalEntry(c: Content) returns (found: bool)
      requires Valid()
      modifies entrylist
      ensures Valid() && View() == Update(old(View()), c)
      ensures found <==> Find(old(View()).slots, c.key).Some?
    {
      var hit := FindEntry(c.key);
      if hit == Null { return false; }
      ghost var e := entrylist[..entries];
      entrylist[hit.slot] := entrylist[hit.slot].(content := entrylist[hit.slot].content.(flags := c.flags));
      RewriteChained(e, entrylist[..entries], lists, lru, mru);
      assert Contents() == ContentsOf(e)[hit.slot := ContentsOf(e)[hit.slot].(flags := c.flags)];
      return true;
    }

    method CheckLocalEntry(key: Key) returns (found: Option<Flags>)
      requires Valid()
      modifies this, entrylist
      ensures Valid() && Some(Checked(View(), found)) == Check(old(View()), key)
    {
      ghost var a := View();
      CheckSafe(a, key);
      var hit := FindEntry(key);
      if hit == Null { return None; }
      HeldSlot(a, hit.slot);
      ListtypeIsHolder(hit.slot);
      Promote(hit.slot);
      assert Contents()[hit.slot] == a.slots[hit.slot];
      return Some(entrylist[hit.slot].content.flags);
    }

    /** The work of a hit: the slot becomes the most recent one of T2. */
    method Promote(n: Slot)
      requires Chained() && Sized() && n < entries && entrylist[n].listtype.Some?
      requires ArcModel.Promote(View(), n, entrylist[n].listtype.value).Some?
      modifies this, entrylist
      ensures Chained() && Sized()
      ensures ArcModel.Promote(old(View()), n, old(entrylist[n].listtype.value)) == Some(View())
    {
      assert ListedAt(entrylist[..entries], lists, n);
      match entrylist[n].listtype.value
      case T1 =>
        listSize := listSize.(t1 := listSize.t1 - 1);
        listSize := listSize.(t2 := listSize.t2 + 1);
        RemoveEntry(n);
        AddMRU(n, T2);
      case T2 =>
        RemoveEntry(n);
        AddMRU(n, T2);
      case _ =>
        PromoteGhost(n);
    }

    /** A ghost hit also moves the target and makes room for the slot. */
    method PromoteGhost(n: Slot)
      requires Chained() && Sized() && n < entries && entrylist[n].listtype in {Some(B1), Some(B2)}
      requires ArcModel.Promote(View(), n, entrylist[n].listtype.value).Some?
      modifies this, entrylist
      ensures Chained() && Sized()
      ensures ArcModel.Promote(old(View()), n, old(entrylist[n].listtype.value)) == Some(View())
    {
      ghost var a, l := View(), entrylist[n].listtype.value;
      assert ListedAt(entrylist[..entries], lists, n);
      AdaptTarget(entrylist[n].listtype.value);
      assert View() == a.(target := Adapt(a, l).value);
      RemoveEntry(n);
      Replace();
      listSize := listSize.(t2 := listSize.t2 + 1);
      AddMRU(n, T2);
    }

    /** Moves the target towards the side of the ghost list that was hit, which is about to shrink. */
    method AdaptTarget(l: ListType)
      requires entries <= entrylist.Length && Sized() && (l == B1 || l == B2) && lists.At(l) != []
      modifies this`target, this`listSize
      ensures Adapt(old(View()), l) == Some(target)
      ensures listSize == old(listSize).With(l, old(listSize).At(l) - 1)
    {
      if l == B1 {
        target := Min(target + Max(listSize.b2 / listSize.b1, 1), size);
        listSize := listSize.(b1 := listSize.b1 - 1);
      } else {
        target := Max(target - Max(listSize.b1 / listSize.b2, 1), 0);
        listSize := listSize.(b2 := listSize.b2 - 1);
      }
    }

    lemma ListtypeIsHolder(n: Slot)
      requires Valid() && n < entries && Holder(View(), n).Some?
      ensures entrylist[n].listtype == Holder(View(), n)
    {
      var l := Holder(View(), n).value;
      var s := lists.At(l);
      assert Linked(entrylist[..entries], s, l, lru.At(l), mru.At(l));
      var k :| 0 <= k < |s| && s[k] == n;
      assert NodeAt(entrylist[..entries], s, l, k);
    }
  }

  /** A whole run on one object ends in the state of the same run on values, free of faults. */
  method Replay(size: nat, ops: seq<Op>) returns (cache: Cache)
    requires 1 <= size < 0x8000_0000
    ensures fresh(cache) && cache.Valid() && Run(Init(size), ops) == Some(cache.View())
  {
    cache := new Cache(size);
    ListSpec.FromIsDrop(ops, 0);
    var i := 0;
    while i < |ops|
      invariant 0 <= i <= |ops| && fresh(cache) && fresh(cache.entrylist) && cache.Valid()
      invariant Run(Init(size), ops) == Run(cache.View(), ListSpec.From(ops, i))
    {
      assert ListSpec.From(ops, i)[0] == ops[i] && ListSpec.From(ops, i)[1..] == ListSpec.From(ops, i + 1);
      match ops[i] {
        case CheckOp(key) => var _ := cache.CheckLocalEntry(key);
        case AddOp(c) => cache.AddLocalEntry(c);
        case UpdateOp(c) => var _ := cache.UpdateLocalEntry(c);
      }
      i := i + 1;
    }
  }
}
