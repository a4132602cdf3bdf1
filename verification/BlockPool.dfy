/**
 * The byte accounting of src/block_pool.c.  Adding data reserves its size under the size lock,
 * tests the item and links the chunk under the item lock, and gives the reservation back when the
 * tests fail; freeing a chunk list gives the size back chunk by chunk.  Threads interleave between
 * those sections.  Finalizing takes no lock, so it can come between the test and the link.
 */
module BlockPool {
  import opened Common
  import opened Sums
  import Runs

  type ItemId = nat
  type Thread = nat

  /** An item, and the thread that holds its lock between its test and its link. */
  datatype Item = Item(collecting: bool, length: nat, chunks: seq<nat>, holder: Option<Thread>)

  datatype Work =
    | Reserved(item: ItemId, size: nat)
    | Passed(item: ItemId, size: nat)
    | RollingBack(size: nat)
    | Freeing(chunks: seq<nat>)

  datatype State = State(
    maxSize: nat,
    maxItemSize: nat,
    size: int,
    items: map<ItemId, Item>,
    work: map<Thread, Work>,
    truncated: nat)

  datatype Step =
    | Create(i: ItemId)
    | Finalize(i: ItemId)
    | Reserve(t: Thread, i: ItemId, n: nat)
    | Test(t: Thread, gotNode: bool)
    | Link(t: Thread)
    | Rollback(t: Thread)
    | Detach(t: Thread, i: ItemId)
    | Remove(t: Thread, i: ItemId)
    | FreeChunk(t: Thread)

  /** The pool limit is a 32-bit number. */
  predicate Init(s: State) {
    s.size == 0 && s.items == map[] && s.work == map[] && s.truncated == 0 && s.maxSize < 0x1_0000_0000
  }

  /** A chunk records its length in 32 bits; only files are longer. */
  type Length = n: nat | n < 0x1_0000_0000

  function Recorded(n: nat): nat { n % 0x1_0000_0000 }

  predicate Refused(s: State, n: nat) {
    s.maxSize > 0 && s.size + n >= s.maxSize
  }

  predicate Rejected(s: State, i: ItemId, n: nat)
    requires i in s.items
  {
    !s.items[i].collecting || (s.maxItemSize > 0 && s.items[i].length + n >= s.maxItemSize)
  }

  predicate Enabled(s: State, step: Step) {
    match step
    case Create(i) => i !in s.items
    case Finalize(i) => i in s.items && s.items[i].collecting
    case Reserve(t, i, n) => t !in s.work && i in s.items
    case Test(t, _) =>
      && t in s.work && s.work[t].Reserved? && s.work[t].item in s.items
      && s.items[s.work[t].item].holder == None
    case Link(t) =>
      && t in s.work && s.work[t].Passed? && s.work[t].item in s.items
      && s.items[s.work[t].item].holder == Some(t)
    case Rollback(t) => t in s.work && s.work[t].RollingBack?
    case Detach(t, i) => t !in s.work && i in s.items && s.items[i].holder == None
    case Remove(t, i) => t !in s.work && i in s.items
    case FreeChunk(t) => t in s.work && s.work[t].Freeing?
  }

  function Apply(s: State, step: Step): State
    requires Enabled(s, step)
  {
    match step
    case Create(i) => s.(items := s.items[i := Item(true, 0, [], None)])
    case Finalize(i) => s.(items := s.items[i := s.items[i].(collecting := false)])
    case Reserve(t, i, n) =>
      if Refused(s, n) then s
      else s.(size := s.size + n, work := s.work[t := Reserved(i, n)])
    case Test(t, gotNode) =>
      var i, n := s.work[t].item, s.work[t].size;
      if Rejected(s, i, n) || !gotNode then s.(work := s.work[t := RollingBack(n)])
      else s.(items := s.items[i := s.items[i].(holder := Some(t))], work := s.work[t := Passed(i, n)])
    case Link(t) =>
      var i, n := s.work[t].item, s.work[t].size;
      var x := s.items[i];
      s.(items := s.items[i := x.(length := x.length + n, chunks := x.chunks + [Recorded(n)], holder := None)],
         work := s.work - {t}, truncated := s.truncated + (n - Recorded(n)))
    case Rollback(t) => s.(size := s.size - s.work[t].size, work := s.work - {t})
    case Detach(t, i) =>
      s.(items := s.items[i := s.items[i].(chunks := [])], work := s.work[t := Freeing(s.items[i].chunks)])
    case Remove(t, i) =>
      s.(items := s.items - {i}, work := s.work[t := Freeing(s.items[i].chunks)])
    case FreeChunk(t) =>
      var chunks := s.work[t].chunks;
      if chunks == [] then s.(work := s.work - {t})
      else s.(size := s.size - chunks[0], work := s.work[t := Freeing(chunks[1..])])
  }

  // ---- accounting ----

  ghost function Linked(items: map<ItemId, Item>): map<nat, nat> {
    map i | i in items :: Total(items[i].chunks)
  }

  function Holds(w: Work): nat {
    match w
    case Reserved(_, n) => n
    case Passed(_, n) => n
    case RollingBack(n) => n
    case Freeing(chunks) => Total(chunks)
  }

  ghost function Open(work: map<Thread, Work>): map<nat, nat> {
    map t | t in work :: Holds(work[t])
  }

  /** The pool size is what the items link, what threads have reserved or are freeing, and what truncation lost. */
  ghost predicate Accounted(s: State) {
    s.size == Sum(Linked(s.items)) + Sum(Open(s.work)) + s.truncated
  }

  /** An item links no more than its length says, and stays below the item limit. */
  ghost predicate Fits(x: Item, maxItemSize: nat) {
    Total(x.chunks) <= x.length && (maxItemSize > 0 ==> x.length < maxItemSize)
  }

  /** An item is locked only by a thread whose addition to it passed its tests and still fits. */
  ghost predicate HeldOk(s: State, i: ItemId)
    requires i in s.items
  {
    s.items[i].holder.Some? ==>
      var t := s.items[i].holder.value;
      && t in s.work && s.work[t].Passed? && s.work[t].item == i
      && (s.maxItemSize > 0 ==> s.items[i].length + s.work[t].size < s.maxItemSize)
  }

  ghost predicate Inv(s: State) {
    && Accounted(s)
    && (s.maxSize > 0 ==> s.size < s.maxSize && s.truncated == 0)
    && (forall i :: i in s.items ==> Fits(s.items[i], s.maxItemSize))
    && (forall i {:trigger HeldOk(s, i)} :: i in s.items ==> HeldOk(s, i))
  }

  lemma ItemPut(items: map<ItemId, Item>, i: ItemId, x: Item)
    ensures Sum(Linked(items[i := x])) ==
            Sum(Linked(items)) - (if i in items then Total(items[i].chunks) else 0) + Total(x.chunks)
  {
    SumPut(Linked(items), i, Total(x.chunks));
    assert Linked(items[i := x]) == Linked(items)[i := Total(x.chunks)];
  }

  lemma ItemDrop(items: map<ItemId, Item>, i: ItemId)
    requires i in items
    ensures Sum(Linked(items - {i})) == Sum(Linked(items)) - Total(items[i].chunks)
  {
    SumRemove(Linked(items), i);
    assert Linked(items - {i}) == Linked(items) - {i};
  }

  lemma WorkPut(work: map<Thread, Work>, t: Thread, w: Work)
    ensures Sum(Open(work[t := w])) == Sum(Open(work)) - (if t in work then Holds(work[t]) else 0) + Holds(w)
  {
    SumPut(Open(work), t, Holds(w));
    assert Open(work[t := w]) == Open(work)[t := Holds(w)];
  }

  lemma WorkDrop(work: map<Thread, Work>, t: Thread)
    requires t in work
    ensures Sum(Open(work - {t})) == Sum(Open(work)) - Holds(work[t])
    ensures Sum(Open(work)) >= Holds(work[t])
  {
    SumRemove(Open(work), t);
    assert Open(work - {t}) == Open(work) - {t};
  }

  lemma RecordedAtMost(n: nat)
    ensures Recorded(n) <= n && (Recorded(n) == n <==> n < 0x1_0000_0000)
  {}

  lemma TestKeeps(s: State, t: Thread, gotNode: bool)
    requires Inv(s) && Enabled(s, Test(t, gotNode))
    ensures Inv(Apply(s, Test(t, gotNode)))
  {
    var i, n, r := s.work[t].item, s.work[t].size, Apply(s, Test(t, gotNode));
    assert HeldOk(s, i) && Fits(s.items[i], s.maxItemSize);
    if Rejected(s, i, n) || !gotNode {
      WorkPut(s.work, t, RollingBack(n));
    } else {
      WorkPut(s.work, t, Passed(i, n));
      ItemPut(s.items, i, s.items[i].(holder := Some(t)));
    }
    forall j | j in r.items ensures HeldOk(r, j) { assert HeldOk(s, j); }
  }

  lemma LinkAccounts(s: State, t: Thread)
    requires Accounted(s) && Enabled(s, Link(t))
    ensures Accounted(Apply(s, Link(t)))
  {
    var i, n, r := s.work[t].item, s.work[t].size, Apply(s, Link(t));
    TotalAppend(s.items[i].chunks, Recorded(n));
    ItemPut(s.items, i, r.items[i]);
    WorkDrop(s.work, t);
    assert Sum(Linked(r.items)) == Sum(Linked(s.items)) + Recorded(n);
    assert Sum(Open(r.work)) == Sum(Open(s.work)) - n;
  }

  lemma ReservedBelow(s: State, t: Thread)
    requires Inv(s) && t in s.work && s.maxSize > 0
    ensures Holds(s.work[t]) < s.maxSize
  {
    WorkDrop(s.work, t);
  }

  lemma LinkFits(s: State, t: Thread)
    requires Inv(s) && Enabled(s, Link(t))
    ensures var r := Apply(s, Link(t)); forall j :: j in r.items ==> Fits(r.items[j], r.maxItemSize) && HeldOk(r, j)
  {
    var i, n, r := s.work[t].item, s.work[t].size, Apply(s, Link(t));
    RecordedAtMost(n);
    TotalAppend(s.items[i].chunks, Recorded(n));
    forall j | j in r.items ensures Fits(r.items[j], r.maxItemSize) && HeldOk(r, j) { assert HeldOk(s, j); }
  }

  lemma LinkKeeps(s: State, t: Thread)
    requires Inv(s) && Enabled(s, Link(t)) && s.maxSize < 0x1_0000_0000
    ensures Inv(Apply(s, Link(t)))
  {
    LinkAccounts(s, t);
    LinkFits(s, t);
    if s.maxSize > 0 { ReservedBelow(s, t); }
    RecordedAtMost(s.work[t].size);
  }

  lemma WorkKeeps(s: State, step: Step)
    requires Inv(s) && Enabled(s, step) && (step.Reserve? || step.Rollback? || step.FreeChunk?)
    ensures Inv(Apply(s, step))
  {
    var t, r := step.t, Apply(s, step);
    match step {
      case Reserve(_, i, n) => WorkPut(s.work, t, Reserved(i, n));
      case Rollback(_) => WorkDrop(s.work, t);
      case FreeChunk(_) =>
        WorkDrop(s.work, t);
        if s.work[t].chunks != [] { WorkPut(s.work, t, Freeing(s.work[t].chunks[1..])); }
    }
    forall j | j in r.items ensures HeldOk(r, j) { assert HeldOk(s, j); }
  }

  lemma ItemKeeps(s: State, step: Step)
    requires Inv(s) && Enabled(s, step)
    requires step.Create? || step.Finalize? || step.Detach? || step.Remove?
    ensures Inv(Apply(s, step))
  {
    var i, r := step.i, Apply(s, step);
    match step {
      case Create(_) => ItemPut(s.items, i, Item(true, 0, [], None));
      case Finalize(_) => ItemPut(s.items, i, s.items[i].(collecting := false));
      case Detach(t, _) =>
        ItemPut(s.items, i, s.items[i].(chunks := []));
        WorkPut(s.work, t, Freeing(s.items[i].chunks));
      case Remove(t, _) =>
        ItemDrop(s.items, i);
        WorkPut(s.work, t, Freeing(s.items[i].chunks));
    }
    forall j | j in r.items ensures HeldOk(r, j) { assert j in s.items ==> HeldOk(s, j); }
  }

  // ---- runs ----

  predicate Next(s: State, step: Step, r: State) { Enabled(s, step) && Apply(s, step) == r }

  ghost predicate Run(states: seq<State>, steps: seq<Step>) { Runs.Run(Init, Next, states, steps) }

  lemma {:induction false} RunKeeps(states: seq<State>, steps: seq<Step>, k: nat)
    requires Run(states, steps) && k < |states|
    ensures Inv(states[k]) && states[k].maxSize == states[0].maxSize
  {
    if k > 0 {
      RunKeeps(states, steps, k - 1);
      assert Runs.StepAt(Next, states, steps, k - 1);
      var s, step := states[k - 1], steps[k - 1];
      match step {
        case Test(t, gotNode) => TestKeeps(s, t, gotNode);
        case Link(t) => LinkKeeps(s, t);
        case Reserve(_, _, _) => WorkKeeps(s, step);
        case Rollback(_) => WorkKeeps(s, step);
        case FreeChunk(_) => WorkKeeps(s, step);
        case _ => ItemKeeps(s, step);
      }
    } else {
      assert Linked(states[0].items) == map[] && Open(states[0].work) == map[];
    }
  }

  /** Linking a chunk longer than its 32-bit length field can say. */
  predicate Truncates(s: State, step: Step) {
    step.Link? && Enabled(s, step) && s.work[step.t].size >= 0x1_0000_0000
  }

  /** Whether the pool size is exactly what is linked plus what is open. */
  ghost predicate Exact(s: State) {
    s.size == Sum(Linked(s.items)) + Sum(Open(s.work))
  }

  lemma {:induction false} TruncatedGrows(states: seq<State>, steps: seq<Step>, k: nat)
    requires Run(states, steps) && k < |states|
    ensures states[k].truncated == 0 <==> forall j :: 0 <= j < k ==> !Truncates(states[j], steps[j])
  {
    if k > 0 {
      TruncatedGrows(states, steps, k - 1);
      assert Runs.StepAt(Next, states, steps, k - 1);
      TruncatesOrNot(states[k - 1], steps[k - 1]);
    }
  }

  lemma TruncatesOrNot(s: State, step: Step)
    requires Enabled(s, step)
    ensures Apply(s, step).truncated >= s.truncated
    ensures Apply(s, step).truncated > s.truncated <==> Truncates(s, step)
  {
    if step.Link? { RecordedAtMost(s.work[step.t].size); }
  }

  /**
   * In every interleaving the pool size is the linked chunk lengths plus the open reservations
   * and chunks being freed, exactly when no chunk of 4 GiB or more was linked; a nonzero limit
   * rules such chunks out and is never reached.
   */
  lemma PoolSizeExact(states: seq<State>, steps: seq<Step>, k: nat)
    requires Run(states, steps) && k < |states|
    ensures Exact(states[k]) <==> forall j :: 0 <= j < k ==> !Truncates(states[j], steps[j])
    ensures states[0].maxSize > 0 ==> Exact(states[k]) && 0 <= states[k].size < states[0].maxSize
    ensures states[k].size >= 0
  {
    RunKeeps(states, steps, k);
    TruncatedGrows(states, steps, k);
  }

  /** Without limits: a new item, an addition of n bytes to it that has passed its tests, and that addition linked. */
  function Passing(n: nat, collecting: bool): State {
    State(0, 0, n, map[0 := Item(collecting, 0, [], Some(0))], map[0 := Passed(0, n)], 0)
  }

  function LinkedTo(n: nat, collecting: bool): State {
    State(0, 0, n, map[0 := Item(collecting, n, [Recorded(n)], None)], map[], n - Recorded(n))
  }

  lemma ReachPassing(n: nat)
    ensures Runs.Reachable(Init, Next, Passing(n, true))
  {
    var s := State(0, 0, 0, map[], map[], 0);
    Runs.ReachInit(Init, Next, s);
    var t := s.(items := map[0 := Item(true, 0, [], None)]);
    Runs.ReachNext(Init, Next, s, Create(0), t);
    var u := t.(size := n, work := map[0 := Reserved(0, n)]);
    Runs.ReachNext(Init, Next, t, Reserve(0, 0, n), u);
    Runs.ReachNext(Init, Next, u, Test(0, true), Passing(n, true));
  }

  lemma LinkPassing(n: nat, collecting: bool)
    ensures Next(Passing(n, collecting), Link(0), LinkedTo(n, collecting))
  {
    var s, r := Passing(n, collecting), Apply(Passing(n, collecting), Link(0));
    assert s.work - {0} == map[] && [] + [Recorded(n)] == [Recorded(n)];
    assert r.items == map[0 := Item(collecting, n, [Recorded(n)], None)];
  }

  /** The size does go wrong: any addition of 4 GiB or more is an example. */
  lemma LargeChunkMiscounted(n: nat)
    requires n >= 0x1_0000_0000
    ensures Runs.Reachable(Init, Next, LinkedTo(n, true)) && !Exact(LinkedTo(n, true))
  {
    ReachPassing(n);
    LinkPassing(n, true);
    Runs.ReachNext(Init, Next, Passing(n, true), Link(0), LinkedTo(n, true));
    var states, steps :| Runs.Run(Init, Next, states, steps) && states[|steps|] == LinkedTo(n, true);
    RunKeeps(states, steps, |steps|);
    RecordedAtMost(n);
  }

  // ---- an addition whose thread is not interfered with ----

  /**
   * Reserving, testing and linking in a row: refused at the pool limit with nothing changed, given
   * back in full when the item is not collecting or at its limit, and else linked behind the other
   * chunks.
   */
  lemma AdditionAlone(s: State, t: Thread, i: ItemId, n: nat)
    requires t !in s.work && i in s.items && s.items[i].holder == None
    ensures var x, a := s.items[i], Apply(s, Reserve(t, i, n));
            if s.maxSize > 0 && s.size + n >= s.maxSize then a == s
            else
              && a.size == s.size + n && Enabled(a, Test(t, true))
              && var b := Apply(a, Test(t, true));
              if !x.collecting || (s.maxItemSize > 0 && x.length + n >= s.maxItemSize)
              then Enabled(b, Rollback(t)) && Apply(b, Rollback(t)) == s
              else
                && Enabled(b, Link(t))
                && var c := Apply(b, Link(t));
                && c.items == s.items[i := Item(true, x.length + n, x.chunks + [n % 0x1_0000_0000], None)]
                && c.size == s.size + n && c.work == s.work && c.maxSize == s.maxSize && c.maxItemSize == s.maxItemSize
  {
    var a := Apply(s, Reserve(t, i, n));
    if !Refused(s, n) {
      var b := Apply(a, Test(t, true));
      assert b.work - {t} == s.work;
    }
  }

  // ---- additions after finalizing ----

  /** Once an item is finalized and no addition to it has passed its tests, no data is added to it. */
  lemma FinalizedIsFrozen(s: State, step: Step, i: ItemId)
    requires Enabled(s, step) && i in s.items && !s.items[i].collecting && s.items[i].holder == None
    ensures i in Apply(s, step).items ==>
              var x := Apply(s, step).items[i];
              && !x.collecting && x.holder == None && x.length == s.items[i].length
              && (x.chunks == s.items[i].chunks || x.chunks == [])
  {}

  /** If one has, it is the only one still to be linked. */
  lemma HolderMayLink(s: State, step: Step, i: ItemId, t: Thread)
    requires Inv(s) && Enabled(s, step) && i in s.items && !s.items[i].collecting && s.items[i].holder == Some(t)
    ensures t in s.work
    ensures i in Apply(s, step).items ==>
              var r := Apply(s, step);
              && !r.items[i].collecting
              && if step == Link(t) then r.items[i].holder == None && r.items[i].length == s.items[i].length + s.work[t].size
                 else && r.items[i].holder == Some(t) && r.items[i].length == s.items[i].length
                      && t in r.work && r.work[t] == s.work[t]
  {
    assert HeldOk(s, i);
  }

  /** A thread has linked between two states of a run. */
  ghost predicate LinkedBy(steps: seq<Step>, f: nat, k: nat, t: Thread) {
    exists m :: f < m < k && m < |steps| && steps[m] == Link(t)
  }

  /** How much an addition that had passed its tests when the item was finalized has added by state k. */
  ghost function LateBytes(s: State, steps: seq<Step>, f: nat, k: nat, i: ItemId): nat
    requires i in s.items
  {
    match s.items[i].holder
    case None => 0
    case Some(t) => if LinkedBy(steps, f, k, t) && t in s.work then Holds(s.work[t]) else 0
  }

  /** What becomes of the addition under way, if there is one, when an item is finalized. */
  ghost predicate AfterFinalize(s: State, r: State, steps: seq<Step>, f: nat, k: nat, i: ItemId)
    requires i in s.items
  {
    && i in r.items && !r.items[i].collecting
    && r.items[i].length == s.items[i].length + LateBytes(s, steps, f, k, i)
    && match s.items[i].holder
       case None => r.items[i].holder == None
       case Some(t) =>
         t in s.work && s.work[t].Passed?
         && if LinkedBy(steps, f, k, t) then r.items[i].holder == None
            else r.items[i].holder == Some(t) && t in r.work && r.work[t] == s.work[t]
  }

  lemma LinkedMore(steps: seq<Step>, f: nat, k: nat, t: Thread)
    requires f < k < |steps|
    ensures LinkedBy(steps, f, k + 1, t) <==> LinkedBy(steps, f, k, t) || steps[k] == Link(t)
  {}

  lemma StepAfterFinalize(s: State, q: State, steps: seq<Step>, f: nat, k: nat, i: ItemId)
    requires f < k < |steps| && i in s.items && Inv(q) && AfterFinalize(s, q, steps, f, k, i)
    requires Enabled(q, steps[k]) && i in Apply(q, steps[k]).items
    ensures AfterFinalize(s, Apply(q, steps[k]), steps, f, k + 1, i)
  {
    match s.items[i].holder
    case None => FinalizedIsFrozen(q, steps[k], i);
    case Some(t) =>
      LinkedMore(steps, f, k, t);
      if LinkedBy(steps, f, k, t) {
        FinalizedIsFrozen(q, steps[k], i);
      } else {
        HolderMayLink(q, steps[k], i, t);
      }
  }

  /**
   * An item finalized by step f grows afterwards by exactly the addition, if any, that had passed
   * its tests by then and has been linked since.
   */
  lemma {:induction false} LateAdditions(states: seq<State>, steps: seq<Step>, f: nat, k: nat, i: ItemId)
    requires Run(states, steps) && f < k < |states| && steps[f] == Finalize(i)
    requires forall j :: f <= j <= k ==> i in states[j].items
    ensures AfterFinalize(states[f], states[k], steps, f, k, i)
    ensures states[k].items[i].length == states[f].items[i].length + LateBytes(states[f], steps, f, k, i)
  {
    RunKeeps(states, steps, k - 1);
    assert Runs.StepAt(Next, states, steps, k - 1);
    if k == f + 1 {
      assert HeldOk(states[f], i);
    } else {
      LateAdditions(states, steps, f, k - 1, i);
      StepAfterFinalize(states[f], states[k - 1], steps, f, k - 1, i);
    }
  }

  /** It does happen: an addition of any size can be linked to an item after it was finalized. */
  lemma LinkedAfterFinalize(n: nat)
    ensures Runs.Reachable(Init, Next, Passing(n, false))
    ensures Next(Passing(n, true), Finalize(0), Passing(n, false)) && Next(Passing(n, false), Link(0), LinkedTo(n, false))
  {
    ReachPassing(n);
    LinkPassing(n, false);
    Runs.ReachNext(Init, Next, Passing(n, true), Finalize(0), Passing(n, false));
  }

  // ---- the same sections in place, for one thread ----

  class PoolItem {
    var collecting: bool
    var length: nat
    var chunks: seq<nat>
  }

  class Pool {
    var size: int
    const maxSize: nat
    const maxItemSize: nat

    constructor (maxSize: nat, maxItemSize: nat)
      ensures size == 0 && this.maxSize == maxSize && this.maxItemSize == maxItemSize
    {
      this.maxSize, this.maxItemSize, size := maxSize, maxItemSize, 0;
    }

    /** All or nothing: data that is refused, or cannot be linked, leaves pool and item as they were. */
    method AddData(item: PoolItem, n: Length, gotNode: bool) returns (ok: bool)
      modifies this, item
      ensures ok <==> && n > 0 && (maxSize == 0 || old(size) + n < maxSize) && old(item.collecting)
                      && (maxItemSize == 0 || old(item.length) + n < maxItemSize) && gotNode
      ensures item.collecting == old(item.collecting)
      ensures size == old(size) + if ok then n else 0
      ensures item.length == old(item.length) + if ok then n else 0
      ensures item.chunks == old(item.chunks) + if ok then [n] else []
    {
      if n == 0 {
        return false;
      }
      if maxSize > 0 && size + n >= maxSize {
        return false;
      }
      size := size + n;
      if !item.collecting {
        size := size - n;
        return false;
      }
      if maxItemSize > 0 && item.length + n >= maxItemSize {
        size := size - n;
        return false;
      }
      if !gotNode {
        size := size - n;
        return false;
      }
      item.length := item.length + n;
      item.chunks := item.chunks + [n];
      return true;
    }

    /** Likewise for a file of any size, but its chunk records no more than 32 bits of the size. */
    method AddDataFromFile(item: PoolItem, n: nat, readable: bool) returns (ok: bool)
      modifies this, item
      ensures ok <==> && readable && (maxSize == 0 || old(size) + n < maxSize) && old(item.collecting)
                      && (maxItemSize == 0 || old(item.length) + n < maxItemSize)
      ensures item.collecting == old(item.collecting)
      ensures size == old(size) + if ok then n else 0
      ensures item.length == old(item.length) + if ok then n else 0
      ensures item.chunks == old(item.chunks) + if ok then [Recorded(n)] else []
    {
      if !readable || (maxSize > 0 && size + n >= maxSize) {
        return false;
      }
      size := size + n;
      if !item.collecting || (maxItemSize > 0 && item.length + n >= maxItemSize) {
        size := size - n;
        return false;
      }
      item.length := item.length + n;
      item.chunks := item.chunks + [Recorded(n)];
      return true;
    }

    /** Gives back the length of every chunk in the list. */
    method DestroyItemDataList(item: PoolItem)
      modifies this, item`chunks
      ensures size == old(size) - Total(old(item.chunks)) && item.chunks == []
    {
      while item.chunks != []
        invariant size - Total(item.chunks) == old(size) - Total(old(item.chunks))
        decreases |item.chunks|
      {
        size := size - item.chunks[0];
        item.chunks := item.chunks[1..];
      }
    }
  }
}

/**
 * The limit on the number of items.  BlockPool_CreateItem tests the count and adds the item in two
 * separate steps, so creators can overlap.
 */
module PoolItems {
  import Runs

  datatype State = State(max: nat, count: nat, creating: nat)

  datatype Step = Test | Add | Remove

  predicate Enabled(s: State, step: Step) {
    match step
    case Test => s.max == 0 || s.count < s.max   // otherwise the creation is refused
    case Add => s.creating > 0
    case Remove => s.count > 0
  }

  function Apply(s: State, step: Step): State
    requires Enabled(s, step)
  {
    match step
    case Test => s.(creating := s.creating + 1)
    case Add => s.(creating := s.creating - 1, count := s.count + 1)
    case Remove => s.(count := s.count - 1)
  }

  predicate Init(s: State) { s == State(s.max, 0, 0) }

  predicate Next(s: State, step: Step, r: State) { Enabled(s, step) && Apply(s, step) == r }

  ghost predicate Run(states: seq<State>, steps: seq<Step>) { Runs.Run(Init, Next, states, steps) }

  lemma {:induction false} MaxConstant(states: seq<State>, steps: seq<Step>, k: nat)
    requires Run(states, steps) && k < |states|
    ensures states[k].max == states[0].max
  {
    if k > 0 {
      MaxConstant(states, steps, k - 1);
      assert Runs.StepAt(Next, states, steps, k - 1);
    }
  }

  /** At most n creations are ever between their test and their addition. */
  ghost predicate Overlap(states: seq<State>, n: nat) {
    forall k :: 0 <= k < |states| ==> states[k].creating <= n
  }

  /** With at most n overlapping creations the count exceeds the limit by at most n - 1. */
  lemma {:induction false} CountBounded(states: seq<State>, steps: seq<Step>, n: nat, k: nat)
    requires Run(states, steps) && Overlap(states, n) && n > 0 && k < |states| && states[0].max > 0
    ensures states[k].max == states[0].max && states[k].count + states[k].creating <= states[k].max + n - 1
  {
    if k > 0 {
      CountBounded(states, steps, n, k - 1);
      assert Runs.StepAt(Next, states, steps, k - 1);
    }
  }

  /** So creations that never overlap respect the limit. */
  lemma AloneRespectsLimit(states: seq<State>, steps: seq<Step>, k: nat)
    requires Run(states, steps) && Overlap(states, 1) && k < |states| && states[0].max > 0
    ensures states[k].count <= states[0].max
  {
    CountBounded(states, steps, 1, k);
  }

  /** States that runs with at most n overlapping creations end in. */
  ghost predicate Reaches(n: nat, s: State) {
    exists states, steps :: Run(states, steps) && Overlap(states, n) && states[|steps|] == s
  }

  lemma ReachesNext(n: nat, s: State, step: Step)
    requires Reaches(n, s) && Enabled(s, step) && Apply(s, step).creating <= n
    ensures Reaches(n, Apply(s, step))
  {
    var states, steps :| Run(states, steps) && Overlap(states, n) && states[|steps|] == s;
    var states', steps' := states + [Apply(s, step)], steps + [step];
    Runs.RunNext(Init, Next, states, steps, step, Apply(s, step));
    assert Run(states', steps') && Overlap(states', n) && states'[|steps'|] == Apply(s, step);
  }

  /** One creation after another fills the pool to its limit. */
  lemma {:induction false} FillUp(max: nat, n: nat, count: nat)
    requires n > 0 && count <= max
    ensures Reaches(n, State(max, count, 0))
  {
    if count == 0 {
      var states: seq<State>, steps: seq<Step> := [State(max, 0, 0)], [];
      assert Run(states, steps) && Overlap(states, n) && states[|steps|] == State(max, 0, 0);
    } else {
      FillUp(max, n, count - 1);
      ReachesNext(n, State(max, count - 1, 0), Test);
      ReachesNext(n, State(max, count - 1, 1), Add);
    }
  }

  /** With one place left, any number of creations pass the test. */
  lemma {:induction false} CrowdIn(max: nat, n: nat, creating: nat)
    requires max > 0 && n > 0 && creating <= n
    ensures Reaches(n, State(max, max - 1, creating))
  {
    if creating == 0 {
      FillUp(max, n, max - 1);
    } else {
      CrowdIn(max, n, creating - 1);
      ReachesNext(n, State(max, max - 1, creating - 1), Test);
    }
  }

  /** And all of them then add their item. */
  lemma {:induction false} AllAdd(max: nat, n: nat, added: nat)
    requires max > 0 && n > 0 && added <= n
    ensures Reaches(n, State(max, max - 1 + added, n - added))
  {
    if added == 0 {
      CrowdIn(max, n, n);
    } else {
      AllAdd(max, n, added - 1);
      ReachesNext(n, State(max, max - 1 + added - 1, n - added + 1), Add);
    }
  }

  /** The bound is reached: n overlapping creations can exceed every limit by n - 1. */
  lemma OverlapExceedsLimit(max: nat, n: nat)
    requires max > 0 && n > 0
    ensures Reaches(n, State(max, max + n - 1, 0))
  {
    AllAdd(max, n, n);
  }

  /** So runs with at most n overlapping creations all respect a limit exactly when n is at most one. */
  lemma LimitRespectedExactly(max: nat, n: nat)
    requires max > 0
    ensures (forall s :: Reaches(n, s) && s.max == max ==> s.count <= max) <==> n <= 1
  {
    if n <= 1 {
      forall s | Reaches(n, s) && s.max == max ensures s.count <= max {
        var states, steps :| Run(states, steps) && Overlap(states, n) && states[|steps|] == s;
        MaxConstant(states, steps, |steps|);
        AloneRespectsLimit(states, steps, |steps|);
      }
    } else {
      OverlapExceedsLimit(max, n);
    }
  }
}

/** The item's 32-bit status word: a status in the low byte, flags in the high byte. */
module StatusWord {
  const STATUS_MASK: bv32 := 0x000000FF
  const FLAG_MASK: bv32 := 0xFF000000

  function GetStatus(word: bv32): bv32 { word & STATUS_MASK }

  function GetFlags(word: bv32): bv32 { word & FLAG_MASK }

  /** Replaces the status and keeps the flags. */
  function SetStatus(word: bv32, status: bv32): (r: bv32)
    ensures GetStatus(r) == GetStatus(status) && GetFlags(r) == GetFlags(word)
  {
    (status & STATUS_MASK) | (word & FLAG_MASK)
  }

  /** Replaces the flags and keeps the status. */
  function SetFlags(word: bv32, flags: bv32): (r: bv32)
    ensures GetFlags(r) == GetFlags(flags) && GetStatus(r) == GetStatus(word)
  {
    (flags & FLAG_MASK) | (word & STATUS_MASK)
  }
}
