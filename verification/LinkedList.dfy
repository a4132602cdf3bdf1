/**
 * The doubly linked list of src/list.c.  Nodes are heap objects; removal during an iteration is
 * deferred: the visiting pass only marks nodes and a second pass unlinks and destroys them.
 */
module LinkedList {
  import opened Common
  import opened ListSpec

  /** Items are addresses; the list never looks behind them. */
  type Item = nat

  class Node {
    var next: Node?
    var prev: Node?
    const item: Item
    var del: bool

    constructor (item: Item)
      ensures this.item == item && next == null && prev == null && !del
    {
      this.item := item;
      next, prev, del := null, null, false;
    }
  }

  /** The k-th node of a chain points at its neighbours. */
  ghost predicate NodeAt(ns: seq<Node>, k: int)
    requires 0 <= k < |ns|
    reads ns[k]
  {
    && ns[k].prev == (if k == 0 then null else ns[k - 1])
    && ns[k].next == (if k == |ns| - 1 then null else ns[k + 1])
  }

  ghost predicate MarkAt(ns: seq<Node>, codes: seq<Each>, k: nat)
    requires k < |ns|
    reads ns[k]
  {
    ns[k].del == Marked(codes, k)
  }

  ghost predicate Apart(ns: seq<Node>, j: int, k: int)
    requires 0 <= j < k < |ns|
  {
    ns[j] != ns[k]
  }

  ghost predicate Distinct(ns: seq<Node>) {
    forall j, k {:trigger Apart(ns, j, k)} :: 0 <= j < k < |ns| ==> Apart(ns, j, k)
  }

  lemma Differ(ns: seq<Node>, i: nat, j: nat)
    requires Distinct(ns) && i < |ns| && j < |ns| && i != j
    ensures ns[i] != ns[j]
  {
    assert if i < j then Apart(ns, i, j) else Apart(ns, j, i);
  }

  ghost function ItemsOf(ns: seq<Node>): (r: seq<Item>)
    ensures |r| == |ns| && forall k :: 0 <= k < |ns| ==> r[k] == ns[k].item
  {
    seq(|ns|, k requires 0 <= k < |ns| => ns[k].item)
  }

  lemma PopHead(ns: seq<Node>)
    requires ns != []
    ensures ItemsOf(ns) == [ns[0].item] + ItemsOf(Cut(ns, 0))
    ensures forall n <- Cut(ns, 0) :: n in ns
  {
    CutIs(ns, 0, 0);
  }

  lemma PopTail(ns: seq<Node>)
    requires ns != []
    ensures ItemsOf(ns) == ItemsOf(Cut(ns, |ns| - 1)) + [ns[|ns| - 1].item]
    ensures forall n <- Cut(ns, |ns| - 1) :: n in ns
  {
    CutIs(ns, |ns| - 1, 0);
  }

  lemma {:induction false} SelectItems(ns: seq<Node>, codes: seq<Each>, marked: bool, n: nat)
    requires n <= |ns|
    ensures ItemsOf(Select(ns, codes, marked, n)) == Select(ItemsOf(ns), codes, marked, n)
  {
    if n > 0 { SelectItems(ns, codes, marked, n - 1); }
  }

  class List {
    const mode: Mode
    const destroys: bool
    var head: Node?
    var tail: Node?
    var length: nat
    var limit: nat
    var sem: nat
    ghost var nodes: seq<Node>
    ghost var repr: set<Node>
    ghost var destroyed: seq<Item>

    /** Chain, ends and length agree. */
    ghost predicate Linked()
      reads this, repr
    {
      && length == |nodes|
      && head == (if nodes == [] then null else nodes[0])
      && tail == (if nodes == [] then null else nodes[|nodes| - 1])
      && Distinct(nodes)
      && (forall n <- nodes :: n in repr)
      && (forall k {:trigger NodeAt(nodes, k)} :: 0 <= k < |nodes| ==> NodeAt(nodes, k))
    }

    /** The nodes marked for deletion are those answered REMOVE so far. */
    ghost predicate MarkedBy(codes: seq<Each>)
      reads this, repr
    {
      && |codes| <= |nodes|
      && (forall n <- nodes :: n in repr)
      && (forall k {:trigger MarkAt(nodes, codes, k)} :: 0 <= k < |nodes| ==> MarkAt(nodes, codes, k))
    }

    /** Linked, with no deletion pending. */
    ghost predicate Valid()
      reads this, repr
    {
      Linked() && forall n <- nodes :: !n.del
    }

    ghost function Items(): seq<Item>
      reads this
    {
      ItemsOf(nodes)
    }

    constructor (mode: Mode, destroys: bool)
      ensures Valid() && Items() == [] && destroyed == [] && limit == 0 && sem == 0
      ensures this.mode == mode && this.destroys == destroys && repr == {}
    {
      this.mode := mode;
      this.destroys := destroys;
      head, tail, length, limit, sem := null, null, 0, 0, 0;
      nodes, repr, destroyed := [], {}, [];
    }

    // ---- push ----

    method StackPush(node: Node)
      requires Linked() && node !in repr && node.next == null && node.prev == null
      modifies this`head, this`tail, this`length, this`nodes, this`repr, node`next, repr`prev
      ensures Linked() && repr == old(repr) + {node} && nodes == [node] + old(nodes)
      ensures Items() == [node.item] + old(Items())
    {
      ghost var was := nodes;
      if head == null {
        head := node;
        tail := node;
      } else {
        node.next := head;
        head.prev := node;
        head := node;
      }
      length := length + 1;
      nodes, repr := [node] + nodes, repr + {node};
      forall k | 0 <= k < |nodes| ensures NodeAt(nodes, k) {
        if k > 0 { assert old(NodeAt(was, k - 1)); }
        if k > 1 { Differ(was, k - 1, 0); }
      }
      forall j, k | 0 <= j < k < |nodes| ensures Apart(nodes, j, k) {
        if j > 0 { Differ(was, j - 1, k - 1); }
      }
    }

    method QueuePush(node: Node)
      requires Linked() && node !in repr && node.next == null && node.prev == null
      modifies this`head, this`tail, this`length, this`nodes, this`repr, node`prev, repr`next
      ensures Linked() && repr == old(repr) + {node} && nodes == old(nodes) + [node]
      ensures Items() == old(Items()) + [node.item]
    {
      ghost var was := nodes;
      if tail == null {
        head := node;
        tail := node;
      } else {
        node.prev := tail;
        tail.next := node;
        tail := node;
      }
      length := length + 1;
      nodes, repr := nodes + [node], repr + {node};
      forall k | 0 <= k < |nodes| ensures NodeAt(nodes, k) {
        if k < |was| { assert old(NodeAt(was, k)); }
        if k < |was| - 1 { Differ(was, k, |was| - 1); }
      }
      forall j, k | 0 <= j < k < |nodes| ensures Apart(nodes, j, k) {
        if k < |was| { Differ(was, j, k); }
      }
    }

    /** Links a fresh node where the mode puts it. */
    method Insert(node: Node)
      requires Valid() && node !in repr && node.next == null && node.prev == null && !node.del
      modifies this`head, this`tail, this`length, this`nodes, this`repr, node`next, node`prev, repr`next, repr`prev
      ensures Valid() && repr == old(repr) + {node}
      ensures Items() == Pushed(mode, node.item, old(Items()))
    {
      if mode == Stack {
        StackPush(node);
      } else {
        QueuePush(node);
      }
    }

    /** Adds an item unless the limit is reached; a stack or queue then posts its semaphore. */
    method Push(item: Item) returns (ok: bool)
      requires Valid()
      modifies this, repr
      ensures Valid() && fresh(repr - old(repr))
      ensures limit == old(limit) && destroyed == old(destroyed)
      ensures ok <==> limit == 0 || old(length) < limit
      ensures Items() == if ok then Pushed(mode, item, old(Items())) else old(Items())
      ensures ok && mode != Stack ==> Items() == old(Items()) + [item]
      ensures ok && mode == Stack ==> Items() == [item] + old(Items())
      ensures sem == old(sem) + if ok && mode != Generic then 1 else 0
    {
      var node := new Node(item);
      if limit > 0 && length >= limit {
        return false;
      }
      Insert(node);
      if mode != Generic {
        sem := sem + 1;
      }
      return true;
    }

    // ---- remove one node, pop ----

    method RemoveNode(node: Node, ghost k: nat)
      requires Linked() && k < |nodes| && nodes[k] == node
      modifies this`head, this`tail, this`length, this`nodes, repr`next, repr`prev
      ensures Linked() && nodes == Cut(old(nodes), k)
    {
      ghost var was := nodes;
      assert NodeAt(was, k);
      if k > 0 { Differ(was, k, 0); }
      if k + 1 < |was| { Differ(was, k, |was| - 1); }
      if node == head && node == tail {
        head := null;
        tail := null;
      } else if node == head {
        head := node.next;
        head.prev := null;
      } else if node == tail {
        tail := node.prev;
        tail.next := null;
      } else {
        node.prev.next := node.next;
        node.next.prev := node.prev;
      }
      length := length - 1;
      nodes := was[..k] + was[k + 1..];
      forall j | 0 <= j < |nodes| ensures NodeAt(nodes, j) {
        var i := if j < k then j else j + 1;
        assert old(NodeAt(was, i));
        if k > 0 && i != k - 1 { Differ(was, i, k - 1); }
        if k + 1 < |was| && i != k + 1 { Differ(was, i, k + 1); }
      }
      forall i, j | 0 <= i < j < |nodes| ensures Apart(nodes, i, j) {
        Differ(was, if i < k then i else i + 1, if j < k then j else j + 1);
      }
      assert nodes == Cut(was, k) by { CutIs(was, k, 0); }
    }

    method StackPop() returns (node: Node?)
      requires Valid()
      modifies this`head, this`tail, this`length, this`nodes, repr`next, repr`prev
      ensures Valid()
      ensures old(nodes) == [] ==> node == null && nodes == []
      ensures old(nodes) != [] ==> node != null && old(Items()) == [node.item] + Items()
    {
      if head == null { return null; }
      node := head;
      PopHead(nodes);
      RemoveNode(node, 0);
    }

    method QueuePop() returns (node: Node?)
      requires Valid()
      modifies this`head, this`tail, this`length, this`nodes, repr`next, repr`prev
      ensures Valid()
      ensures old(nodes) == [] ==> node == null && nodes == []
      ensures old(nodes) != [] ==> node != null && old(Items()) == Items() + [node.item]
    {
      if tail == null { return null; }
      node := tail;
      PopTail(nodes);
      RemoveNode(node, |nodes| - 1);
    }

    /** Takes from the head of a stack and from the tail of any other list. */
    method DoPop() returns (node: Node?)
      requires Valid()
      modifies this`head, this`tail, this`length, this`nodes, repr`next, repr`prev
      ensures Valid()
      ensures old(nodes) == [] ==> node == null && nodes == []
      ensures old(nodes) != [] ==> node != null && old(Items()) == Pushed(mode, node.item, Items())
    {
      if mode == Stack {
        node := StackPop();
      } else {
        node := QueuePop();
      }
    }

    /** A stack or queue first waits for its semaphore; alone, the wait times out when it is zero. */
    method Pop() returns (item: Option<Item>)
      requires Valid()
      modifies this, repr
      ensures Valid() && limit == old(limit) && destroyed == old(destroyed) && repr == old(repr)
      ensures item == None <==> (mode != Generic && old(sem) == 0) || old(Items()) == []
      ensures item == None ==> Items() == old(Items())
      ensures item.Some? ==> old(Items()) == Pushed(mode, item.value, Items())
      ensures item.Some? && mode != Stack ==> old(Items()) == Items() + [item.value]
      ensures item.Some? && mode == Stack ==> old(Items()) == [item.value] + Items()
      ensures sem == old(sem) - if mode == Generic || old(sem) == 0 then 0 else 1
    {
      if mode != Generic {
        if sem == 0 { return None; }
        sem := sem - 1;
      }
      var node := DoPop();
      if node == null { return None; }
      return Some(node.item);
    }

    // ---- iteration ----

    /** What destroying these nodes adds to the record of destroyed items. */
    ghost function Freed(ns: seq<Node>): seq<Item> {
      if destroys then ItemsOf(ns) else []
    }

    /** The nodes and the record of destroyed items once the first i nodes have been dealt with. */
    ghost function NodesAt(was: seq<Node>, codes: seq<Each>, i: nat): seq<Node>
      requires i <= |was|
    {
      Select(was, codes, false, i) + From(was, i)
    }

    ghost function LogAt(was: seq<Node>, codes: seq<Each>, i: nat, log: seq<Item>): seq<Item>
      requires i <= |was|
    {
      log + Freed(Select(was, codes, true, i))
    }

    /** How one node changes them: nothing, or it leaves the chain and joins the record. */
    lemma PruneStep(was: seq<Node>, codes: seq<Each>, i: nat)
      requires i < |was|
      ensures var ns, k := NodesAt(was, codes, i), |Select(was, codes, false, i)|;
              && k < |ns| && ns[k] == was[i] && (i + 1 < |was| <==> k + 1 < |ns|)
              && (i + 1 < |was| ==> ns[k + 1] == was[i + 1])
              && NodesAt(was, codes, i + 1) == (if Marked(codes, i) then Cut(ns, k) else ns)
    {
      var done := Select(was, codes, false, i);
      Uncons(done, was, i);
      if Marked(codes, i) {
        CutIs(NodesAt(was, codes, i), |done|, 0);
        assert Select(was, codes, false, i + 1) == done;
      } else {
        assert Select(was, codes, false, i + 1) == done + [was[i]];
      }
    }

    lemma LogStep(was: seq<Node>, codes: seq<Each>, i: nat, log: seq<Item>)
      requires i < |was|
      ensures LogAt(was, codes, i + 1, log) ==
              LogAt(was, codes, i, log) + if Marked(codes, i) && destroys then [was[i].item] else []
    {
      var gone := Select(was, codes, true, i);
      assert ItemsOf(gone + [was[i]]) == ItemsOf(gone) + [was[i].item];
    }

    lemma PruneStarts(was: seq<Node>, codes: seq<Each>, log: seq<Item>)
      ensures NodesAt(was, codes, 0) == was && LogAt(was, codes, 0, log) == log
    {
      FromIsDrop(was, 0);
    }

    lemma PruneEnds(was: seq<Node>, codes: seq<Each>, log: seq<Item>)
      ensures NodesAt(was, codes, |was|) == Kept(was, codes)
      ensures LogAt(was, codes, |was|, log) == log + Freed(Removed(was, codes))
    {}

    /** Unlinks and destroys a node. */
    method DeleteNode(node: Node, ghost k: nat)
      requires Linked() && k < |nodes| && nodes[k] == node
      modifies this`head, this`tail, this`length, this`nodes, this`destroyed, repr`next, repr`prev
      ensures Linked() && nodes == Cut(old(nodes), k)
      ensures destroyed == old(destroyed) + if destroys then [node.item] else []
    {
      RemoveNode(node, k);
      if destroys {
        destroyed := destroyed + [node.item];
      }
    }

    /** Deals with the i-th of the nodes the list held; answers the node after it. */
    method PruneNode(node: Node, ghost was: seq<Node>, ghost codes: seq<Each>, ghost i: nat, ghost log: seq<Item>)
      returns (cur: Node?)
      requires i < |was| && was[i] == node && node.del == Marked(codes, i)
      requires Linked() && nodes == NodesAt(was, codes, i) && destroyed == LogAt(was, codes, i, log)
      modifies this`head, this`tail, this`length, this`nodes, this`destroyed, repr`next, repr`prev
      ensures Linked() && nodes == NodesAt(was, codes, i + 1) && destroyed == LogAt(was, codes, i + 1, log)
      ensures cur == if i + 1 == |was| then null else was[i + 1]
    {
      ghost var k := |Select(was, codes, false, i)|;
      PruneStep(was, codes, i);
      LogStep(was, codes, i, log);
      assert NodeAt(nodes, k);
      cur := node.next;
      if node.del {
        DeleteNode(node, k);
      }
    }

    /** Unlinks and destroys every marked node. */
    method Prune(ghost codes: seq<Each>)
      requires Linked() && MarkedBy(codes)
      modifies this`head, this`tail, this`length, this`nodes, this`destroyed, repr`next, repr`prev
      ensures Linked() && nodes == Kept(old(nodes), codes)
      ensures destroyed == old(destroyed) + Freed(Removed(old(nodes), codes))
    {
      ghost var was, i := nodes, 0;
      PruneStarts(was, codes, destroyed);
      var cur := head;
      while cur != null
        invariant 0 <= i <= |was| && Linked() && nodes == NodesAt(was, codes, i)
        invariant destroyed == LogAt(was, codes, i, old(destroyed))
        invariant cur == if i == |was| then null else was[i]
        decreases |was| - i
      {
        assert old(MarkAt(was, codes, i));
        cur := PruneNode(cur, was, codes, i, old(destroyed));
        i := i + 1;
      }
      PruneEnds(was, codes, old(destroyed));
    }

    /** Records one answer, and gives the next node. */
    method MarkNode(node: Node, each: Each, ghost codes: seq<Each>) returns (cur: Node?)
      requires Linked() && MarkedBy(codes) && |codes| < |nodes| && nodes[|codes|] == node
      modifies repr`del
      ensures Linked() && MarkedBy(codes + [each])
      ensures cur == if |codes| + 1 == |nodes| then null else nodes[|codes| + 1]
    {
      ghost var i := |codes|;
      assert NodeAt(nodes, i);
      if each == REMOVE {
        forall k | 0 <= k < |nodes| && k != i ensures nodes[k] != nodes[i] { Differ(nodes, k, i); }
        node.del := true;
      }
      forall k | 0 <= k < |nodes| ensures NodeAt(nodes, k) && MarkAt(nodes, codes + [each], k) {
        assert old(NodeAt(nodes, k)) && old(MarkAt(nodes, codes, k));
      }
      cur := node.next;
    }

    /** The visiting pass: marks the nodes whose callback answers REMOVE. */
    method VisitNodes<U>(op: (Item, U) -> Answer<U>, data: U)
      returns (ok: bool, del: bool, result: U, ghost codes: seq<Each>)
      requires Valid()
      modifies repr`del
      ensures Linked() && MarkedBy(codes) && Visits(Items(), op, data) == Visit(codes, result)
      ensures ok <==> ERROR !in codes
      ensures del <==> REMOVE in codes
    {
      ok, del, result, codes := true, false, data, [];
      var cur := head;
      ghost var items, rest := Items(), Items();
      while cur != null
        invariant Linked() && MarkedBy(codes) && rest == items[|codes|..]
        invariant cur == if |codes| == |nodes| then null else nodes[|codes|]
        invariant ok && ERROR !in codes
        invariant del <==> REMOVE in codes
        invariant Visits(items, op, data) == After(codes, Visits(rest, op, result))
        decreases |rest|
      {
        var answer := op(cur.item, result);
        VisitsStep(codes, rest, op, result);
        cur := MarkNode(cur, answer.each, codes);
        result := answer.data;
        codes, rest := codes + [answer.each], rest[1..];
        if Stops(answer.each) {
          ok := answer.each != ERROR;
          return;
        }
        del := del || answer.each == REMOVE;
      }
    }

    /**
     * Visits items up to the first END or ERROR, then drops those answered REMOVE and destroys
     * each of them once.
     */
    method ForEach<U>(op: (Item, U) -> Answer<U>, data: U) returns (ok: bool, result: U)
      requires Valid()
      modifies this`head, this`tail, this`length, this`nodes, this`destroyed, repr
      ensures Valid()
      ensures var v := Visits(old(Items()), op, data);
              && result == v.data
              && (ok <==> ERROR !in v.codes)
              && Items() == Kept(old(Items()), v.codes)
              && destroyed == old(destroyed) + if destroys then Removed(old(Items()), v.codes) else []
    {
      if head == null {
        return true, data;
      }
      var del;
      ghost var codes;
      ok, del, result, codes := VisitNodes(op, data);
      SelectItems(nodes, codes, false, |nodes|);
      SelectItems(nodes, codes, true, |nodes|);
      SelectUnmarked(nodes, codes, |nodes|);
      if del {
        Prune(codes);
      } else {
        SelectAll(nodes, codes, |nodes|);
        SelectAll(Items(), codes, |nodes|);
      }
    }

    lemma {:induction false} SelectUnmarked(ns: seq<Node>, codes: seq<Each>, n: nat)
      requires n <= |ns| && forall k {:trigger MarkAt(ns, codes, k)} :: 0 <= k < |ns| ==> MarkAt(ns, codes, k)
      ensures forall m <- Select(ns, codes, false, n) :: !m.del
    {
      if n > 0 {
        SelectUnmarked(ns, codes, n - 1);
        assert MarkAt(ns, codes, n - 1);
      }
    }

    /** Removes and destroys every item equal to the given one, by identity or by the comparator. */
    method Remove(item: Item, cmp: Option<(Item, Item) -> int>) returns (found: bool)
      requires Valid()
      modifies this`head, this`tail, this`length, this`nodes, this`destroyed, repr
      ensures Valid()
      ensures Items() == Filter(old(Items()), x => !Same(cmp, x, item))
      ensures var gone := Filter(old(Items()), x => Same(cmp, x, item));
              && (found <==> gone != [])
              && destroyed == old(destroyed) + if destroys then gone else []
    {
      RemoveFilters(Items(), x => Same(cmp, x, item), x => !Same(cmp, x, item));
      var ok;
      ok, found := ForEach(RemoveOp(x => Same(cmp, x, item)), false);
    }

    /** The first item whose key matches; the list is not changed. */
    method Find(matches: Item -> bool) returns (item: Option<Item>)
      requires Valid()
      modifies this`head, this`tail, this`length, this`nodes, this`destroyed, repr
      ensures Valid() && Items() == old(Items()) && destroyed == old(destroyed)
      ensures item == First(Items(), matches)
    {
      FindStops(Items(), matches);
      var ok;
      ok, item := ForEach(FindOp(matches), None);
    }

    // ---- clear ----

    /** A popped node is in hand and the first n items, in pop order, have been destroyed. */
    ghost predicate Clearing(node: Node?, all: seq<Item>, n: nat, log: seq<Item>)
      reads this, repr
    {
      && Valid() && n <= |all|
      && (node == null ==> nodes == [] && n == |all|)
      && (node != null ==> all[n..] == [node.item] + PopOrder(mode, Items()))
      && destroyed == log + if destroys then all[..n] else []
    }

    /** Destroys the node in hand and pops the next. */
    method ClearNode(node: Node, ghost all: seq<Item>, ghost n: nat, ghost log: seq<Item>) returns (next: Node?)
      requires Clearing(node, all, n, log)
      modifies this`head, this`tail, this`length, this`nodes, this`destroyed, repr`next, repr`prev
      ensures n < |all| && Clearing(next, all, n + 1, log)
    {
      ghost var rest := PopOrder(mode, Items());
      Advance(all, n, node.item, rest, log);
      if destroys {
        destroyed := destroyed + [node.item];
      }
      next := DoPop();
      if next != null { PopsLastPushed(mode, next.item, Items()); }
    }

    /** Pops and destroys until the list is empty. */
    method Clear()
      requires Valid()
      modifies this`head, this`tail, this`length, this`nodes, this`destroyed, repr`next, repr`prev
      ensures Valid() && Items() == []
      ensures destroyed == old(destroyed) + if destroys then PopOrder(mode, old(Items())) else []
      ensures destroys && mode == Stack ==> destroyed == old(destroyed) + old(Items())
      ensures destroys && mode != Stack ==> destroyed == old(destroyed) + Reversed(old(Items()))
    {
      ghost var all, n := PopOrder(mode, Items()), 0;
      var node := DoPop();
      if node != null { PopsLastPushed(mode, node.item, Items()); }
      while node != null
        invariant Clearing(node, all, n, old(destroyed))
        decreases |all| - n
      {
        node := ClearNode(node, all, n, old(destroyed));
        n := n + 1;
      }
      assert all[..n] == all;
    }
  }

  // ---- whole-list operations ----

  /** An empty list takes over the nodes of `source`. */
  method TakeOver(dest: List, source: List)
    requires dest != source && dest.Valid() && source.Valid() && dest.nodes == []
    modifies dest`head, dest`tail, dest`length, dest`nodes, dest`repr
    modifies source`head, source`tail, source`length, source`nodes, source`repr
    ensures dest.Valid() && source.Valid() && source.repr == {} && dest.repr == old(source.repr)
    ensures dest.Items() == old(source.Items()) && source.Items() == []
  {
    dest.head := source.head;
    dest.tail := source.tail;
    dest.length := source.length;
    dest.nodes, dest.repr := source.nodes, source.repr;
    source.head := null;
    source.tail := null;
    source.length := 0;
    source.nodes, source.repr := [], {};
    forall k | 0 <= k < |dest.nodes| ensures NodeAt(dest.nodes, k) {
      assert old(NodeAt(source.nodes, k));
    }
  }

  /** Everything `dest` held is destroyed and it takes over the nodes of `source`. */
  method Transfer(dest: List, source: List)
    requires dest != source && dest.Valid() && source.Valid() && dest.repr !! source.repr
    modifies dest, source, dest.repr
    ensures dest.Valid() && source.Valid() && dest.repr !! source.repr
    ensures dest.Items() == old(source.Items()) && source.Items() == []
    ensures dest.destroyed == old(dest.destroyed) +
              if dest.destroys then PopOrder(dest.mode, old(dest.Items())) else []
    ensures source.destroyed == old(source.destroyed)
    ensures dest.sem == old(dest.sem) && source.sem == old(source.sem)
    ensures dest.limit == old(dest.limit) && source.limit == old(source.limit)
  {
    dest.Clear();
    TakeOver(dest, source);
  }

  /** The items of a list in the order in which they were pushed. */
  function PushOrder(mode: Mode, s: seq<Item>): seq<Item> {
    if mode == Stack then Reversed(s) else s
  }

  /** One by one, the clones of the items. */
  ghost predicate AreClones(s: seq<Item>, clones: seq<Item>, clone: Item -> Option<Item>) {
    |clones| == |s| && forall k :: 0 <= k < |s| ==> clone(s[k]) == Some(clones[k])
  }

  /** The callback of Clone: pushes the clone of one item. */
  method CloneNode(dest: List, item: Item, clone: Item -> Option<Item>) returns (each: Each)
    requires dest.Valid() && dest.limit == 0
    modifies dest, dest.repr
    ensures dest.Valid() && dest.limit == 0 && fresh(dest.repr - old(dest.repr))
    ensures each == if clone(item).Some? then OK else ERROR
    ensures each == OK ==>
              PushOrder(dest.mode, dest.Items()) == PushOrder(dest.mode, old(dest.Items())) + [clone(item).value]
  {
    var new_ := clone(item);
    if new_ == None { return ERROR; }
    ReversedPrepend(new_.value, dest.Items());
    var ok := dest.Push(new_.value);
    return OK;
  }

  /**
   * A list of the same mode into which the clone of every item has been pushed, in list order:
   * the same order, except that a stack comes out reversed.  Nothing when an item has no clone.
   */
  method Clone(source: List, clone: Item -> Option<Item>) returns (dest: List?)
    requires source.Valid()
    ensures dest == null <==> Traverse(clone, source.Items()).None?
    ensures dest != null ==>
              && fresh(dest) && fresh(dest.repr) && dest.Valid() && dest.mode == source.mode
              && Some(PushOrder(dest.mode, dest.Items())) == Traverse(clone, source.Items())
    ensures dest != null && dest.mode != Stack ==> AreClones(source.Items(), dest.Items(), clone)
    ensures dest != null && dest.mode == Stack ==> AreClones(source.Items(), Reversed(dest.Items()), clone)
  {
    var copy := new List(source.mode, source.destroys);
    ghost var items, i := source.Items(), 0;
    var cur := source.head;
    while cur != null
      invariant 0 <= i <= |items| && cur == if i == |items| then null else source.nodes[i]
      invariant fresh(copy) && fresh(copy.repr) && copy.Valid() && copy.limit == 0
      invariant Traverse(clone, items[..i]) == Some(PushOrder(copy.mode, copy.Items()))
      decreases |items| - i
    {
      assert NodeAt(source.nodes, i);
      TraverseStep(clone, items, i);
      var each := CloneNode(copy, cur.item, clone);
      if each == ERROR {
        copy.Clear();
        return null;
      }
      cur := cur.next;
      i := i + 1;
    }
    assert items[..i] == items;
    TraverseAt(clone, items);
    return copy;
  }

  lemma Advance(all: seq<Item>, n: nat, x: Item, rest: seq<Item>, log: seq<Item>)
    requires n <= |all| && all[n..] == [x] + rest
    ensures n < |all| && all[n + 1..] == rest && log + all[..n] + [x] == log + all[..n + 1]
  {
    assert all[n] == all[n..][0] && all[n + 1..] == all[n..][1..];
  }

  lemma Uncons(done: seq<Node>, s: seq<Node>, i: nat)
    requires i < |s|
    ensures var all, k := done + From(s, i), |done|;
            && k < |all| && all[k] == s[i]
            && (i + 1 < |s| <==> k + 1 < |all|)
            && (i + 1 < |s| ==> all[k + 1] == s[i + 1])
            && all[..k] + all[k + 1..] == done + From(s, i + 1)
            && all == (done + [s[i]]) + From(s, i + 1)
  {
    FromIsDrop(s, i);
    FromIsDrop(s, i + 1);
  }
}
