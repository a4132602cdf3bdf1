/**
 * Removing while iterating, between threads.  List_ForEach walks the list under the read lock and
 * marks the nodes its callback answers REMOVE; it then releases that lock, takes the write lock
 * and destroys every marked node.  Other iterations may walk at the same time, and between the two
 * passes nodes may be pushed, popped, or destroyed by another iteration's second pass.
 */
module ListPasses {
  import opened Common
  import opened ListSpec
  import Runs

  type Id = nat
  type Thread = nat

  datatype Node = Node(id: Id, del: bool)

  /** An iteration in its first pass, or about to take the write lock for its second. */
  datatype Pass = Walking(pos: nat, del: bool, last: bool) | Pruning

  datatype State = State(
    nodes: seq<Node>,
    passes: map<Thread, Pass>,
    // history
    pushed: set<Id>,
    answered: set<Id>,        // some callback answered REMOVE
    popped: multiset<Id>,
    destroyed: multiset<Id>)

  datatype Step =
    | Push(id: Id, front: bool)
    | Pop(front: bool)
    | Begin(t: Thread)
    | Call(t: Thread, answer: Each)
    | Unlock(t: Thread)
    | Prune(t: Thread)

  const EMPTY := State([], map[], {}, {}, multiset{}, multiset{})

  /** No thread holds the read lock. */
  predicate Unread(s: State) { forall t :: t in s.passes ==> s.passes[t].Pruning? }

  function IdSeq(nodes: seq<Node>): (ids: seq<Id>)
    ensures |ids| == |nodes| && forall k :: 0 <= k < |nodes| ==> ids[k] == nodes[k].id
  {
    seq(|nodes|, k requires 0 <= k < |nodes| => nodes[k].id)
  }

  function Ids(nodes: seq<Node>): multiset<Id> { multiset(IdSeq(nodes)) }

  /** The nodes that are marked, or that are not, in order. */
  function Marked(nodes: seq<Node>, del: bool): seq<Node> {
    if nodes == [] then []
    else
      var n := |nodes| - 1;
      Marked(nodes[..n], del) + if nodes[n].del == del then [nodes[n]] else []
  }

  predicate Enabled(s: State, step: Step) {
    match step
    case Push(id, _) => Unread(s) && id !in s.pushed
    case Pop(_) => Unread(s) && s.nodes != []
    case Begin(t) => t !in s.passes
    case Call(t, _) =>
      && t in s.passes && s.passes[t].Walking? && !s.passes[t].last && s.passes[t].pos < |s.nodes|
    case Unlock(t) =>
      && t in s.passes && s.passes[t].Walking? && (s.passes[t].last || s.passes[t].pos == |s.nodes|)
    case Prune(t) => Unread(s) && t in s.passes && s.passes[t].Pruning?
  }

  function DoCall(s: State, t: Thread, answer: Each): State
    requires Enabled(s, Call(t, answer))
  {
    var p := s.passes[t];
    var x := s.nodes[p.pos];
    if answer == REMOVE then
      s.(nodes := s.nodes[p.pos := x.(del := true)], answered := s.answered + {x.id},
         passes := s.passes[t := Walking(p.pos + 1, true, false)])
    else s.(passes := s.passes[t := Walking(p.pos + 1, p.del, Stops(answer))])
  }

  function Apply(s: State, step: Step): State
    requires Enabled(s, step)
  {
    match step
    case Push(id, front) =>
      var x := Node(id, false);
      s.(nodes := if front then [x] + s.nodes else s.nodes + [x], pushed := s.pushed + {id})
    case Pop(front) =>
      var n := |s.nodes| - 1;
      if front then s.(nodes := s.nodes[1..], popped := s.popped + multiset{s.nodes[0].id})
      else s.(nodes := s.nodes[..n], popped := s.popped + multiset{s.nodes[n].id})
    case Begin(t) => s.(passes := s.passes[t := Walking(0, false, false)])
    case Call(t, answer) => DoCall(s, t, answer)
    case Unlock(t) => s.(passes := if s.passes[t].del then s.passes[t := Pruning] else s.passes - {t})
    case Prune(t) =>
      s.(nodes := Marked(s.nodes, false), destroyed := s.destroyed + Ids(Marked(s.nodes, true)),
         passes := s.passes - {t})
  }

  // ---- the invariant ----

  /** What was pushed is in the list, or was popped, or was destroyed, once; only what was answered REMOVE is destroyed. */
  ghost predicate IdOk(s: State, id: Id) {
    && Ids(s.nodes)[id] + s.popped[id] + s.destroyed[id] == (if id in s.pushed then 1 else 0)
    && (s.destroyed[id] > 0 ==> id in s.answered)
    && (id in s.answered ==> id in s.pushed)
  }

  /** A node is marked exactly when a callback answered REMOVE. */
  ghost predicate MarksOk(nodes: seq<Node>, answered: set<Id>) {
    forall k :: 0 <= k < |nodes| ==> (nodes[k].del <==> nodes[k].id in answered)
  }

  ghost predicate AnyMarked(nodes: seq<Node>) { exists k :: 0 <= k < |nodes| && nodes[k].del }

  /** An iteration that will make its second pass. */
  ghost predicate WillPrune(p: Pass) { p.Pruning? || p.del }

  ghost predicate Due(passes: map<Thread, Pass>) { exists t :: t in passes && WillPrune(passes[t]) }

  /** An iteration in its first pass is at a node of the list or at its end. */
  ghost predicate WalksOk(s: State) {
    forall t :: t in s.passes && s.passes[t].Walking? ==> s.passes[t].pos <= |s.nodes|
  }

  ghost predicate Inv(s: State) {
    && WalksOk(s)
    && (forall id {:trigger IdOk(s, id)} :: IdOk(s, id))
    && MarksOk(s.nodes, s.answered)
    && (AnyMarked(s.nodes) ==> Due(s.passes))
  }

  lemma IdsPush(nodes: seq<Node>, x: Node)
    ensures Ids(nodes + [x]) == Ids(nodes) + multiset{x.id} && Ids([x] + nodes) == multiset{x.id} + Ids(nodes)
  {
    assert IdSeq(nodes + [x]) == IdSeq(nodes) + [x.id] && IdSeq([x] + nodes) == [x.id] + IdSeq(nodes);
  }

  lemma {:induction false} IdsMarked(nodes: seq<Node>)
    ensures Ids(Marked(nodes, true)) + Ids(Marked(nodes, false)) == Ids(nodes)
    ensures forall x <- Marked(nodes, true) :: x.del && x in nodes
    ensures forall x <- Marked(nodes, false) :: !x.del && x in nodes
  {
    if nodes != [] {
      var front, x := nodes[..|nodes| - 1], nodes[|nodes| - 1];
      assert nodes == front + [x];
      IdsMarked(front);
      IdsPush(front, x);
      IdsPush(Marked(front, x.del), x);
      assert Marked(front, !x.del) + [] == Marked(front, !x.del);
    }
  }

  // ---- one lemma for each step ----

  lemma PushKeeps(s: State, id: Id, front: bool)
    requires Inv(s) && Enabled(s, Push(id, front))
    ensures Inv(Apply(s, Push(id, front)))
  {
    var r, x := Apply(s, Push(id, front)), Node(id, false);
    IdsPush(s.nodes, x);
    forall j ensures IdOk(r, j) { assert IdOk(s, j); }
    assert IdOk(s, id);
    assert forall k :: 0 <= k < |r.nodes| ==> r.nodes[k] == x || r.nodes[k] in s.nodes;
    assert AnyMarked(r.nodes) ==> AnyMarked(s.nodes);
  }

  /** Taking out a node. */
  lemma TakeKeeps(s: State, r: State, x: Node)
    requires Inv(s) && Unread(s) && r == s.(nodes := r.nodes, popped := s.popped + multiset{x.id})
    requires Ids(s.nodes) == Ids(r.nodes) + multiset{x.id} && forall n <- r.nodes :: n in s.nodes
    ensures Inv(r)
  {
    forall j ensures IdOk(r, j) { assert IdOk(s, j); }
    assert forall k :: 0 <= k < |r.nodes| ==> r.nodes[k] in s.nodes;
  }

  lemma PopKeeps(s: State, front: bool)
    requires Inv(s) && Enabled(s, Pop(front))
    ensures Inv(Apply(s, Pop(front)))
  {
    var r, x := Apply(s, Pop(front)), if front then s.nodes[0] else s.nodes[|s.nodes| - 1];
    assert s.nodes == if front then [x] + r.nodes else r.nodes + [x];
    IdsPush(r.nodes, x);
    TakeKeeps(s, r, x);
  }

  lemma MarkKeeps(s: State, t: Thread)
    requires Inv(s) && Enabled(s, Call(t, REMOVE))
    ensures Inv(Apply(s, Call(t, REMOVE)))
  {
    var r, pos := Apply(s, Call(t, REMOVE)), s.passes[t].pos;
    var id := s.nodes[pos].id;
    assert IdSeq(r.nodes) == IdSeq(s.nodes);
    assert IdOk(s, id);
    forall j ensures IdOk(r, j) && Ids(s.nodes)[j] <= 1 { assert IdOk(s, j); }
    OnceMeansDistinct(IdSeq(s.nodes));
    assert forall k :: 0 <= k < |s.nodes| && k != pos ==> IdSeq(s.nodes)[k] != IdSeq(s.nodes)[pos];
    assert t in r.passes && WillPrune(r.passes[t]);
  }

  /** Steps of an iteration that leave the nodes alone. */
  lemma WalkKeeps(s: State, step: Step)
    requires Inv(s) && Enabled(s, step)
    requires step.Begin? || step.Unlock? || (step.Call? && step.answer != REMOVE)
    ensures Inv(Apply(s, step))
  {
    var r := Apply(s, step);
    forall j ensures IdOk(r, j) { assert IdOk(s, j); }
    if Due(s.passes) {
      var u :| u in s.passes && WillPrune(s.passes[u]);
      assert u in r.passes && WillPrune(r.passes[u]);
    }
  }

  lemma PruneKeeps(s: State, t: Thread)
    requires Inv(s) && Enabled(s, Prune(t))
    ensures Inv(Apply(s, Prune(t)))
  {
    var r, gone := Apply(s, Prune(t)), Marked(s.nodes, true);
    IdsMarked(s.nodes);
    assert forall k :: 0 <= k < |r.nodes| ==> !r.nodes[k].del && r.nodes[k] in s.nodes;
    forall j ensures IdOk(r, j) {
      assert IdOk(s, j);
      if j in Ids(gone) {
        var k :| 0 <= k < |gone| && IdSeq(gone)[k] == j;
        assert gone[k].del && gone[k] in s.nodes;
      }
    }
  }

  lemma StepKeeps(s: State, step: Step)
    requires Inv(s) && Enabled(s, step)
    ensures Inv(Apply(s, step))
  {
    match step
    case Push(id, front) => PushKeeps(s, id, front);
    case Pop(front) => PopKeeps(s, front);
    case Begin(_) => WalkKeeps(s, step);
    case Call(t, answer) => if answer == REMOVE { MarkKeeps(s, t); } else { WalkKeeps(s, step); }
    case Unlock(_) => WalkKeeps(s, step);
    case Prune(t) => PruneKeeps(s, t);
  }

  // ---- runs ----

  predicate Init(s: State) { s == EMPTY }

  predicate Next(s: State, step: Step, r: State) { Enabled(s, step) && Apply(s, step) == r }

  ghost predicate Run(states: seq<State>, steps: seq<Step>) { Runs.Run(Init, Next, states, steps) }

  lemma {:induction false} RunKeeps(states: seq<State>, steps: seq<Step>, k: nat)
    requires Run(states, steps) && k < |states|
    ensures Inv(states[k])
  {
    if k == 0 {
      forall id ensures IdOk(states[0], id) {}
    } else {
      RunKeeps(states, steps, k - 1);
      assert Runs.StepAt(Next, states, steps, k - 1);
      StepKeeps(states[k - 1], steps[k - 1]);
    }
  }

  /**
   * In every interleaving an item answered REMOVE is still in the list, or was destroyed once, or
   * was handed to one pop, and no other item is destroyed.  While one is still in the list some
   * iteration has its second pass before it; so when none is under way, each was destroyed or
   * popped.
   */
  lemma RemovedOnce(states: seq<State>, steps: seq<Step>, k: nat, id: Id)
    requires Run(states, steps) && k < |states|
    ensures var s := states[k];
            && (s.destroyed[id] > 0 ==> id in s.answered)
            && (id in s.answered ==> Ids(s.nodes)[id] + s.popped[id] + s.destroyed[id] == 1)
            && (id in s.answered && id in Ids(s.nodes) ==> Due(s.passes))
            && (id in s.answered && s.passes == map[] ==> s.popped[id] + s.destroyed[id] == 1)
  {
    RunKeeps(states, steps, k);
    var s := states[k];
    assert IdOk(s, id);
    if id in s.answered && id in Ids(s.nodes) {
      var j :| 0 <= j < |s.nodes| && IdSeq(s.nodes)[j] == id;
      assert s.nodes[j].del && AnyMarked(s.nodes);
    }
  }

  /** A pop can take a node between the two passes: its item is then handed over, not destroyed. */
  lemma MarkedIsPopped()
    ensures exists s :: Runs.Reachable(Init, Next, s) && 0 in s.answered && s.popped[0] == 1 && s.destroyed[0] == 0
  {
    Runs.ReachInit(Init, Next, EMPTY);
    var a := EMPTY.(nodes := [Node(0, false)], pushed := {0});
    Runs.ReachNext(Init, Next, EMPTY, Push(0, false), a);
    var b := a.(passes := map[0 := Walking(0, false, false)]);
    Runs.ReachNext(Init, Next, a, Begin(0), b);
    var c := b.(nodes := [Node(0, true)], answered := {0}, passes := map[0 := Walking(1, true, false)]);
    Runs.ReachNext(Init, Next, b, Call(0, REMOVE), c);
    var d := c.(passes := map[0 := Pruning]);
    Runs.ReachNext(Init, Next, c, Unlock(0), d);
    Runs.ReachNext(Init, Next, d, Pop(false), Apply(d, Pop(false)));
    assert Apply(d, Pop(false)).popped == multiset{0};
  }
}
