/** Value types and facts about sequences shared by the models. */
module Common {

  newtype Byte = x: int | 0 <= x < 256

  datatype Option<+T> = None | Some(value: T) {
    predicate IsFailure() { None? }
    function PropagateFailure<U>(): Option<U> requires None? { None }
    function Extract(): T requires Some? { value }
  }

  lemma MultisetPop<T>(q: seq<T>)
    requires q != []
    ensures multiset(q) == multiset(q[..|q| - 1]) + multiset{q[|q| - 1]}
  {
    assert q == q[..|q| - 1] + [q[|q| - 1]];
  }

  lemma OnceMeansDistinct<T(!new)>(q: seq<T>)
    requires forall i :: multiset(q)[i] <= 1
    ensures forall a, b :: 0 <= a < b < |q| ==> q[a] != q[b]
  {
    forall a, b | 0 <= a < b < |q| ensures q[a] != q[b] {
      var front, back := q[..b], q[b + 1..];
      assert q == front + [q[b]] + back;
      assert multiset(q) == multiset(front) + multiset{q[b]} + multiset(back);
      assert front[a] == q[a] && q[a] in front;
      assert multiset(q)[q[b]] <= 1;
    }
  }

  /** The results of a partial function on every element, in order, when it has one on each. */
  function Traverse<T, U>(f: T -> Option<U>, s: seq<T>): Option<seq<U>> {
    if s == [] then Some([])
    else
      var front :- Traverse(f, s[..|s| - 1]);
      var last :- f(s[|s| - 1]);
      Some(front + [last])
  }

  lemma {:induction false} TraverseAt<T, U>(f: T -> Option<U>, s: seq<T>)
    ensures Traverse(f, s).Some? <==> forall k :: 0 <= k < |s| ==> f(s[k]).Some?
    ensures Traverse(f, s).Some? ==>
              var r := Traverse(f, s).value;
              |r| == |s| && forall k :: 0 <= k < |s| ==> f(s[k]) == Some(r[k])
  {
    if s != [] {
      TraverseAt(f, s[..|s| - 1]);
      assert forall k :: 0 <= k < |s| - 1 ==> s[..|s| - 1][k] == s[k];
    }
  }

  lemma TraverseStep<T, U>(f: T -> Option<U>, s: seq<T>, i: nat)
    requires i < |s| && Traverse(f, s[..i]).Some?
    ensures f(s[i]).None? ==> Traverse(f, s).None?
    ensures f(s[i]).Some? ==> Traverse(f, s[..i + 1]) == Some(Traverse(f, s[..i]).value + [f(s[i]).value])
  {
    assert s[..i + 1][..i] == s[..i];
    TraverseAt(f, s);
  }
}
