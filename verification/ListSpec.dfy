/** What the list operations of src/list.c mean on plain sequences. */
module ListSpec {
  import opened Common

  datatype Mode = Generic | Stack | Queue

  /** What an iteration callback answers. */
  datatype Each = OK | ERROR | REMOVE | END

  // ---- iteration ----

  datatype Answer<U> = Answer(each: Each, data: U)
  datatype Visit<U> = Visit(codes: seq<Each>, data: U)

  predicate Stops(e: Each) { e == END || e == ERROR }

  /** The callback's answers for the items visited, with its user data threaded through. */
  function Visits<T, U>(s: seq<T>, op: (T, U) -> Answer<U>, data: U): (v: Visit<U>)
    ensures |v.codes| <= |s|
  {
    if s == [] then Visit([], data)
    else
      var a := op(s[0], data);
      if Stops(a.each) then Visit([a.each], a.data)
      else
        var v := Visits(s[1..], op, a.data);
        Visit([a.each] + v.codes, v.data)
  }

  ghost function After<U>(codes: seq<Each>, v: Visit<U>): Visit<U> {
    Visit(codes + v.codes, v.data)
  }

  lemma VisitsStep<T, U>(codes: seq<Each>, s: seq<T>, op: (T, U) -> Answer<U>, data: U)
    requires s != []
    ensures var a := op(s[0], data);
            After(codes, Visits(s, op, data)) ==
            if Stops(a.each) then Visit(codes + [a.each], a.data)
            else After(codes + [a.each], Visits(s[1..], op, a.data))
  {}

  /** The user data the callback sees at the k-th item. */
  function DataAt<T, U>(s: seq<T>, op: (T, U) -> Answer<U>, data: U, k: nat): U
    requires k <= |s|
  {
    if k == 0 then data else DataAt(s[1..], op, op(s[0], data).data, k - 1)
  }

  /** The answers are those of the items in order, up to and including the first END or ERROR. */
  lemma {:induction false} VisitsPrefix<T, U>(s: seq<T>, op: (T, U) -> Answer<U>, data: U)
    ensures var codes := Visits(s, op, data).codes;
            && (forall k :: 0 <= k < |codes| ==> codes[k] == op(s[k], DataAt(s, op, data, k)).each)
            && (forall k :: 0 <= k < |codes| - 1 ==> !Stops(codes[k]))
            && (|codes| < |s| ==> codes != [] && Stops(codes[|codes| - 1]))
            && Visits(s, op, data).data == DataAt(s, op, data, |codes|)
  {
    if s != [] {
      var a := op(s[0], data);
      var codes := Visits(s, op, data).codes;
      if !Stops(a.each) {
        VisitsPrefix(s[1..], op, a.data);
        forall k | 0 < k < |codes| ensures codes[k] == op(s[k], DataAt(s, op, data, k)).each {
          assert s[k] == s[1..][k - 1];
        }
      }
    }
  }

  // ---- what an iteration keeps and removes ----

  /** Whether the answers mark item k for removal. */
  predicate Marked(codes: seq<Each>, k: nat) {
    k < |codes| && codes[k] == REMOVE
  }

  /** Of the first n items, those marked for removal or those not, in order. */
  function Select<T>(s: seq<T>, codes: seq<Each>, marked: bool, n: nat): (r: seq<T>)
    requires n <= |s|
  {
    if n == 0 then []
    else
      var r := Select(s, codes, marked, n - 1);
      if Marked(codes, n - 1) == marked then r + [s[n - 1]] else r
  }

  /** The items that stay: those not visited, and those not answered REMOVE. */
  function Kept<T>(s: seq<T>, codes: seq<Each>): seq<T> { Select(s, codes, false, |s|) }

  function Removed<T>(s: seq<T>, codes: seq<Each>): seq<T> { Select(s, codes, true, |s|) }

  lemma {:induction false} SelectAll<T>(s: seq<T>, codes: seq<Each>, n: nat)
    requires n <= |s| && REMOVE !in codes
    ensures Select(s, codes, false, n) == s[..n] && Select(s, codes, true, n) == []
  {
    if n > 0 { SelectAll(s, codes, n - 1); }
  }

  // ---- removal and search ----

  /** Identity, or equality by the comparator where there is one. */
  predicate Same<T(==)>(cmp: Option<(T, T) -> int>, a: T, b: T) {
    a == b || (cmp.Some? && cmp.value(a, b) == 0)
  }

  function Filter<T>(s: seq<T>, p: T -> bool): (r: seq<T>)
    ensures forall k :: 0 <= k < |r| ==> p(r[k]) && r[k] in s
    ensures forall k :: 0 <= k < |s| && p(s[k]) ==> s[k] in r
  {
    if s == [] then []
    else
      var n := |s| - 1;
      if p(s[n]) then Filter(s[..n], p) + [s[n]] else Filter(s[..n], p)
  }

  lemma FilterStep<T>(s: seq<T>, n: nat, p: T -> bool)
    requires n < |s|
    ensures Filter(s[..n + 1], p) == if p(s[n]) then Filter(s[..n], p) + [s[n]] else Filter(s[..n], p)
  {
    assert s[..n + 1][..n] == s[..n];
  }

  lemma {:induction false} SelectFilters<T>(s: seq<T>, codes: seq<Each>, marked: bool, n: nat, p: T -> bool)
    requires n <= |s| && forall k :: 0 <= k < n ==> ((Marked(codes, k) == marked) <==> p(s[k]))
    ensures Select(s, codes, marked, n) == Filter(s[..n], p)
  {
    if n > 0 {
      SelectFilters(s, codes, marked, n - 1, p);
      FilterStep(s, n - 1, p);
    }
  }

  /** The callback of List_Remove: its user data records whether anything matched. */
  function RemoveOp<T>(p: T -> bool): (T, bool) -> Answer<bool> {
    (x, seen) => if p(x) then Answer(REMOVE, true) else Answer(OK, seen)
  }

  lemma RemoveCodes<T>(s: seq<T>, p: T -> bool)
    ensures var codes := Visits(s, RemoveOp(p), false).codes;
            |codes| == |s| && forall k :: 0 <= k < |s| ==> codes[k] == if p(s[k]) then REMOVE else OK
  {
    var codes := Visits(s, RemoveOp(p), false).codes;
    VisitsPrefix(s, RemoveOp(p), false);
    forall k | 0 <= k < |codes| ensures codes[k] == if p(s[k]) then REMOVE else OK {
      assert codes[k] == RemoveOp(p)(s[k], DataAt(s, RemoveOp(p), false, k)).each;
    }
  }

  lemma {:induction false} RemoveSeen<T>(s: seq<T>, p: T -> bool, seen: bool)
    ensures Visits(s, RemoveOp(p), seen).data == (seen || exists k :: 0 <= k < |s| && p(s[k]))
  {
    if s != [] {
      RemoveSeen(s[1..], p, RemoveOp(p)(s[0], seen).data);
      assert forall k :: 1 <= k < |s| ==> s[k] == s[1..][k - 1];
      assert forall k :: 0 <= k < |s| - 1 ==> s[1..][k] == s[k + 1];
    }
  }

  /** It removes all matches and nothing else, and reports whether there were any. */
  lemma RemoveFilters<T>(s: seq<T>, p: T -> bool, q: T -> bool)
    requires forall x :: q(x) == !p(x)
    ensures var v := Visits(s, RemoveOp(p), false);
            && Kept(s, v.codes) == Filter(s, q) && Removed(s, v.codes) == Filter(s, p)
            && v.data == (Filter(s, p) != [])
  {
    var codes := Visits(s, RemoveOp(p), false).codes;
    RemoveCodes(s, p);
    SelectFilters(s, codes, false, |s|, q);
    SelectFilters(s, codes, true, |s|, p);
    assert s[..|s|] == s;
    RemoveSeen(s, p, false);
    if Filter(s, p) != [] { assert p(Filter(s, p)[0]); }
  }

  /** The position of the first item that satisfies the test, or the length when none does. */
  function FirstIndex<T>(s: seq<T>, p: T -> bool): (i: nat)
    ensures i <= |s| && (i < |s| ==> p(s[i])) && forall j :: 0 <= j < i ==> !p(s[j])
  {
    if s == [] || p(s[0]) then 0
    else
      assert forall k :: 1 <= k < |s| ==> s[k] == s[1..][k - 1];
      1 + FirstIndex(s[1..], p)
  }

  function First<T>(s: seq<T>, p: T -> bool): Option<T> {
    var i := FirstIndex(s, p);
    if i < |s| then Some(s[i]) else None
  }

  /** The callback of List_Find: it stops at the first match and hands it back. */
  function FindOp<T>(p: T -> bool): (T, Option<T>) -> Answer<Option<T>> {
    (x, found) => if p(x) then Answer(END, Some(x)) else Answer(OK, found)
  }

  lemma FindStops<T>(s: seq<T>, p: T -> bool)
    ensures var v := Visits(s, FindOp(p), None);
            && Kept(s, v.codes) == s && Removed(s, v.codes) == [] && v.data == First(s, p)
  {
    var codes := Visits(s, FindOp(p), None).codes;
    VisitsPrefix(s, FindOp(p), None);
    forall k | 0 <= k < |codes| ensures codes[k] != REMOVE {
      assert codes[k] == FindOp(p)(s[k], DataAt(s, FindOp(p), None, k)).each;
    }
    SelectAll(s, codes, |s|);
    FindsFirst(s, p);
  }

  lemma {:induction false} FindsFirst<T>(s: seq<T>, p: T -> bool)
    ensures Visits(s, FindOp(p), None).data == First(s, p)
  {
    if s != [] { FindsFirst(s[1..], p); }
  }

  /** The items from position i on. */
  function From<T>(s: seq<T>, i: nat): seq<T>
    requires i <= |s|
    decreases |s| - i
  {
    if i == |s| then [] else [s[i]] + From(s, i + 1)
  }

  lemma {:induction false} FromIsDrop<T>(s: seq<T>, i: nat)
    requires i <= |s|
    decreases |s| - i
    ensures From(s, i) == s[i..]
  {
    if i < |s| { FromIsDrop(s, i + 1); }
  }

  /** The items but the k-th. */
  function Cut<T>(s: seq<T>, k: nat, i: nat := 0): seq<T>
    requires i <= |s|
    decreases |s| - i
  {
    if i == |s| then [] else if i == k then Cut(s, k, i + 1) else [s[i]] + Cut(s, k, i + 1)
  }

  lemma {:induction false} CutIs<T>(s: seq<T>, k: nat, i: nat)
    requires i <= |s| && k < |s|
    decreases |s| - i
    ensures Cut(s, k, i) == if i <= k then s[i..k] + s[k + 1..] else s[i..]
  {
    if i < |s| { CutIs(s, k, i + 1); }
  }

  // ---- pushing and popping ----

  function Reversed<T>(s: seq<T>): seq<T> {
    if s == [] then [] else [s[|s| - 1]] + Reversed(s[..|s| - 1])
  }

  lemma {:induction false} ReversedPrepend<T>(x: T, s: seq<T>)
    ensures Reversed([x] + s) == Reversed(s) + [x]
  {
    if s != [] {
      assert ([x] + s)[..|s|] == [x] + s[..|s| - 1];
      ReversedPrepend(x, s[..|s| - 1]);
    }
  }

  /** Where a push puts an item: at the head of a stack, at the tail of any other list. */
  function Pushed<T>(mode: Mode, x: T, s: seq<T>): seq<T> {
    if mode == Stack then [x] + s else s + [x]
  }

  /** The order in which a list of the given mode gives up its items. */
  function PopOrder<T>(mode: Mode, s: seq<T>): seq<T> {
    if mode == Stack then s else Reversed(s)
  }

  lemma {:induction false} ReversedAt<T>(s: seq<T>)
    ensures |Reversed(s)| == |s| && forall k :: 0 <= k < |s| ==> Reversed(s)[k] == s[|s| - 1 - k]
  {
    if s != [] { ReversedAt(s[..|s| - 1]); }
  }

  /** A stack gives up its items from head to tail, any other list from tail to head. */
  lemma PopOrderAt<T>(mode: Mode, s: seq<T>)
    ensures var order := PopOrder(mode, s);
            && |order| == |s|
            && forall k :: 0 <= k < |s| ==> order[k] == if mode == Stack then s[k] else s[|s| - 1 - k]
  {
    ReversedAt(s);
  }

  /** Every mode is last in, first out. */
  lemma PopsLastPushed<T>(mode: Mode, x: T, s: seq<T>)
    ensures PopOrder(mode, Pushed(mode, x, s)) == [x] + PopOrder(mode, s)
  {
    if mode != Stack { assert (s + [x])[..|s|] == s; }
  }
}
