/** Sums over the values of finite maps and over sequences. */
module Sums {

  function Total(s: seq<nat>): nat {
    if s == [] then 0 else s[0] + Total(s[1..])
  }

  lemma {:induction false} TotalAppend(s: seq<nat>, n: nat)
    ensures Total(s + [n]) == Total(s) + n
  {
    if s != [] {
      assert (s + [n])[1..] == s[1..] + [n];
      TotalAppend(s[1..], n);
    }
  }

  ghost function Sum(m: map<nat, nat>): nat {
    if m == map[] then 0
    else
      var k :| k in m;
      m[k] + Sum(m - {k})
  }

  ghost function Get(m: map<nat, nat>, k: nat): nat { if k in m then m[k] else 0 }

  lemma {:induction false} SumRemove(m: map<nat, nat>, k: nat)
    decreases |m|
    ensures Sum(m) == Get(m, k) + Sum(m - {k})
  {
    if k !in m {
      assert m - {k} == m;
    } else {
      var j :| j in m && Sum(m) == m[j] + Sum(m - {j});
      if j != k {
        SumRemove(m - {j}, k);
        SumRemove(m - {k}, j);
        assert m - {j} - {k} == m - {k} - {j};
      }
    }
  }

  lemma SumPut(m: map<nat, nat>, k: nat, v: nat)
    ensures Sum(m[k := v]) == Sum(m) - Get(m, k) + v
  {
    SumRemove(m, k);
    SumRemove(m[k := v], k);
    assert m[k := v] - {k} == m - {k};
  }

  ghost function Ones(m: map<nat, nat>): set<nat> { set k | k in m && m[k] == 1 }

  lemma OnesRemove(m: map<nat, nat>, k: nat)
    requires k in m
    ensures |Ones(m)| == |Ones(m - {k})| + if m[k] == 1 then 1 else 0
  {
    assert Ones(m) == Ones(m - {k}) + if m[k] == 1 then {k} else {};
  }

  /** A sum of zeros and ones counts the ones. */
  lemma {:induction false} SumOfOnes(m: map<nat, nat>)
    requires forall k :: k in m ==> m[k] <= 1
    decreases |m|
    ensures Sum(m) == |Ones(m)|
  {
    if m != map[] {
      var k :| k in m && Sum(m) == m[k] + Sum(m - {k});
      SumOfOnes(m - {k});
      OnesRemove(m, k);
    }
  }
}
