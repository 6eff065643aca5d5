/** Sums over finite maps. */
module Sums {

  ghost function Sum<K>(m: map<K, nat>): nat {
    if m == map[] then 0
    else
      var k :| k in m;
      Sum(m - {k}) + m[k]
  }

  /** The value at `k`, zero when absent. */
  function At<K>(m: map<K, nat>, k: K): nat { if k in m then m[k] else 0 }

  lemma {:induction false} SumWithout<K>(m: map<K, nat>, k: K)
    ensures Sum(m) == Sum(m - {k}) + At(m, k)
    decreases |m|
  {
    if k !in m {
      assert m - {k} == m;
    } else {
      var j :| j in m && Sum(m) == Sum(m - {j}) + m[j];
      if j != k {
        SumWithout(m - {j}, k);
        SumWithout(m - {k}, j);
        assert m - {j} - {k} == m - {k} - {j};
      }
    }
  }

  /** Two maps that agree off one key differ in their sums by exactly that key. */
  lemma SumsDifferAt<K>(m: map<K, nat>, n: map<K, nat>, k: K)
    requires m - {k} == n - {k}
    ensures Sum(m) + At(n, k) == Sum(n) + At(m, k)
  {
    SumWithout(m, k);
    SumWithout(n, k);
  }

  /** A part of a map sums to no more than the whole. */
  lemma {:induction false} SumOfPart<K>(part: map<K, nat>, whole: map<K, nat>)
    requires forall k :: k in part ==> k in whole && part[k] <= whole[k]
    ensures Sum(part) <= Sum(whole)
    decreases |part|
  {
    if part != map[] {
      var k :| k in part;
      SumWithout(part, k);
      SumWithout(whole, k);
      SumOfPart(part - {k}, whole - {k});
    }
  }

  lemma EntryWithinSum<K>(m: map<K, nat>, k: K)
    requires k in m
    ensures m[k] <= Sum(m)
  {}
}
