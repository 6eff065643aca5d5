/** Filtering and bounded queues. */
module Sequences {
  /** `retain`: the elements that satisfy `keep`, in order. */
  function Filter<T>(keep: T -> bool, s: seq<T>): seq<T>
    decreases |s|
  {
    if s == [] then [] else (if keep(s[0]) then [s[0]] else []) + Filter(keep, s[1..])
  }

  /** Append to a bounded queue, dropping from the front while it is full. */
  function PushBounded<T>(q: seq<T>, x: T, capacity: nat): seq<T>
    requires capacity > 0
  {
    (if |q| >= capacity then q[|q| - capacity + 1..] else q) + [x]
  }

  lemma FilterSingle<T>(keep: T -> bool, x: T)
    ensures Filter(keep, [x]) == if keep(x) then [x] else []
  {
    assert [x][1..] == [];
  }

  lemma {:induction false} FilterMember<T>(keep: T -> bool, s: seq<T>, x: T)
    ensures x in Filter(keep, s) <==> x in s && keep(x)
    decreases |s|
  {
    if s != [] {
      FilterMember(keep, s[1..], x);
      assert s == [s[0]] + s[1..];
    }
  }

  lemma {:induction false} FilterLength<T>(keep: T -> bool, s: seq<T>)
    ensures |Filter(keep, s)| <= |s|
    decreases |s|
  {
    if s != [] {
      FilterLength(keep, s[1..]);
    }
  }

  /** Every earlier element is related to every later one. */
  ghost predicate Pairwise<T>(r: (T, T) -> bool, s: seq<T>) {
    forall i, j :: 0 <= i < j < |s| ==> r(s[i], s[j])
  }

  /** A relation between earlier and later elements survives filtering. */
  lemma {:induction false} FilterPairwise<T>(keep: T -> bool, r: (T, T) -> bool, s: seq<T>)
    requires Pairwise(r, s)
    ensures Pairwise(r, Filter(keep, s))
    decreases |s|
  {
    if s != [] {
      var rest := Filter(keep, s[1..]);
      FilterPairwise(keep, r, s[1..]);
      if keep(s[0]) {
        forall x | x in rest ensures r(s[0], x) {
          FilterMember(keep, s[1..], x);
          var k :| 0 <= k < |s[1..]| && s[1..][k] == x;
          assert r(s[0], s[k + 1]);
        }
        PairwiseCons(r, s[0], rest);
      } else {
        assert Filter(keep, s) == rest;
      }
    }
  }

  lemma PairwiseCons<T>(r: (T, T) -> bool, x: T, rest: seq<T>)
    requires Pairwise(r, rest) && (forall y :: y in rest ==> r(x, y))
    ensures Pairwise(r, [x] + rest)
  {}

  lemma {:induction false} FilterAll<T>(keep: T -> bool, s: seq<T>)
    requires forall x :: x in s ==> keep(x)
    ensures Filter(keep, s) == s
    decreases |s|
  {
    if s != [] {
      FilterAll(keep, s[1..]);
    }
  }

  lemma {:induction false} FilterAgrees<T>(p: T -> bool, q: T -> bool, s: seq<T>)
    requires forall x :: x in s ==> p(x) == q(x)
    ensures Filter(p, s) == Filter(q, s)
    decreases |s|
  {
    if s != [] {
      FilterAgrees(p, q, s[1..]);
    }
  }

  /** The stricter of two filters makes the looser one superfluous. */
  lemma {:induction false} FilterTwice<T>(loose: T -> bool, strict: T -> bool, s: seq<T>)
    requires forall x :: x in s && strict(x) ==> loose(x)
    ensures Filter(strict, Filter(loose, s)) == Filter(strict, s)
    decreases |s|
  {
    if s != [] {
      FilterTwice(loose, strict, s[1..]);
      var rest := Filter(loose, s[1..]);
      if loose(s[0]) {
        assert ([s[0]] + rest)[1..] == rest;
        assert Filter(loose, s) == [s[0]] + rest;
      } else {
        assert Filter(loose, s) == rest;
      }
    }
  }

  lemma {:induction false} FilterNone<T>(keep: T -> bool, s: seq<T>)
    requires forall x :: x in s ==> !keep(x)
    ensures Filter(keep, s) == []
    decreases |s|
  {
    if s != [] {
      FilterNone(keep, s[1..]);
    }
  }

  /** One position of the list, and no other, satisfies the test. */
  ghost predicate OnlyAt<T>(keep: T -> bool, s: seq<T>, i: nat) {
    i < |s| && keep(s[i]) && (forall j :: 0 <= j < |s| && j != i ==> !keep(s[j]))
  }

  lemma {:induction false} FilterOne<T>(keep: T -> bool, s: seq<T>) returns (i: nat)
    requires |Filter(keep, s)| == 1
    ensures OnlyAt(keep, s, i) && Filter(keep, s)[0] == s[i]
    decreases |s|
  {
    if keep(s[0]) {
      i := 0;
      forall j | 0 < j < |s| ensures !keep(s[j]) {
        FilterMember(keep, s[1..], s[j]);
        assert s[j] == s[1..][j - 1];
      }
    } else {
      assert Filter(keep, s) == Filter(keep, s[1..]);
      var k := FilterOne(keep, s[1..]);
      i := k + 1;
      forall j | 0 <= j < |s| && j != i ensures !keep(s[j]) {
        if j > 0 {
          assert s[j] == s[1..][j - 1];
        }
      }
    }
  }

  lemma {:induction false} OneFilters<T>(keep: T -> bool, s: seq<T>, i: nat)
    requires OnlyAt(keep, s, i)
    ensures Filter(keep, s) == [s[i]]
    decreases |s|
  {
    if i == 0 {
      forall x | x in s[1..] ensures !keep(x) {
        var j :| 0 <= j < |s[1..]| && s[1..][j] == x;
        assert s[j + 1] == x;
      }
      FilterNone(keep, s[1..]);
    } else {
      assert !keep(s[0]);
      forall j | 0 <= j < |s[1..]| && j != i - 1 ensures !keep(s[1..][j]) {
        assert s[1..][j] == s[j + 1];
      }
      OneFilters(keep, s[1..], i - 1);
      assert Filter(keep, s) == Filter(keep, s[1..]);
    }
  }

  lemma {:induction false} FilterCons<T>(keep: T -> bool, s: seq<T>)
    requires s != []
    ensures Filter(keep, s) == (if keep(s[0]) then [s[0]] else []) + Filter(keep, s[1..])
  {}

  /** A test that holds of everything before an element it holds of selects a prefix. */
  lemma {:induction false} FilterPrefix<T>(keep: T -> bool, s: seq<T>)
    requires forall i, j :: 0 <= i < j < |s| && keep(s[j]) ==> keep(s[i])
    ensures var n := |Filter(keep, s)|;
            n <= |s| && Filter(keep, s) == s[..n] && (forall i :: 0 <= i < |s| ==> (keep(s[i]) <==> i < n))
    decreases |s|
  {
    if s != [] {
      var rest := s[1..];
      forall i, j | 0 <= i < j < |rest| && keep(rest[j]) ensures keep(rest[i]) {
        assert rest[i] == s[i + 1] && rest[j] == s[j + 1];
      }
      FilterPrefix(keep, rest);
      forall i | 0 < i < |s| ensures keep(s[i]) <==> i - 1 < |Filter(keep, rest)| {
        assert s[i] == rest[i - 1];
      }
    }
  }

  /** A test that holds of everything after an element it holds of selects a suffix. */
  lemma {:induction false} FilterSuffix<T>(keep: T -> bool, s: seq<T>)
    requires forall i, j :: 0 <= i < j < |s| && keep(s[i]) ==> keep(s[j])
    ensures var n := |s| - |Filter(keep, s)|;
            n >= 0 && Filter(keep, s) == s[n..] && (forall i :: 0 <= i < |s| ==> (keep(s[i]) <==> i >= n))
    decreases |s|
  {
    if s != [] {
      var rest := s[1..];
      forall i, j | 0 <= i < j < |rest| && keep(rest[i]) ensures keep(rest[j]) {
        assert rest[i] == s[i + 1] && rest[j] == s[j + 1];
      }
      if keep(s[0]) {
        FilterAll(keep, s);
      } else {
        assert Filter(keep, s) == Filter(keep, rest);
        FilterSuffix(keep, rest);
        forall i | 0 < i < |s| ensures keep(s[i]) <==> i - 1 >= |rest| - |Filter(keep, rest)| {
          assert s[i] == rest[i - 1];
        }
      }
    }
  }

  /** A prefix is determined by the test that selects it. */
  lemma SamePrefix<T>(keep: T -> bool, s: seq<T>, n: nat, m: nat)
    requires n <= |s| && (forall i :: 0 <= i < |s| ==> (keep(s[i]) <==> i < n))
    requires m <= |s| && (forall i :: 0 <= i < |s| ==> (keep(s[i]) <==> i < m))
    ensures n == m
  {
    assert n < |s| ==> (keep(s[n]) <==> n < m);
    assert m < |s| ==> (keep(s[m]) <==> m < n);
  }

  /** LIMIT */
  function Take<T>(s: seq<T>, n: nat): seq<T> { if n <= |s| then s[..n] else s }

  function Reversed<T>(s: seq<T>): seq<T> { seq(|s|, i requires 0 <= i < |s| => s[|s| - 1 - i]) }

  /** Each element leads to the next by a step that takes place at the next one's time. */
  ghost predicate Chained<P, T>(step: (P, T, P) -> bool, ps: seq<P>, ts: seq<T>)
    decreases |ps|
  {
    |ps| == |ts| && (|ps| > 1 ==> step(ps[0], ts[1], ps[1]) && Chained(step, ps[1..], ts[1..]))
  }

  lemma {:induction false} ChainExtends<P, T>(step: (P, T, P) -> bool, ps: seq<P>, ts: seq<T>, q: P, t: T)
    requires ps != [] && Chained(step, ps, ts) && step(ps[|ps| - 1], t, q)
    ensures Chained(step, ps + [q], ts + [t])
    decreases |ps|
  {
    if |ps| == 1 {
      assert (ps + [q])[1..] == [q] && (ts + [t])[1..] == [t];
    } else {
      assert (ps + [q])[1..] == ps[1..] + [q] && (ts + [t])[1..] == ts[1..] + [t];
      ChainExtends(step, ps[1..], ts[1..], q, t);
    }
  }

  /** What every step establishes and the first element has, the last one has. */
  lemma {:induction false} LastOfChain<P(!new), T(!new)>(step: (P, T, P) -> bool, holds: (P, T) -> bool, ps: seq<P>,
      ts: seq<T>)
    requires ps != [] && Chained(step, ps, ts) && holds(ps[0], ts[0])
    requires forall p, t, q :: step(p, t, q) ==> holds(q, t)
    ensures holds(ps[|ps| - 1], ts[|ts| - 1])
    decreases |ps|
  {
    if |ps| > 1 {
      LastOfChain(step, holds, ps[1..], ts[1..]);
    }
  }

  ghost predicate Extends<P(!new), T(!new)>(good: (seq<P>, seq<T>) -> bool, ps: seq<P>, ts: seq<T>) {
    exists q, t :: good(ps + [q], ts + [t])
  }

  /** A list that can be extended until it is done, but not beyond a bound, can be completed. */
  lemma {:induction false} Completes<P(!new), T(!new)>(
      good: (seq<P>, seq<T>) -> bool, done: P -> bool, bound: nat, ps: seq<P>, ts: seq<T>)
    returns (all: seq<P>, times: seq<T>)
    requires good(ps, ts)
    requires forall x, y :: good(x, y) ==> 0 < |x| <= bound
    requires forall x, y :: good(x, y) && !done(x[|x| - 1]) ==> Extends(good, x, y)
    ensures good(all, times) && |all| > 0 && done(all[|all| - 1])
    decreases bound - |ps|
  {
    if done(ps[|ps| - 1]) {
      all, times := ps, ts;
    } else {
      assert Extends(good, ps, ts);
      var q, t :| good(ps + [q], ts + [t]);
      all, times := Completes(good, done, bound, ps + [q], ts + [t]);
    }
  }
}
