/** Ranks in a finite set under a strict total order, and the sorted listing of a set.

Pairing two sorted lists position by position is the same as pairing elements of equal rank, and a
rank does not depend on the order in which a set was built. */
module Ranking {

  ghost predicate TotalOn<T>(s: set<T>, before: (T, T) -> bool) {
    && (forall x :: x in s ==> !before(x, x))
    && (forall x, y :: x in s && y in s && x != y ==> before(x, y) || before(y, x))
    && (forall x, y, z :: x in s && y in s && z in s && before(x, y) && before(y, z) ==> before(x, z))
  }

  ghost function Below<T>(x: T, s: set<T>, before: (T, T) -> bool): set<T> {
    set y | y in s && before(y, x)
  }

  ghost function Rank<T>(x: T, s: set<T>, before: (T, T) -> bool): nat {
    |Below(x, s, before)|
  }

  function Elements<T(==)>(q: seq<T>): set<T> {
    set x | x in q
  }

  ghost predicate Sorted<T>(q: seq<T>, before: (T, T) -> bool) {
    forall i, j :: 0 <= i < j < |q| ==> before(q[i], q[j])
  }

  lemma SomeElement<T>(s: set<T>) returns (x: T)
    requires s != {}
    ensures x in s
  {
    x :| x in s;
  }

  lemma {:induction false} ElementsSize<T>(q: seq<T>)
    ensures |Elements(q)| <= |q|
  {
    if q == [] {
      assert Elements(q) == {};
    } else {
      ElementsSize(q[1..]);
      assert Elements(q) == Elements(q[1..]) + {q[0]};
    }
  }

  lemma RankBelowSize<T>(x: T, s: set<T>, before: (T, T) -> bool)
    requires x in s && TotalOn(s, before)
    ensures Rank(x, s, before) < |s|
  {
    assert Below(x, s, before) <= s - {x};
    SubsetSize(Below(x, s, before), s - {x});
  }

  lemma SubsetSize<T>(a: set<T>, b: set<T>)
    requires a <= b
    ensures |a| <= |b|
    ensures |a| == |b| ==> a == b
  {
    assert b == a + (b - a);
  }

  lemma RankInjective<T>(x: T, y: T, s: set<T>, before: (T, T) -> bool)
    requires x in s && y in s && TotalOn(s, before)
    requires Rank(x, s, before) == Rank(y, s, before)
    ensures x == y
  {
    if x != y {
      var lo, hi := if before(x, y) then x else y, if before(x, y) then y else x;
      assert lo !in Below(lo, s, before);
      assert Below(lo, s, before) + {lo} <= Below(hi, s, before);
      SubsetSize(Below(lo, s, before) + {lo}, Below(hi, s, before));
    }
  }

  lemma {:induction false} GreatestExists<T>(s: set<T>, before: (T, T) -> bool) returns (m: T)
    requires s != {} && TotalOn(s, before)
    ensures m in s && forall x :: x in s && x != m ==> before(x, m)
    decreases |s|
  {
    m :| m in s;
    var rest := s - {m};
    if rest != {} {
      var n := GreatestExists(rest, before);
      if before(m, n) {
        m := n;
      }
    }
  }

  /** Every position below the size of the set is the rank of one of its elements. */
  lemma {:induction false} ElementOfRank<T>(s: set<T>, before: (T, T) -> bool, k: nat) returns (x: T)
    requires TotalOn(s, before) && k < |s|
    ensures x in s && Rank(x, s, before) == k
    decreases |s|
  {
    var m := GreatestExists(s, before);
    var rest := s - {m};
    if k == |rest| {
      x := m;
      assert Below(m, s, before) == rest;
    } else {
      x := ElementOfRank(rest, before, k);
      assert Below(x, s, before) == Below(x, rest, before);
    }
  }

  lemma {:induction false} SortedDistinct<T>(q: seq<T>, before: (T, T) -> bool)
    requires Sorted(q, before) && TotalOn(Elements(q), before)
    ensures |Elements(q)| == |q|
    decreases |q|
  {
    if q == [] {
      assert Elements(q) == {};
    } else {
      var n := |q| - 1;
      var rest := q[..n];
      assert Elements(q) == Elements(rest) + {q[n]};
      SortedDistinct(rest, before);
      assert forall i :: 0 <= i < n ==> before(q[i], q[n]);
    }
  }

  /** In a sorted listing the rank of an element is its position. */
  lemma RankIsPosition<T>(q: seq<T>, before: (T, T) -> bool, i: nat)
    requires Sorted(q, before) && TotalOn(Elements(q), before) && i < |q|
    ensures Rank(q[i], Elements(q), before) == i
  {
    var low := q[..i];
    forall y | y in Elements(q) ensures y in Below(q[i], Elements(q), before) <==> y in Elements(low) {
      var j :| 0 <= j < |q| && q[j] == y;
      if j < i {
        assert low[j] == y;
      } else {
        assert forall l :: 0 <= l < i ==> low[l] == q[l] && before(q[l], q[i]);
        assert j > i ==> before(q[i], q[j]);
      }
    }
    assert Below(q[i], Elements(q), before) == Elements(low);
    assert Elements(low) <= Elements(q);
    assert TotalOn(Elements(low), before);
    SortedDistinct(low, before);
  }

  lemma TotalOnSubset<T>(a: set<T>, b: set<T>, before: (T, T) -> bool)
    requires a <= b && TotalOn(b, before)
    ensures TotalOn(a, before)
  {
  }

  /** A comparison sort. */
  method Sort<T(==)>(s: set<T>, before: (T, T) -> bool) returns (q: seq<T>)
    requires TotalOn(s, before)
    ensures Sorted(q, before) && Elements(q) == s && |q| == |s|
  {
    hide TotalOn;
    q := [];
    var todo := s;
    while todo != {}
      invariant todo <= s
      invariant forall x :: x in q <==> x in s && x !in todo
      invariant Sorted(q, before)
      invariant forall i, y :: 0 <= i < |q| && y in todo ==> before(q[i], y)
      decreases todo
    {
      TotalOnSubset(todo, s, before);
      var least := Least(todo, before);
      ghost var previous := q;
      q := q + [least];
      todo := todo - {least};
      assert forall x :: x in q <==> x in previous || x == least;
    }
    assert Elements(q) == s;
    SortedDistinct(q, before);
  }

  method Least<T(==)>(s: set<T>, before: (T, T) -> bool) returns (m: T)
    requires s != {} && TotalOn(s, before)
    ensures m in s && forall x :: x in s && x != m ==> before(m, x)
  {
    m :| m in s;
    var todo := s - {m};
    while todo != {}
      invariant m in s && todo <= s && m !in todo
      invariant forall x :: x in s && x != m && x !in todo ==> before(m, x)
      decreases todo
    {
      var x :| x in todo;
      todo := todo - {x};
      if before(x, m) {
        m := x;
      }
    }
  }

  /** A set has only one sorted listing. */
  lemma SortedUnique<T>(p: seq<T>, q: seq<T>, before: (T, T) -> bool)
    requires Sorted(p, before) && Sorted(q, before) && Elements(p) == Elements(q) && TotalOn(Elements(p), before)
    ensures p == q
  {
    SortedDistinct(p, before);
    SortedDistinct(q, before);
    forall i | 0 <= i < |p| ensures p[i] == q[i] {
      RankIsPosition(p, before, i);
      RankIsPosition(q, before, i);
      assert p[i] in Elements(p) && q[i] in Elements(q);
      RankInjective(p[i], q[i], Elements(p), before);
    }
  }

  lemma {:induction false} ListingExists<T>(s: set<T>, before: (T, T) -> bool) returns (q: seq<T>)
    requires TotalOn(s, before)
    ensures Sorted(q, before) && Elements(q) == s
    decreases |s|
  {
    if s == {} {
      q := [];
      assert Elements<T>([]) == {};
    } else {
      var m := GreatestExists(s, before);
      var rest := ListingExists(s - {m}, before);
      q := rest + [m];
      ListingAppends(rest, m, s, before);
    }
  }

  lemma ListingAppends<T>(rest: seq<T>, m: T, s: set<T>, before: (T, T) -> bool)
    requires Sorted(rest, before) && Elements(rest) == s - {m} && m in s
    requires forall x :: x in s && x != m ==> before(x, m)
    ensures Sorted(rest + [m], before) && Elements(rest + [m]) == s
  {
    forall x ensures x in rest + [m] <==> x in s {
      assert x in rest <==> x in Elements(rest);
    }
    forall i | 0 <= i < |rest| ensures before(rest[i], m) {
      assert rest[i] in Elements(rest);
    }
  }

  lemma HasListing<T>(s: set<T>, before: (T, T) -> bool)
    requires TotalOn(s, before)
    ensures exists q :: Sorted(q, before) && Elements(q) == s
  {
    var q := ListingExists(s, before);
  }

  /** The sorted listing of a set. */
  ghost function Listing<T>(s: set<T>, before: (T, T) -> bool): (q: seq<T>)
    requires TotalOn(s, before)
    ensures Sorted(q, before) && Elements(q) == s && |q| == |s|
  {
    HasListing(s, before);
    var q :| Sorted(q, before) && Elements(q) == s;
    SortedDistinct(q, before);
    q
  }
}
