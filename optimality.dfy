/**
  What every variant is after: a tour through all `n` cities, each visited
  once, of least cycle cost. The fixed-first-city variants search only the
  tours that start at city 0; every tour can be rotated to start there at
  the same cost, so they lose nothing.
*/
module Optimality {
  import opened Tours
  import opened Permutations

  /** `r` visits each of the `n` cities once and no such tour has a smaller cycle cost than `c`, which is `r`'s. */
  ghost predicate IsOptimalTour(D: Matrix, n: nat, r: Tour, c: real)
    requires Square(D) && |D| == n && n >= 1
  {
    && IsPermutationOf(r, Range(0, n))
    && c == CycleCost(D, r)
    && forall t :: IsPermutationOf(t, Range(0, n)) ==> c <= CycleCost(D, t)
  }

  /** An ordering of the `n` cities has length `n` and names only cities below `n`. */
  lemma OrderingFacts(t: Tour, n: nat)
    requires IsPermutationOf(t, Range(0, n))
    ensures |t| == n && InRange(t, n)
  {
    forall i | 0 <= i < |t| ensures t[i] < n {
      assert t[i] in Range(0, n);
    }
  }

  /** The cities `0..n-1` are city 0 followed by the cities `1..n-1`, as a multiset too. */
  lemma CitiesSplit(n: nat)
    requires n >= 1
    ensures Range(0, n) == [0] + Range(1, n)
    ensures multiset(Range(0, n)) == multiset{0} + multiset(Range(1, n))
  {
    RangeSplit(0, n);
  }

  /** Every fixed-first-city tour is an ordering of all `n` cities. */
  lemma FixedFirstIsOrdering(n: nat, f: Tour)
    requires n >= 1 && f in FixedFirstTours(n)
    ensures IsPermutationOf(f, Range(0, n))
  {
    FixedFirstToursShape(n);
    CitiesSplit(n);
    assert f == [0] + f[1..];
    assert multiset(f) == multiset{0} + multiset(f[1..]);
    forall i | 0 <= i < |f| ensures f[i] in Range(0, n) {
      assert f[i] < n;
    }
  }

  /**
    Rotating an ordering of the cities so that it starts at city 0 gives a
    fixed-first-city tour of the same cycle cost.
  */
  lemma RotateToCityZero(D: Matrix, n: nat, t: Tour) returns (k: nat)
    requires Square(D) && |D| == n && n >= 1 && IsPermutationOf(t, Range(0, n))
    ensures k < |t| && Rotate(t, k) in FixedFirstTours(n)
    ensures CycleCost(D, Rotate(t, k)) == CycleCost(D, t)
  {
    OrderingFacts(t, n);
    assert 0 in Range(0, n);
    assert 0 in multiset(t);
    k :| 0 <= k < |t| && t[k] == 0;
    StartsAtZero(n, Rotate(t, k));
    RotationPreservesCost(D, t, k);
  }

  /** An ordering of the cities that starts at city 0 is a fixed-first-city tour. */
  lemma StartsAtZero(n: nat, u: Tour)
    requires n >= 1 && |u| == n && u[0] == 0 && multiset(u) == multiset(Range(0, n))
    ensures u in FixedFirstTours(n)
  {
    CitiesSplit(n);
    assert u == [0] + u[1..];
    assert multiset(u) == multiset{0} + multiset(u[1..]);
    TakeOne(multiset(u[1..]), multiset(Range(1, n)), 0);
    FixedFirstToursFacts(n);
  }

  lemma TakeOne(a: multiset<nat>, b: multiset<nat>, x: nat)
    requires multiset{x} + a == multiset{x} + b
    ensures a == b
  {
    forall y ensures a[y] == b[y] {
      assert (multiset{x} + a)[y] == (multiset{x} + b)[y];
    }
  }

  /**
    A cheapest fixed-first-city tour is a cheapest tour overall: fixing the
    first city, as the distributed and the thread-parallel variants do,
    loses no optimum.
  */
  lemma FixedFirstOptimal(D: Matrix, n: nat, r: Tour, c: real)
    requires Square(D) && |D| == n && n >= 1
    requires r in FixedFirstTours(n)
    requires forall f :: f in FixedFirstTours(n) ==> |f| >= 1 && InRange(f, |D|) && c <= CycleCost(D, f)
    requires c == CycleCost(D, r)
    ensures IsOptimalTour(D, n, r, c)
  {
    FixedFirstIsOrdering(n, r);
    OrderingFacts(r, n);
    forall t | IsPermutationOf(t, Range(0, n)) ensures c <= CycleCost(D, t) {
      var k := RotateToCityZero(D, n, t);
    }
  }

  /**
    `itertools.permutations(range(n))` lists first the orderings that start
    at city 0, which are exactly the fixed-first-city tours in their order.
  */
  lemma FixedFirstToursLeadPerms(n: nat)
    requires n >= 1
    ensures Perms(Range(0, n)) == FixedFirstTours(n) + PermsFrom(Range(0, n), 1)
  {
    CitiesSplit(n);
    assert Remove(Range(0, n), 0) == Range(1, n);
  }
}
