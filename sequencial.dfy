/**
  The sequential solver: it scores every ordering of all `n` cities, in
  `itertools.permutations` order, and keeps the first one of least cycle
  cost.
*/
module Sequencial {
  import opened Tours
  import opened Permutations
  import opened Problem
  import opened Optimality

  /** Every ordering of `range(n)` can be scored on an `n`-city table. */
  lemma OrderingsScorable(D: Matrix, n: nat)
    requires Square(D) && |D| == n && n >= 1
    ensures Scorable(D, Perms(Range(0, n))) && forall t :: t in Perms(Range(0, n)) ==> |t| >= 1
  {
    PermsSound(Range(0, n));
    forall t | t in Perms(Range(0, n)) ensures |t| >= 1 && InRange(t, |D|) {
      OrderingFacts(t, n);
    }
  }

  /** What `solve` returns: the first ordering of least cycle cost in enumeration order, with that cost. */
  function SequentialBest(D: Matrix, n: nat): Best
    requires Square(D) && |D| == n && n >= 1
  {
    OrderingsScorable(D, n);
    FirstCheapest(Perms(Range(0, n)), CycleCosts(D, Perms(Range(0, n))))
  }

  class TSPBruteForceSolver {
    const problem: TSPProblem

    constructor (problem: TSPProblem)
      ensures this.problem == problem
    {
      this.problem := problem;
    }

    /**
      Scores the orderings one after another, replacing the best only by a
      strictly cheaper one. With no city the source's `route_cost` fails on
      the one empty ordering, hence the requirement of at least one city.
    */
    method Solve() returns (bestRoute: Tour, bestCost: Cost)
      requires WellFormed(problem) && problem.n >= 1
      ensures Best(Some(bestRoute), bestCost) == SequentialBest(problem.distances, problem.n)
    {
      var n, D := problem.n, problem.distances;
      bestCost := Infinite;
      bestRoute := [];
      var perms := Perms(Range(0, n));
      OrderingsScorable(D, n);
      ghost var c := CycleCosts(D, perms);
      for i := 0 to |perms|
        invariant bestCost == FirstCheapest(perms[..i], c[..i]).cost
        invariant i > 0 ==> Some(bestRoute) == FirstCheapest(perms[..i], c[..i]).tour
      {
        var perm := perms[i];
        assert perm in perms;
        var cost := RouteCost(D, perm);
        FirstCheapestSnoc(perms, c, i);
        if Less(Finite(cost), bestCost) {
          bestCost := Finite(cost);
          bestRoute := perm;
        }
      }
      PermsCount(Range(0, n));
      assert perms[..|perms|] == perms && c[..|perms|] == c;
    }
  }

  /**
    The sequential solver finds an optimal tour: an ordering of all the
    cities whose cycle cost is its reported cost and is at most that of
    every ordering.
  */
  lemma SequentialIsOptimal(D: Matrix, n: nat)
    requires Square(D) && |D| == n && n >= 1
    ensures var b := SequentialBest(D, n);
      b.tour.Some? && b.cost.Finite? && IsOptimalTour(D, n, b.tour.value, b.cost.value)
  {
    var ps := Perms(Range(0, n));
    OrderingsScorable(D, n);
    PermsCount(Range(0, n));
    PermsSound(Range(0, n));
    var c := CycleCosts(D, ps);
    var k := ArgMin(c);
    assert ps[k] in ps;
    forall t | IsPermutationOf(t, Range(0, n)) ensures c[k] <= CycleCost(D, t) {
      OrderingFacts(t, n);
      PermsComplete(Range(0, n), t);
      var j :| 0 <= j < |ps| && ps[j] == t;
      assert c[k] <= c[j];
    }
  }

  /**
    The enumeration starts with the orderings that begin at city 0, and one
    of them is already optimal, so the sequential solver ends on the first
    cheapest fixed-first-city tour: the tour the distributed master finds.
  */
  lemma SequentialFindsFixedFirst(D: Matrix, n: nat)
    requires Square(D) && |D| == n && n >= 1
    ensures var F := FixedFirstTours(n);
      && Scorable(D, F) && (forall t :: t in F ==> |t| >= 1)
      && SequentialBest(D, n) == FirstCheapest(F, CycleCosts(D, F))
  {
    var F, R := FixedFirstTours(n), PermsFrom(Range(0, n), 1);
    FixedFirstToursLeadPerms(n);
    OrderingsScorable(D, n);
    PartsScorable(D, F, R);
    CycleCostsConcat(D, F, R);
    var cF, cR := CycleCosts(D, F), CycleCosts(D, R);
    FixedFirstDominates(D, n, F, R, cF, cR);
    FirstCheapestLeads(F, cF, R, cR);
  }

  lemma PartsScorable(D: Matrix, a: seq<Tour>, b: seq<Tour>)
    requires Scorable(D, a + b) && forall t :: t in a + b ==> |t| >= 1
    ensures Scorable(D, a) && forall t :: t in a ==> |t| >= 1
    ensures Scorable(D, b) && forall t :: t in b ==> |t| >= 1
  {
    forall t | t in a ensures t in a + b {}
    forall t | t in b ensures t in a + b {}
  }

  lemma CycleCostsConcat(D: Matrix, a: seq<Tour>, b: seq<Tour>)
    requires Scorable(D, a) && (forall t :: t in a ==> |t| >= 1) && Scorable(D, b) && (forall t :: t in b ==> |t| >= 1)
    ensures Scorable(D, a + b) && (forall t :: t in a + b ==> |t| >= 1)
    ensures CycleCosts(D, a + b) == CycleCosts(D, a) + CycleCosts(D, b)
  {
    assert CycleCosts(D, a + b) == CycleCosts(D, a) + CycleCosts(D, b);
  }

  /** Every ordering after the fixed-first-city block costs as much as some tour of the block. */
  lemma FixedFirstDominates(D: Matrix, n: nat, F: seq<Tour>, R: seq<Tour>, cF: seq<real>, cR: seq<real>)
    requires Square(D) && |D| == n && n >= 1
    requires F == FixedFirstTours(n) && R == PermsFrom(Range(0, n), 1)
    requires Scorable(D, F) && (forall t :: t in F ==> |t| >= 1) && Scorable(D, R) && (forall t :: t in R ==> |t| >= 1)
    requires cF == CycleCosts(D, F) && cR == CycleCosts(D, R)
    ensures forall j :: 0 <= j < |cR| ==> SomeAtMost(cF, cR[j])
  {
    PermsFromSound(Range(0, n), 1);
    forall j | 0 <= j < |cR| ensures SomeAtMost(cF, cR[j]) {
      assert R[j] in R;
      var i := BlockPartner(D, n, F, R[j]);
      assert cF[i] == cR[j];
    }
  }

  /** An ordering of the cities and the block tour that is its rotation to city 0 cost the same. */
  lemma BlockPartner(D: Matrix, n: nat, F: seq<Tour>, t: Tour) returns (i: nat)
    requires Square(D) && |D| == n && n >= 1 && F == FixedFirstTours(n) && IsPermutationOf(t, Range(0, n))
    requires Scorable(D, F) && forall f :: f in F ==> |f| >= 1
    ensures i < |F| && CycleCost(D, F[i]) == CycleCost(D, t)
  {
    var k := RotateToCityZero(D, n, t);
    i :| 0 <= i < |F| && F[i] == Rotate(t, k);
    assert F[i] in F;
  }
}
