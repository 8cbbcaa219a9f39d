/**
  The distance helpers of the distributed solver: the table of pairwise
  distances built once by the master, and the total length of a tour that
  the worker computes for every tour of a chunk.
*/
module Calculations {
  import opened Tours

  /**
    What `calculate_total_distance` promises: 0 for a tour of fewer than two
    cities, otherwise the cycle cost (consecutive edges plus the closing edge).
  */
  function TourCost(D: Matrix, t: Tour): real
    requires Square(D) && InRange(t, |D|)
  {
    if |t| < 2 then 0.0 else CycleCost(D, t)
  }

  /** The cost of every tour of `ts`, in order. */
  function TourCosts(D: Matrix, ts: seq<Tour>): (c: seq<real>)
    requires Scorable(D, ts)
    ensures |c| == |ts|
    ensures forall j :: 0 <= j < |ts| ==> c[j] == TourCost(D, ts[j])
  {
    seq(|ts|, j requires 0 <= j < |ts| => TourCost(D, ts[j]))
  }

  /**
    Builds the table row by row: entry `[i][j]` is 0 on the diagonal and the
    distance between the two cities elsewhere. `dist` stands for
    `calculate_distance`.
  */
  method PrecomputeDistances(coords: seq<Coord>, dist: (Coord, Coord) -> real) returns (D: Matrix)
    ensures IsDistanceTable(D, coords, dist)
  {
    var n := |coords|;
    D := [];
    for i := 0 to n
      invariant |D| == i
      invariant forall a :: 0 <= a < i ==> |D[a]| == n
      invariant forall a :: 0 <= a < i ==> D[a][a] == 0.0
      invariant forall a, b :: 0 <= a < i && 0 <= b < n && a != b ==> D[a][b] == dist(coords[a], coords[b])
    {
      var row: seq<real> := [];
      for j := 0 to n
        invariant |row| == j
        invariant i < j ==> row[i] == 0.0
        invariant forall b :: 0 <= b < j && b != i ==> row[b] == dist(coords[i], coords[b])
      {
        if i == j {
          row := row + [0.0];
        } else {
          row := row + [dist(coords[i], coords[j])];
        }
      }
      D := D + [row];
    }
  }

  /** The table is symmetric whenever the distance function is, as the Euclidean one is. */
  lemma DistanceTableSymmetric(D: Matrix, coords: seq<Coord>, dist: (Coord, Coord) -> real)
    requires IsDistanceTable(D, coords, dist)
    requires forall p, q :: dist(p, q) == dist(q, p)
    ensures Square(D) && ZeroDiagonal(D) && Symmetric(D)
  {
    forall i, j | 0 <= i < |D| && 0 <= j < |D| ensures D[i][j] == D[j][i] {
      if i != j {
        assert dist(coords[i], coords[j]) == dist(coords[j], coords[i]);
      }
    }
  }

  /** Every entry the open path of `t` reads exists: `D[t[i]][t[i+1]]` for each consecutive pair. */
  predicate HasPathEdges(D: Matrix, t: Tour)
  {
    forall i :: 0 <= i < |t| - 1 ==> t[i] < |D| && t[i + 1] < |D[t[i]]|
  }

  /**
    Scoring `t` against `D` raises no index error: a tour of fewer than two
    cities reads nothing, a longer one reads its consecutive entries and the
    closing entry `D[t[-1]][t[0]]`. The table need not be square.
  */
  predicate HasEdges(D: Matrix, t: Tour)
  {
    |t| < 2 || (HasPathEdges(D, t) && t[|t| - 1] < |D| && t[0] < |D[t[|t| - 1]]|)
  }

  /** Every tour of `ts` can be scored against `D`. */
  predicate Measurable(D: Matrix, ts: seq<Tour>)
  {
    forall t :: t in ts ==> HasEdges(D, t)
  }

  lemma PathEdgesPrefix(D: Matrix, t: Tour, k: nat)
    requires HasPathEdges(D, t) && k <= |t|
    ensures HasPathEdges(D, t[..k])
  {
    forall i | 0 <= i < k - 1 ensures t[..k][i] < |D| && t[..k][i + 1] < |D[t[..k][i]]| {
      assert t[..k][i] == t[i] && t[..k][i + 1] == t[i + 1];
    }
  }

  /** The open-path sum on any table holding the entries it reads, accumulated left to right. */
  function PathLength(D: Matrix, t: Tour): real
    requires HasPathEdges(D, t)
    decreases |t|
  {
    if |t| < 2 then 0.0
    else
      PathEdgesPrefix(D, t, |t| - 1);
      PathLength(D, t[..|t| - 1]) + D[t[|t| - 2]][t[|t| - 1]]
  }

  /** What `calculate_total_distance` computes on any table it can index. */
  function TotalDistance(D: Matrix, t: Tour): real
    requires HasEdges(D, t)
  {
    if |t| < 2 then 0.0 else PathLength(D, t) + D[t[|t| - 1]][t[0]]
  }

  /** The total distance of every tour of `ts`, in order. */
  function TotalDistances(D: Matrix, ts: seq<Tour>): (c: seq<real>)
    requires Measurable(D, ts)
    ensures |c| == |ts|
    ensures forall j :: 0 <= j < |ts| ==> c[j] == TotalDistance(D, ts[j])
  {
    seq(|ts|, j requires 0 <= j < |ts| => TotalDistance(D, ts[j]))
  }

  /** On a square table the open-path sum is `EdgeSum`. */
  lemma {:induction false} PathLengthIsEdgeSum(D: Matrix, t: Tour)
    requires Square(D) && InRange(t, |D|)
    ensures HasPathEdges(D, t) && PathLength(D, t) == EdgeSum(D, t)
    decreases |t|
  {
    if |t| >= 2 {
      PathLengthIsEdgeSum(D, t[..|t| - 1]);
    }
  }

  /**
    On a square table whose rows cover the tour's cities, scoring never
    fails and gives `TourCost`: 0 below two cities, the cycle cost otherwise.
  */
  lemma TableScoresTour(D: Matrix, t: Tour)
    requires Square(D) && InRange(t, |D|)
    ensures HasEdges(D, t) && TotalDistance(D, t) == TourCost(D, t)
  {
    PathLengthIsEdgeSum(D, t);
  }

  /** On such a table every tour of a chunk is scored, at its `TourCost`. */
  lemma TableScoresChunk(D: Matrix, ts: seq<Tour>)
    requires Scorable(D, ts)
    ensures Measurable(D, ts) && TotalDistances(D, ts) == TourCosts(D, ts)
  {
    forall t | t in ts ensures HasEdges(D, t) {
      TableScoresTour(D, t);
    }
    forall j | 0 <= j < |ts| ensures TotalDistances(D, ts)[j] == TourCosts(D, ts)[j] {
      assert ts[j] in ts;
      TableScoresTour(D, ts[j]);
    }
  }

  /**
    Accumulates the consecutive edges left to right, then adds the closing
    edge; on a square table covering the tour this is `TourCost`.
  */
  method CalculateTotalDistance(t: Tour, D: Matrix) returns (total: real)
    requires HasEdges(D, t)
    ensures total == TotalDistance(D, t)
    ensures Square(D) && InRange(t, |D|) ==> total == TourCost(D, t)
  {
    total := 0.0;
    var n := |t|;
    if n < 2 {
      return 0.0;
    }
    for i := 0 to n - 1
      invariant HasPathEdges(D, t[..i + 1]) && total == PathLength(D, t[..i + 1])
    {
      PathEdgesPrefix(D, t, i + 2);
      assert t[..i + 2][..i + 1] == t[..i + 1];
      total := total + D[t[i]][t[i + 1]];
    }
    assert t[..n] == t;
    total := total + D[t[n - 1]][t[0]];
    if Square(D) && InRange(t, |D|) {
      TableScoresTour(D, t);
    }
  }

  /** Starting a tour at another city does not change its total distance. */
  lemma TourCostRotationInvariant(D: Matrix, t: Tour, k: nat)
    requires Square(D) && InRange(t, |D|) && k <= |t|
    ensures InRange(Rotate(t, k), |D|)
    ensures TourCost(D, Rotate(t, k)) == TourCost(D, t)
  {
    if |t| >= 1 {
      RotationPreservesCost(D, t, k);
    } else {
      assert Rotate(t, k) == t;
    }
  }

  /** The three-city instance: edges 3, 4 and 5 give a tour (0,1,2) of length 12. */
  lemma ThreeCityExample()
    ensures TourCost([[0.0, 3.0, 5.0], [3.0, 0.0, 4.0], [5.0, 4.0, 0.0]], [0, 1, 2]) == 12.0
  {
    var D := [[0.0, 3.0, 5.0], [3.0, 0.0, 4.0], [5.0, 4.0, 0.0]];
    var t: Tour := [0, 1, 2];
    assert t[..2] == [0, 1] && t[..2][..1] == [0];
    assert EdgeSum(D, [0]) == 0.0;
    assert EdgeSum(D, [0, 1]) == 3.0;
    assert EdgeSum(D, t) == 7.0;
  }
}
