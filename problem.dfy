/**
  The problem object shared, word for word, by the thread-parallel and the
  sequential solvers: city names and positions, the city count, and the
  table of pairwise distances, plus the cyclic cost of a route.
*/
module Problem {
  import opened Tours
  import opened Calculations

  datatype TSPProblem = TSPProblem(cityNames: seq<string>, coordinates: seq<Coord>, n: nat, distances: Matrix)

  /** One name, one position and one table row and column per city. */
  predicate WellFormed(p: TSPProblem)
  {
    |p.cityNames| == p.n && |p.coordinates| == p.n && |p.distances| == p.n && Square(p.distances)
  }

  /** Splits the `(name, position)` pairs and computes the distance table (`dist` stands for `math.hypot` of the differences). */
  method NewProblem(cities: seq<(string, Coord)>, dist: (Coord, Coord) -> real) returns (p: TSPProblem)
    ensures WellFormed(p) && p.n == |cities|
    ensures forall i :: 0 <= i < |cities| ==> p.cityNames[i] == cities[i].0 && p.coordinates[i] == cities[i].1
    ensures IsDistanceTable(p.distances, p.coordinates, dist)
  {
    var names := seq(|cities|, i requires 0 <= i < |cities| => cities[i].0);
    var coordinates := seq(|cities|, i requires 0 <= i < |cities| => cities[i].1);
    var distances := ComputeDistances(coordinates, dist);
    p := TSPProblem(names, coordinates, |cities|, distances);
  }

  /**
    Starts from an all-zero `n` by `n` table and overwrites every entry off
    the diagonal, one at a time, with the distance between the two cities.
  */
  method ComputeDistances(coordinates: seq<Coord>, dist: (Coord, Coord) -> real) returns (d: Matrix)
    ensures IsDistanceTable(d, coordinates, dist)
  {
    var n := |coordinates|;
    d := seq(n, _ => seq(n, _ => 0.0));
    for i := 0 to n
      invariant |d| == n && Square(d)
      invariant forall a, b :: 0 <= a < n && 0 <= b < n && (i <= a || a == b) ==> d[a][b] == 0.0
      invariant forall a, b :: 0 <= a < i && 0 <= b < n && a != b ==> d[a][b] == dist(coordinates[a], coordinates[b])
    {
      for j := 0 to n
        invariant |d| == n && Square(d)
        invariant forall a, b :: 0 <= a < n && 0 <= b < n && (i < a || a == b || (a == i && j <= b)) ==> d[a][b] == 0.0
        invariant forall a, b :: 0 <= a < i && 0 <= b < n && a != b ==> d[a][b] == dist(coordinates[a], coordinates[b])
        invariant forall b :: 0 <= b < j && b != i ==> d[i][b] == dist(coordinates[i], coordinates[b])
      {
        if i != j {
          d := d[i := d[i][j := dist(coordinates[i], coordinates[j])]];
        }
      }
    }
  }

  /** The consecutive edges summed left to right, then the edge from the last city back to the first. */
  method RouteCost(distances: Matrix, route: Tour) returns (cost: real)
    requires Square(distances) && InRange(route, |distances|) && |route| >= 1
    ensures cost == CycleCost(distances, route)
  {
    cost := 0.0;
    for i := 0 to |route| - 1
      invariant cost == EdgeSum(distances, route[..i + 1])
    {
      assert route[..i + 2][..i + 1] == route[..i + 1];
      cost := cost + distances[route[i]][route[i + 1]];
    }
    assert route[..|route|] == route;
    cost := cost + distances[route[|route| - 1]][route[0]];
  }

  /**
    On a table with a zero diagonal `route_cost` agrees with the distributed
    solver's `calculate_total_distance`, the one-city route included.
  */
  lemma RouteCostAgreesWithTotalDistance(D: Matrix, t: Tour)
    requires Square(D) && ZeroDiagonal(D) && InRange(t, |D|) && |t| >= 1
    ensures CycleCost(D, t) == TourCost(D, t)
  {
    if |t| == 1 {
      assert EdgeSum(D, t) == 0.0;
      assert D[t[0]][t[0]] == 0.0;
    }
  }
}
