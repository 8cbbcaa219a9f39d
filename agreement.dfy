/**
  The three variants side by side: on the same city table the distributed
  master and the sequential solver end on the same tour, and the
  thread-parallel solver, whatever the lock order, on a tour of the same
  cost; all three tours are optimal. The agreement is in exact arithmetic,
  with one distance function `dist` for both programs' Euclidean distance.
*/
module Agreement {
  import opened Tours
  import opened Permutations
  import opened Calculations
  import opened Problem
  import opened Optimality
  import opened Sequencial
  import opened Paralelo
  import opened MordorData
  import opened Server

  /** Both distance builders produce the same table from the same positions, under one `dist` in exact arithmetic. */
  lemma DistanceTableUnique(D1: Matrix, D2: Matrix, coords: seq<Coord>, dist: (Coord, Coord) -> real)
    requires IsDistanceTable(D1, coords, dist) && IsDistanceTable(D2, coords, dist)
    ensures D1 == D2
  {
    forall i | 0 <= i < |D1| ensures D1[i] == D2[i] {
      forall j | 0 <= j < |D1| ensures D1[i][j] == D2[i][j] {
        if i == j {
          assert D1[i][i] == 0.0 == D2[i][i];
        } else {
          assert D1[i][j] == dist(coords[i], coords[j]) == D2[i][j];
        }
      }
    }
  }

  /** Two optimal tours have the same cost. */
  lemma OptimaAgree(D: Matrix, n: nat, r1: Tour, c1: real, r2: Tour, c2: real)
    requires Square(D) && |D| == n && n >= 1
    requires IsOptimalTour(D, n, r1, c1) && IsOptimalTour(D, n, r2, c2)
    ensures c1 == c2
  {
    assert c1 <= CycleCost(D, r2) && c2 <= CycleCost(D, r1);
  }

  /**
    On a table with a zero diagonal the master's first cheapest tour of the
    fixed-first-city space is the sequential solver's answer, and optimal.
  */
  lemma MasterFindsSequentialTour(D: Matrix, n: nat, b: Best)
    requires Square(D) && |D| == n && n >= 1 && ZeroDiagonal(D)
    requires SelectsFirstMin(SearchSpace(n), TourCosts(D, SearchSpace(n)), b)
    ensures b == SequentialBest(D, n)
    ensures b.tour.Some? && b.cost.Finite? && IsOptimalTour(D, n, b.tour.value, b.cost.value)
  {
    var F := FixedFirstTours(n);
    assert SearchSpace(n) == F;
    SequentialFindsFixedFirst(D, n);
    forall j | 0 <= j < |F| ensures TourCosts(D, F)[j] == CycleCosts(D, F)[j] {
      assert F[j] in F;
      RouteCostAgreesWithTotalDistance(D, F[j]);
    }
    assert TourCosts(D, F) == CycleCosts(D, F);
    SelectsFirstMinUnique(F, TourCosts(D, F), b);
    SequentialIsOptimal(D, n);
  }

  /**
    However the replies of several workers interleave, the master's best
    ends on an optimal tour of its chunks of `ChunkSize`, as the
    thread-parallel solver does for any lock order.
  */
  lemma MasterAnyArrivalIsOptimal(D: Matrix, n: nat, arrival: seq<nat>)
    requires Square(D) && |D| == n && n >= 1 && ZeroDiagonal(D)
    requires IsPermutationOf(arrival, Range(0, |Chunks(SearchSpace(n), 0, ChunkSize)|))
    ensures Scorable(D, SearchSpace(n))
    ensures forall j :: 0 <= j < |arrival| ==> arrival[j] < |Answers(D, SearchSpace(n), 0, ChunkSize)|
    ensures var r := MergeAll(Best(None, Infinite), InArrivalOrder(Answers(D, SearchSpace(n), 0, ChunkSize), arrival));
      r.tour.Some? && r.cost.Finite? && IsOptimalTour(D, n, r.tour.value, r.cost.value)
  {
    var F := SearchSpace(n);
    SpaceScorable(D, n);
    AnyArrivalOrderIsCheapest(D, F, ChunkSize, arrival);
    var r := MergeAll(Best(None, Infinite), InArrivalOrder(Answers(D, F, 0, ChunkSize), arrival));
    assert F == FixedFirstTours(n);
    FixedFirstToursFacts(n);
    assert F[0] in F;
    forall f | f in F ensures |f| >= 1 && InRange(f, |D|) && r.cost.value <= CycleCost(D, f) {
      RouteCostAgreesWithTotalDistance(D, f);
    }
    RouteCostAgreesWithTotalDistance(D, r.tour.value);
    FixedFirstOptimal(D, n, r.tour.value, r.cost.value);
  }

  /** The thread-parallel program: a fresh solver with `numThreads` threads, taking the lock in the order `schedule`. */
  method RunThreaded(problem: TSPProblem, numThreads: nat, schedule: seq<nat>) returns (b: Best)
    requires WellFormed(problem) && problem.n >= 1 && numThreads >= 1
    requires var routes := FixedFirstTours(problem.n);
      IsPermutationOf(schedule, Range(0, |StartedSlices(routes, CeilDiv(|routes|, numThreads), numThreads)|))
    ensures b.tour.Some? && b.cost.Finite? && IsOptimalTour(problem.distances, problem.n, b.tour.value, b.cost.value)
  {
    var solver := new TSPParallelBruteForceSolver(problem, Some(numThreads), numThreads);
    var route, cost := solver.Solve(schedule);
    b := Best(route, cost);
    ParallelIsOptimal(problem.distances, problem.n, numThreads, schedule);
  }

  /** The sequential program: a fresh solver scoring every ordering. */
  method RunSequential(problem: TSPProblem) returns (b: Best)
    requires WellFormed(problem) && problem.n >= 1
    ensures b == SequentialBest(problem.distances, problem.n)
    ensures b.tour.Some? && b.cost.Finite? && IsOptimalTour(problem.distances, problem.n, b.tour.value, b.cost.value)
  {
    var solver := new TSPBruteForceSolver(problem);
    var bestRoute, bestCost := solver.Solve();
    b := Best(Some(bestRoute), bestCost);
    SequentialIsOptimal(problem.distances, problem.n);
  }

  /**
    The distributed program: a fresh master over `locations` serving one
    worker to the end. Its table is the one the other two programs build.
  */
  method RunDistributed(locations: seq<(string, Coord)>, dist: (Coord, Coord) -> real, problem: TSPProblem) returns (b: Best)
    requires Distinct(Names(locations)) && |locations| >= 1
    requires WellFormed(problem) && problem.n == |locations|
    requires problem.coordinates == CitiesDataOf(locations).coords && IsDistanceTable(problem.distances, problem.coordinates, dist)
    ensures b == SequentialBest(problem.distances, problem.n)
  {
    var master, sent := ServeOneWorker(locations, dist);
    b := Best(master.bestOverallTour, master.minOverallDistance);
    DistanceTableUnique(master.precomputedDistances, problem.distances, problem.coordinates, dist);
    MasterFindsSequentialTour(problem.distances, problem.n, b);
  }

  /**
    Runs the three programs on the same cities: the distributed master with
    one worker, the thread-parallel solver with `numThreads` threads taking
    the lock in the order `schedule`, and the sequential solver, all with
    the one distance function `dist`.
  */
  method RunAllVariants(locations: seq<(string, Coord)>, dist: (Coord, Coord) -> real, numThreads: nat, schedule: seq<nat>)
    returns (distributed: Best, parallel: Best, sequential: Best)
    requires Distinct(Names(locations)) && |locations| >= 1 && numThreads >= 1
    requires var routes := FixedFirstTours(|locations|);
      IsPermutationOf(schedule, Range(0, |StartedSlices(routes, CeilDiv(|routes|, numThreads), numThreads)|))
    ensures distributed == sequential
    ensures parallel.cost == sequential.cost
    ensures sequential.tour.Some? && sequential.cost.Finite? && parallel.tour.Some? && parallel.cost.Finite?
  {
    var problem := NewProblem(locations, dist);
    distributed := RunDistributed(locations, dist, problem);
    parallel := RunThreaded(problem, numThreads, schedule);
    sequential := RunSequential(problem);
    OptimaAgree(problem.distances, problem.n, parallel.tour.value, parallel.cost.value, sequential.tour.value, sequential.cost.value);
  }
}
