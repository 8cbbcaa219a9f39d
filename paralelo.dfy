/**
  The thread-parallel solver. `solve` cuts the fixed-first-city routes into
  at most `num_threads` consecutive slices of `ceil(L / num_threads)`
  routes, one thread per non-empty slice; each thread finds the cheapest
  route of its slice and, holding the lock, adopts it if it is strictly
  cheaper than the shared best. The threads are modelled as atomic workers
  run one after another in the order they take the lock.
*/
module Paralelo {
  import opened Tours
  import opened Permutations
  import opened Problem
  import opened Optimality

  /** What `_worker` computes before taking the lock: the first cheapest route of its slice. */
  function SliceBest(D: Matrix, chunk: seq<Tour>): Best
    requires Scorable(D, chunk) && forall t :: t in chunk ==> |t| >= 1
  {
    FirstCheapest(chunk, CycleCosts(D, chunk))
  }

  /** A non-empty slice's best is one of its routes, with its cycle cost, and no route of the slice is cheaper. */
  lemma SliceBestFacts(D: Matrix, chunk: seq<Tour>)
    requires Scorable(D, chunk) && forall t :: t in chunk ==> |t| >= 1
    ensures var r := SliceBest(D, chunk);
      && (chunk == [] <==> r.tour.None?)
      && (chunk != [] ==> r.tour.value in chunk && r.cost == Finite(CycleCost(D, r.tour.value)))
      && forall t :: t in chunk ==> AtMost(r.cost, Finite(CycleCost(D, t)))
  {
    if chunk != [] {
      var c := CycleCosts(D, chunk);
      var k := ArgMin(c);
      forall t | t in chunk ensures c[k] <= CycleCost(D, t) {
        var j :| 0 <= j < |chunk| && chunk[j] == t;
        assert c[k] <= c[j];
      }
    }
  }

  /** `route_cost` raises on no route of `chunk`: each is non-empty and names only rows of the table. */
  predicate Costable(D: Matrix, chunk: seq<Tour>)
  {
    Scorable(D, chunk) && forall t :: t in chunk ==> |t| >= 1
  }

  /**
    What a thread contributes under the lock: its slice's best, or nothing
    when `route_cost` raises on one of its routes and the thread dies
    before it takes the lock.
  */
  function ThreadAnswer(D: Matrix, chunk: seq<Tour>): Best
  {
    if Costable(D, chunk) then SliceBest(D, chunk) else Best(None, Infinite)
  }

  /** One more route of the scan: it is costable, and the scan's best moves to it only on a strictly smaller cost. */
  lemma ScanStep(D: Matrix, chunk: seq<Tour>, i: nat)
    requires i < |chunk| && Costable(D, chunk[..i]) && |chunk[i]| >= 1 && Square(D) && InRange(chunk[i], |D|)
    ensures Costable(D, chunk[..i + 1])
    ensures FirstCheapest(chunk[..i + 1], CycleCosts(D, chunk[..i + 1]))
      == Merge(FirstCheapest(chunk[..i], CycleCosts(D, chunk[..i])), Best(Some(chunk[i]), Finite(CycleCost(D, chunk[i]))))
  {
    var ts := chunk[..i + 1];
    assert ts == chunk[..i] + [chunk[i]];
    assert Costable(D, ts);
    var c := CycleCosts(D, ts);
    FirstCheapestSnoc(ts, c, i);
    assert ts[..i] == chunk[..i] && ts[..i + 1] == ts;
    assert c[..i] == CycleCosts(D, chunk[..i]) && c[..i + 1] == c;
  }

  /** `i * cs`, the start of slice `i`, built up by repeated addition. */
  function Offset(i: nat, cs: nat): nat
    decreases i
  {
    if i == 0 then 0 else Offset(i - 1, cs) + cs
  }

  lemma {:induction false} OffsetIsProduct(i: nat, cs: nat)
    ensures Offset(i, cs) == i * cs
    decreases i
  {
    if i > 0 {
      OffsetIsProduct(i - 1, cs);
      assert i * cs == (i - 1) * cs + cs;
    }
  }

  /** The non-empty slices `routes[i*cs : i*cs+cs]` for `i` in `range(count)`, in order. */
  function StartedSlices(routes: seq<Tour>, cs: nat, count: nat): seq<seq<Tour>>
    decreases count
  {
    if count == 0 then []
    else
      var lo := Offset(count - 1, cs);
      var chunk := PySlice(routes, lo, lo + cs);
      if chunk == [] then StartedSlices(routes, cs, count - 1) else StartedSlices(routes, cs, count - 1) + [chunk]
  }

  /** Slice `i` starts at `i * cs` and is kept exactly when it is non-empty. */
  lemma StartedSlicesStep(routes: seq<Tour>, cs: nat, i: nat)
    ensures i * cs == Offset(i, cs)
    ensures var chunk := PySlice(routes, i * cs, i * cs + cs);
      StartedSlices(routes, cs, i + 1) == if chunk == [] then StartedSlices(routes, cs, i) else StartedSlices(routes, cs, i) + [chunk]
  {
    OffsetIsProduct(i, cs);
  }

  /**
    The first `count` slices laid end to end are the first `count * cs`
    routes (all of them once `count * cs` reaches their number).
  */
  lemma {:induction false} StartedSlicesCover(routes: seq<Tour>, cs: nat, count: nat)
    requires cs >= 1
    ensures Flatten(StartedSlices(routes, cs, count)) == routes[..Min(Offset(count, cs), |routes|)]
    decreases count
  {
    if count > 0 {
      StartedSlicesCover(routes, cs, count - 1);
      var before := StartedSlices(routes, cs, count - 1);
      var lo := Offset(count - 1, cs);
      var hi := lo + cs;
      var chunk := PySlice(routes, lo, hi);
      if lo < |routes| {
        FlattenSnoc(before, chunk);
        PrefixThenSlice(routes, lo, Min(hi, |routes|));
      }
    }
  }

  /** No started slice is empty or longer than `cs`. */
  lemma {:induction false} StartedSlicesShape(routes: seq<Tour>, cs: nat, count: nat)
    ensures forall ch :: ch in StartedSlices(routes, cs, count) ==> 1 <= |ch| <= cs
    decreases count
  {
    if count > 0 {
      StartedSlicesShape(routes, cs, count - 1);
      var before := StartedSlices(routes, cs, count - 1);
      var lo := Offset(count - 1, cs);
      var chunk := PySlice(routes, lo, lo + cs);
      var now := StartedSlices(routes, cs, count);
      if chunk != [] {
        forall ch | ch in now ensures 1 <= |ch| <= cs {
          if ch != chunk {
            assert ch in before;
          }
        }
      }
    }
  }

  /** At most `count` slices are started. */
  lemma {:induction false} StartedSlicesCount(routes: seq<Tour>, cs: nat, count: nat)
    ensures |StartedSlices(routes, cs, count)| <= count
    decreases count
  {
    if count > 0 {
      StartedSlicesCount(routes, cs, count - 1);
    }
  }

  /** Laid end to end, the slices for all `T` threads are exactly the routes. */
  lemma SlicesPartition(routes: seq<Tour>, T: nat)
    requires T >= 1
    ensures var cs := CeilDiv(|routes|, T);
      && (|routes| >= 1 ==> cs >= 1)
      && (cs >= 1 ==> Flatten(StartedSlices(routes, cs, T)) == routes)
  {
    var cs := CeilDiv(|routes|, T);
    OffsetIsProduct(T, cs);
    assert T * cs == cs * T;
    if cs >= 1 {
      StartedSlicesCover(routes, cs, T);
    }
  }

  /** The tours a slice holds are among the routes. */
  lemma {:induction false} StartedSlicesMembers(routes: seq<Tour>, cs: nat, count: nat)
    requires cs >= 1
    ensures forall ch, t :: ch in StartedSlices(routes, cs, count) && t in ch ==> t in routes
  {
    forall ch, t | ch in StartedSlices(routes, cs, count) && t in ch ensures t in routes {
      StartedSlicesCover(routes, cs, count);
      var cs' := StartedSlices(routes, cs, count);
      var k :| 0 <= k < |cs'| && cs'[k] == ch;
      FlattenHolds(cs', k, t);
    }
  }

  /** The answers merged under the lock, in the order `schedule` of the threads taking it. */
  function InLockOrder(D: Matrix, slices: seq<seq<Tour>>, schedule: seq<nat>): (r: seq<Best>)
    requires forall j :: 0 <= j < |schedule| ==> schedule[j] < |slices|
    ensures |r| == |schedule|
    ensures forall j :: 0 <= j < |schedule| ==> r[j] == ThreadAnswer(D, slices[schedule[j]])
  {
    seq(|schedule|, j requires 0 <= j < |schedule| => ThreadAnswer(D, slices[schedule[j]]))
  }

  lemma InLockOrderSnoc(D: Matrix, slices: seq<seq<Tour>>, schedule: seq<nat>, j: nat)
    requires forall i :: 0 <= i < |schedule| ==> schedule[i] < |slices|
    requires j < |schedule|
    ensures InLockOrder(D, slices, schedule[..j + 1]) == InLockOrder(D, slices, schedule[..j]) + [ThreadAnswer(D, slices[schedule[j]])]
  {
    assert schedule[..j + 1][..j] == schedule[..j];
  }

  class TSPParallelBruteForceSolver {
    const problem: TSPProblem
    const numThreads: nat
    var bestRoute: Option<Tour>
    var bestCost: Cost

    /** `num_threads` defaults to the processor count. */
    constructor (problem: TSPProblem, numThreads: Option<nat>, cpuCount: nat)
      ensures this.problem == problem
      ensures this.numThreads == if numThreads.Some? then numThreads.value else cpuCount
      ensures bestRoute == None && bestCost == Infinite
    {
      this.problem := problem;
      this.numThreads := if numThreads.Some? then numThreads.value else cpuCount;
      bestRoute := None;
      bestCost := Infinite;
    }

    /**
      The local loop of `_worker`: scans the slice with a strict `<`,
      starting from infinity; `raised` says that `route_cost` raised on a
      route, which ends the thread.
    */
    static method ScanSlice(D: Matrix, permutationsChunk: seq<Tour>) returns (raised: bool, localBestRoute: Tour, localBestCost: Cost)
      requires Square(D)
      ensures raised <==> !Costable(D, permutationsChunk)
      ensures !raised && permutationsChunk == [] ==> localBestRoute == [] && localBestCost == Infinite
      ensures !raised && permutationsChunk != [] ==> Best(Some(localBestRoute), localBestCost) == SliceBest(D, permutationsChunk)
    {
      localBestCost := Infinite;
      localBestRoute := [];
      for i := 0 to |permutationsChunk|
        invariant Costable(D, permutationsChunk[..i])
        invariant localBestCost == FirstCheapest(permutationsChunk[..i], CycleCosts(D, permutationsChunk[..i])).cost
        invariant i > 0 ==> Some(localBestRoute) == FirstCheapest(permutationsChunk[..i], CycleCosts(D, permutationsChunk[..i])).tour
        invariant i == 0 ==> localBestRoute == []
      {
        var perm := permutationsChunk[i];
        if |perm| == 0 || !InRange(perm, |D|) {
          assert perm in permutationsChunk;
          return true, localBestRoute, localBestCost;
        }
        ScanStep(D, permutationsChunk, i);
        var cost := RouteCost(D, perm);
        if Less(Finite(cost), localBestCost) {
          localBestCost := Finite(cost);
          localBestRoute := perm;
        }
      }
      assert permutationsChunk[..|permutationsChunk|] == permutationsChunk;
      raised := false;
    }

    /**
      Finds the slice's best, then, holding the lock, adopts it only if it
      is strictly cheaper than the shared one; a thread whose scan raised
      never reaches the lock.
    */
    method Worker(permutationsChunk: seq<Tour>)
      requires Square(problem.distances)
      modifies this
      ensures Best(bestRoute, bestCost) == Merge(old(Best(bestRoute, bestCost)), ThreadAnswer(problem.distances, permutationsChunk))
    {
      var raised, localBestRoute, localBestCost := ScanSlice(problem.distances, permutationsChunk);
      if raised {
        return;
      }
      if Less(localBestCost, bestCost) {
        bestCost := localBestCost;
        bestRoute := Some(localBestRoute);
      }
    }

    /** The slice loop of `solve`: slice `i` is `all_routes[i*cs : i*cs+cs]`, and an empty one starts no thread. */
    static method StartThreads(allRoutes: seq<Tour>, chunkSize: nat, numThreads: nat) returns (threads: seq<seq<Tour>>)
      ensures threads == StartedSlices(allRoutes, chunkSize, numThreads)
    {
      threads := [];
      for i := 0 to numThreads
        invariant threads == StartedSlices(allRoutes, chunkSize, i)
      {
        StartedSlicesStep(allRoutes, chunkSize, i);
        var start := i * chunkSize;
        var end := start + chunkSize;
        var chunk := PySlice(allRoutes, start, end);
        if chunk == [] {
          continue;
        }
        threads := threads + [chunk];
      }
    }

    /**
      The started workers, each running atomically when it takes the lock,
      in the order `schedule`.
    */
    method RunWorkers(threads: seq<seq<Tour>>, schedule: seq<nat>)
      requires Square(problem.distances)
      requires forall j :: 0 <= j < |schedule| ==> schedule[j] < |threads|
      modifies this
      ensures Best(bestRoute, bestCost) == MergeAll(old(Best(bestRoute, bestCost)), InLockOrder(problem.distances, threads, schedule))
    {
      var D := problem.distances;
      ghost var b0 := Best(bestRoute, bestCost);
      for j := 0 to |schedule|
        invariant Best(bestRoute, bestCost) == MergeAll(b0, InLockOrder(D, threads, schedule[..j]))
      {
        Worker(threads[schedule[j]]);
        InLockOrderSnoc(D, threads, schedule, j);
        MergeAllSnoc(b0, InLockOrder(D, threads, schedule[..j]), ThreadAnswer(D, threads[schedule[j]]));
      }
      assert schedule[..|schedule|] == schedule;
    }

    /**
      Builds the routes, starts one worker per non-empty slice and returns
      the shared best once every worker has merged its answer; `schedule`
      is the order in which the workers take the lock.
    */
    method Solve(schedule: seq<nat>) returns (route: Option<Tour>, cost: Cost)
      requires WellFormed(problem) && numThreads >= 1
      requires IsPermutationOf(schedule, Range(0, |StartedSlices(FixedFirstTours(problem.n), CeilDiv(|FixedFirstTours(problem.n)|, numThreads), numThreads)|))
      modifies this
      ensures var routes := FixedFirstTours(problem.n);
        var slices := StartedSlices(routes, CeilDiv(|routes|, numThreads), numThreads);
        && (forall j :: 0 <= j < |schedule| ==> schedule[j] < |slices|)
        && route == bestRoute && cost == bestCost
        && Best(route, cost) == MergeAll(old(Best(bestRoute, bestCost)), InLockOrder(problem.distances, slices, schedule))
      ensures problem.n == 0 && old(bestRoute) == None && old(bestCost) == Infinite ==> route == None && cost == Infinite
    {
      var D := problem.distances;
      var otherCities := Range(1, problem.n);
      var allPerms := Perms(otherCities);
      var allRoutes := Prepend(0, allPerms);
      var chunkSize := CeilDiv(|allRoutes|, numThreads);
      var threads := StartThreads(allRoutes, chunkSize, numThreads);
      ScheduleInRange(schedule, |threads|);
      RunWorkers(threads, schedule);
      if problem.n == 0 {
        NoCityThreadsFindNothing(D, threads, schedule);
      }
      return bestRoute, bestCost;
    }
  }

  /** A permutation of the thread indices names only started threads. */
  lemma ScheduleInRange(schedule: seq<nat>, count: nat)
    requires IsPermutationOf(schedule, Range(0, count))
    ensures forall j :: 0 <= j < |schedule| ==> schedule[j] < count
  {
    forall j | 0 <= j < |schedule| ensures schedule[j] < count {
      assert schedule[j] in Range(0, count);
    }
  }

  /**
    With no city the one route `[0]` indexes an empty table, so every
    thread raises before the lock and the solver keeps no route and an
    infinite cost.
  */
  lemma NoCityThreadsFindNothing(D: Matrix, slices: seq<seq<Tour>>, schedule: seq<nat>)
    requires |D| == 0 && forall j :: 0 <= j < |schedule| ==> schedule[j] < |slices|
    ensures MergeAll(Best(None, Infinite), InLockOrder(D, slices, schedule)) == Best(None, Infinite)
  {
    var cands := InLockOrder(D, slices, schedule);
    forall x | x in cands ensures x == Best(None, Infinite) {
      var j :| 0 <= j < |cands| && cands[j] == x;
      var ch := slices[schedule[j]];
      if ch != [] {
        assert ch[0] in ch;
      }
    }
    MergeAllBounds(Best(None, Infinite), cands);
  }

  /** With no city the routes are the single route `[0]`, as `itertools.permutations(range(1, 0))` yields one empty tuple. */
  lemma NoCityRoutes()
    ensures FixedFirstTours(0) == [[0]]
  {
    var none := Range(1, 0);
    assert |none| == 0;
    assert Perms(none) == [[]];
    var rs := Prepend(0, Perms(none));
    assert |rs| == 1 && rs[0] == [0] + [];
    assert rs[0] == [0];
    assert rs == [[0]];
  }

  /** Every slice holds scorable non-empty routes. */
  lemma RoutesScorable(D: Matrix, routes: seq<Tour>, cs: nat, T: nat, n: nat)
    requires |D| == n && n >= 1 && Square(D) && routes == FixedFirstTours(n)
    ensures forall ch :: ch in StartedSlices(routes, cs, T) ==> Scorable(D, ch) && forall t :: t in ch ==> |t| >= 1
  {
    FixedFirstToursShape(n);
    if cs >= 1 {
      StartedSlicesMembers(routes, cs, T);
    } else {
      ZeroWidthSlices(routes, T);
    }
  }

  lemma {:induction false} ZeroWidthSlices(routes: seq<Tour>, count: nat)
    ensures StartedSlices(routes, 0, count) == []
    decreases count
  {
    if count > 0 {
      ZeroWidthSlices(routes, count - 1);
    }
  }

  /**
    Whatever order the threads take the lock in, the solver started with no
    route and infinite cost ends with an optimal tour: a fixed-first-city
    route whose cost is its cycle cost and is at most that of every ordering
    of the cities.
  */
  lemma ParallelIsOptimal(D: Matrix, n: nat, T: nat, schedule: seq<nat>)
    requires Square(D) && |D| == n && n >= 1 && T >= 1
    requires var routes := FixedFirstTours(n);
      IsPermutationOf(schedule, Range(0, |StartedSlices(routes, CeilDiv(|routes|, T), T)|))
    ensures var routes := FixedFirstTours(n);
      var slices := StartedSlices(routes, CeilDiv(|routes|, T), T);
      && (forall ch :: ch in slices ==> Scorable(D, ch) && forall t :: t in ch ==> |t| >= 1)
      && var r := MergeAll(Best(None, Infinite), InLockOrder(D, slices, schedule));
      && r.tour.Some? && r.cost.Finite? && r.tour.value in routes
      && IsOptimalTour(D, n, r.tour.value, r.cost.value)
  {
    var routes := FixedFirstTours(n);
    var cs := CeilDiv(|routes|, T);
    var slices := StartedSlices(routes, cs, T);
    FixedFirstToursFacts(n);
    FixedFirstToursShape(n);
    SlicesPartition(routes, T);
    RoutesScorable(D, routes, cs, T, n);
    StartedSlicesMembers(routes, cs, T);
    var cands := InLockOrder(D, slices, schedule);
    var r := MergeAll(Best(None, Infinite), cands);
    MergeAllBounds(Best(None, Infinite), cands);
    MergedBeatsEveryRoute(D, n, routes, slices, schedule);
    assert routes[0] in routes;
    assert r != Best(None, Infinite);
    var j :| 0 <= j < |cands| && cands[j] == r;
    var ch := slices[schedule[j]];
    assert ch in slices;
    StartedSlicesShape(routes, cs, T);
    SliceBestFacts(D, ch);
    FixedFirstOptimal(D, n, r.tour.value, r.cost.value);
  }

  /** The merged answer costs no more than any route. */
  lemma MergedBeatsEveryRoute(D: Matrix, n: nat, routes: seq<Tour>, slices: seq<seq<Tour>>, schedule: seq<nat>)
    requires Square(D) && |D| == n && Flatten(slices) == routes
    requires forall t :: t in routes ==> |t| >= 1 && InRange(t, n)
    requires forall ch :: ch in slices ==> Scorable(D, ch) && forall t :: t in ch ==> |t| >= 1
    requires IsPermutationOf(schedule, Range(0, |slices|))
    ensures forall i :: 0 <= i < |schedule| ==> schedule[i] < |slices|
    ensures forall f :: f in routes ==> AtMost(MergeAll(Best(None, Infinite), InLockOrder(D, slices, schedule)).cost, Finite(CycleCost(D, f)))
  {
    var cands := InLockOrder(D, slices, schedule);
    var r := MergeAll(Best(None, Infinite), cands);
    MergeAllBounds(Best(None, Infinite), cands);
    forall f | f in routes ensures AtMost(r.cost, Finite(CycleCost(D, f))) {
      var j := LockTurnOf(D, slices, schedule, f);
      assert cands[j] in cands;
    }
  }

  /** Every route lies in some started slice, whose thread has a turn at the lock; its answer costs no more than the route. */
  lemma LockTurnOf(D: Matrix, slices: seq<seq<Tour>>, schedule: seq<nat>, f: Tour) returns (j: nat)
    requires forall ch :: ch in slices ==> Scorable(D, ch) && forall t :: t in ch ==> |t| >= 1
    requires IsPermutationOf(schedule, Range(0, |slices|))
    requires f in Flatten(slices) && Square(D) && InRange(f, |D|) && |f| >= 1
    ensures j < |schedule| && f in slices[schedule[j]] && schedule[j] < |slices|
    ensures forall i :: 0 <= i < |schedule| ==> schedule[i] < |slices|
    ensures AtMost(InLockOrder(D, slices, schedule)[j].cost, Finite(CycleCost(D, f)))
  {
    forall i | 0 <= i < |schedule| ensures schedule[i] < |slices| {
      assert schedule[i] in Range(0, |slices|);
    }
    InFlatten(slices, f);
    var k :| 0 <= k < |slices| && f in slices[k];
    assert k in Range(0, |slices|);
    assert k in multiset(schedule);
    j :| 0 <= j < |schedule| && schedule[j] == k;
    assert slices[k] in slices;
    SliceBestFacts(D, slices[k]);
  }
}
