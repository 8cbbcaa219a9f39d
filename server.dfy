/**
  The master of the distributed solver. It builds the search space once
  (city 0 followed by every ordering of the other cities), hands it out in
  consecutive chunks through a cursor that only moves forward, and keeps the
  best tour any worker has reported, replacing it only on a strictly shorter
  one. Each lock-guarded method is one atomic step here.
*/
module Server {
  import opened Tours
  import opened Permutations
  import opened Calculations
  import opened MordorData
  import opened Client

  /** The `chunk_size` that `handle_client` claims with. */
  const ChunkSize: nat := 1000

  /** The chunks handed out from cursor `c` until the space is exhausted: `k` tours each, the last possibly fewer. */
  function Chunks(all: seq<Tour>, c: nat, k: nat): seq<seq<Tour>>
    requires k >= 1 && c <= |all|
    decreases |all| - c
  {
    if c == |all| then []
    else
      var e := Min(c + k, |all|);
      [all[c..e]] + Chunks(all, e, k)
  }

  /**
    Claiming from cursor `c` until nothing is left gives chunks, none empty
    and none longer than `k`, whose concatenation is the rest of the space:
    no gap and no overlap.
  */
  lemma {:induction false} ChunksPartition(all: seq<Tour>, c: nat, k: nat)
    requires k >= 1 && c <= |all|
    ensures Flatten(Chunks(all, c, k)) == all[c..]
    decreases |all| - c
  {
    if c < |all| {
      var e := Min(c + k, |all|);
      ChunksPartition(all, e, k);
      assert Chunks(all, c, k)[1..] == Chunks(all, e, k);
      assert all[c..] == all[c..e] + all[e..];
    }
  }

  /** Every chunk holds between one and `k` tours. */
  lemma {:induction false} ChunksSizes(all: seq<Tour>, c: nat, k: nat)
    requires k >= 1 && c <= |all|
    ensures forall ch :: ch in Chunks(all, c, k) ==> 1 <= |ch| <= k
    decreases |all| - c
  {
    if c < |all| {
      var e := Min(c + k, |all|);
      var cs := Chunks(all, c, k);
      ChunksSizes(all, e, k);
      assert cs == [all[c..e]] + Chunks(all, e, k);
    }
  }

  /** There are `ceil((total - c) / k)` of them. */
  lemma {:induction false} ChunksCount(all: seq<Tour>, c: nat, k: nat)
    requires k >= 1 && c <= |all|
    ensures |Chunks(all, c, k)| == CeilDiv(|all| - c, k)
    decreases |all| - c
  {
    if c < |all| {
      var e := Min(c + k, |all|);
      ChunksCount(all, e, k);
      assert |all| - e == (|all| - c) - Min(|all| - c, k);
      assert |Chunks(all, c, k)| == 1 + |Chunks(all, e, k)|;
    }
  }

  /** A slice of a scorable space is scorable. */
  lemma SliceScorable(D: Matrix, all: seq<Tour>, lo: nat, hi: nat)
    requires lo <= hi <= |all| && Scorable(D, all)
    ensures Scorable(D, all[lo..hi])
  {
    forall t | t in all[lo..hi] ensures t in all {
      var j :| 0 <= j < hi - lo && all[lo..hi][j] == t;
      assert all[lo + j] == t;
    }
  }

  /** The package sent for each chunk, in order. */
  function Packages(chunks: seq<seq<Tour>>, D: Matrix): seq<ServerMessage>
    decreases |chunks|
  {
    if chunks == [] then [] else [WorkPackage(chunks[0], D)] + Packages(chunks[1..], D)
  }

  /** The worker's answer to each chunk handed out from cursor `c` on, in order. */
  function Answers(D: Matrix, all: seq<Tour>, c: nat, k: nat): seq<Best>
    requires k >= 1 && c <= |all| && Scorable(D, all)
    decreases |all| - c
  {
    if c == |all| then []
    else
      var e := Min(c + k, |all|);
      SliceScorable(D, all, c, e);
      ChunkBestOnTable(D, all[c..e]);
      [ChunkBest(D, all[c..e])] + Answers(D, all, e, k)
  }

  /**
    Merging the answers for the chunks from cursor `c` on into the first
    cheapest tour of the part already handed out gives the first cheapest
    tour of the whole space: a chunked search finds the same tour as one
    scan over everything, ties included.
  */
  lemma {:induction false} ChunkedScanSelects(D: Matrix, all: seq<Tour>, c: nat, k: nat, b: Best)
    requires k >= 1 && c <= |all| && Scorable(D, all)
    requires SelectsFirstMin(all[..c], TourCosts(D, all)[..c], b)
    ensures SelectsFirstMin(all, TourCosts(D, all), MergeAll(b, Answers(D, all, c, k)))
    decreases |all| - c
  {
    var costs := TourCosts(D, all);
    if c == |all| {
      assert all[..c] == all && costs[..c] == costs;
    } else {
      var e := Min(c + k, |all|);
      AnswersStep(D, all, c, k);
      var a := ChunkBest(D, all[c..e]);
      MergeAllStep(b, a, Answers(D, all, e, k));
      ChunkSelects(D, all, c, e, b);
      ChunkedScanSelects(D, all, e, k, Merge(b, a));
    }
  }

  /** Merging one more chunk's answer extends the first cheapest tour of the part handed out by that chunk. */
  lemma ChunkSelects(D: Matrix, all: seq<Tour>, c: nat, e: nat, b: Best)
    requires c <= e <= |all| && Scorable(D, all)
    requires SelectsFirstMin(all[..c], TourCosts(D, all)[..c], b)
    ensures Scorable(D, all[c..e]) && Measurable(D, all[c..e])
    ensures SelectsFirstMin(all[..e], TourCosts(D, all)[..e], Merge(b, ChunkBest(D, all[c..e])))
  {
    var costs := TourCosts(D, all);
    var ch := all[c..e];
    SliceScorable(D, all, c, e);
    ChunkBestOnTable(D, ch);
    FirstCheapestSelects(ch, TourCosts(D, ch));
    assert TourCosts(D, ch) == costs[c..e];
    MergeSelects(all[..c], costs[..c], b, ch, costs[c..e], ChunkBest(D, ch));
    PrefixThenSlice(all, c, e);
    PrefixThenSlice(costs, c, e);
  }

  /** The first cheapest tour of the whole space is a tour of cost at most every tour's. */
  lemma SelectedIsOptimal(D: Matrix, ts: seq<Tour>, b: Best)
    requires Scorable(D, ts) && SelectsFirstMin(ts, TourCosts(D, ts), b)
    ensures ts == [] <==> b.tour.None?
    ensures ts != [] ==> b.tour.value in ts && b.cost == Finite(TourCost(D, b.tour.value))
    ensures forall t :: t in ts ==> AtMost(b.cost, Finite(TourCost(D, t)))
  {
    if ts != [] {
      var c := TourCosts(D, ts);
      var k :| FirstMin(c, k) && b == Best(Some(ts[k]), Finite(c[k]));
      forall t | t in ts ensures c[k] <= TourCost(D, t) {
        var j :| 0 <= j < |ts| && ts[j] == t;
        assert c[k] <= c[j];
      }
    }
  }

  /** A worker fed the messages of a session answers every chunk, in order, and then stops. */
  lemma {:induction false} WorkerAnswersSession(D: Matrix, all: seq<Tour>, c: nat, k: nat)
    requires k >= 1 && c <= |all| && Scorable(D, all)
    ensures Responses(Delivered(Packages(Chunks(all, c, k), D) + [Sentinel])) == Answers(D, all, c, k)
    decreases |all| - c
  {
    if c == |all| {
      assert Delivered([Sentinel]) == [Received(Sentinel)];
    } else {
      var e := Min(c + k, |all|);
      var ch := all[c..e];
      AnswersStep(D, all, c, k);
      var later := Packages(Chunks(all, e, k), D) + [Sentinel];
      AppendStep([], WorkPackage(ch, D), Packages(Chunks(all, e, k), D), Packages(Chunks(all, c, k), D));
      assert Packages(Chunks(all, c, k), D) + [Sentinel] == [WorkPackage(ch, D)] + later;
      WorkerAnswersSession(D, all, e, k);
      DeliveredCons(WorkPackage(ch, D), later);
      OneAnswerPerChunk(D, ch, Delivered(later));
    }
  }

  lemma DeliveredCons(m: ServerMessage, ms: seq<ServerMessage>)
    ensures Delivered([m] + ms) == [Received(m)] + Delivered(ms)
  {
  }

  /** The answers in the order their replies reach `process_client_result`: `arrival[j]` is the chunk answered `j`-th. */
  function InArrivalOrder(answers: seq<Best>, arrival: seq<nat>): (r: seq<Best>)
    requires forall j :: 0 <= j < |arrival| ==> arrival[j] < |answers|
    ensures |r| == |arrival|
    ensures forall j :: 0 <= j < |arrival| ==> r[j] == answers[arrival[j]]
  {
    seq(|arrival|, j requires 0 <= j < |arrival| => answers[arrival[j]])
  }

  /** Answer `i` is the worker's answer to chunk `i`. */
  lemma {:induction false} AnswersAreChunkBests(D: Matrix, all: seq<Tour>, c: nat, k: nat)
    requires k >= 1 && c <= |all| && Scorable(D, all)
    ensures |Answers(D, all, c, k)| == |Chunks(all, c, k)|
    ensures forall i :: 0 <= i < |Chunks(all, c, k)| ==>
      var ch := Chunks(all, c, k)[i];
      Scorable(D, ch) && Measurable(D, ch) && Answers(D, all, c, k)[i] == ChunkBest(D, ch)
    decreases |all| - c
  {
    if c < |all| {
      var e := Min(c + k, |all|);
      AnswersStep(D, all, c, k);
      AnswersAreChunkBests(D, all, e, k);
      forall i | 1 <= i < |Chunks(all, c, k)|
        ensures Chunks(all, c, k)[i] == Chunks(all, e, k)[i - 1] && Answers(D, all, c, k)[i] == Answers(D, all, e, k)[i - 1]
      {
      }
    }
  }

  /** A chunk's answer is one of the space's tours at its total distance, and no tour of the chunk is shorter. */
  lemma ChunkAnswerFacts(D: Matrix, all: seq<Tour>, k: nat, i: nat)
    requires k >= 1 && Scorable(D, all) && i < |Chunks(all, 0, k)|
    ensures |Answers(D, all, 0, k)| == |Chunks(all, 0, k)| && Scorable(D, Chunks(all, 0, k)[i])
    ensures var x := Answers(D, all, 0, k)[i];
      && x.tour.Some? && x.tour.value in all && x.cost == Finite(TourCost(D, x.tour.value))
      && forall t :: t in Chunks(all, 0, k)[i] ==> AtMost(x.cost, Finite(TourCost(D, t)))
  {
    AnswersAreChunkBests(D, all, 0, k);
    var cs := Chunks(all, 0, k);
    var ch := cs[i];
    ChunksSizes(all, 0, k);
    assert ch in cs;
    ChunkBestOnTable(D, ch);
    FirstCheapestSelects(ch, TourCosts(D, ch));
    SelectedIsOptimal(D, ch, ChunkBest(D, ch));
    ChunksPartition(all, 0, k);
    assert all[0..] == all;
    FlattenHolds(cs, i, ChunkBest(D, ch).tour.value);
  }

  /**
    With several workers the replies reach the master in any order. Whatever
    that order, the kept best is a tour of the space at its total distance,
    and no tour of the space is shorter; which of two equally short tours is
    kept depends on the order.
  */
  lemma AnyArrivalOrderIsCheapest(D: Matrix, all: seq<Tour>, k: nat, arrival: seq<nat>)
    requires k >= 1 && Scorable(D, all)
    requires IsPermutationOf(arrival, Range(0, |Chunks(all, 0, k)|))
    ensures |Answers(D, all, 0, k)| == |Chunks(all, 0, k)|
    ensures forall j :: 0 <= j < |arrival| ==> arrival[j] < |Answers(D, all, 0, k)|
    ensures var r := MergeAll(Best(None, Infinite), InArrivalOrder(Answers(D, all, 0, k), arrival));
      && (all == [] <==> r.tour.None?)
      && (all != [] ==> r.tour.value in all && r.cost == Finite(TourCost(D, r.tour.value)))
      && forall t :: t in all ==> AtMost(r.cost, Finite(TourCost(D, t)))
  {
    AnswersAreChunkBests(D, all, 0, k);
    var cs := Chunks(all, 0, k);
    var ans := Answers(D, all, 0, k);
    forall j | 0 <= j < |arrival| ensures arrival[j] < |ans| {
      assert arrival[j] in Range(0, |cs|);
    }
    var cands := InArrivalOrder(ans, arrival);
    var r := MergeAll(Best(None, Infinite), cands);
    MergeAllBounds(Best(None, Infinite), cands);
    ChunksPartition(all, 0, k);
    assert Flatten(cs) == all;
    forall t | t in all ensures AtMost(r.cost, Finite(TourCost(D, t))) {
      InFlatten(cs, t);
      var i :| 0 <= i < |cs| && t in cs[i];
      assert i in Range(0, |cs|);
      assert i in multiset(arrival);
      var j :| 0 <= j < |arrival| && arrival[j] == i;
      ChunkAnswerFacts(D, all, k, i);
      assert cands[j] in cands;
    }
    if all != [] {
      assert all[0] in all;
      assert r != Best(None, Infinite);
      var j :| 0 <= j < |cands| && cands[j] == r;
      ChunkAnswerFacts(D, all, k, arrival[j]);
    } else {
      assert arrival == [];
    }
  }

  /** Each message as the worker receives it, with no connection lost. */
  function Delivered(ms: seq<ServerMessage>): (r: seq<Incoming>)
    ensures |r| == |ms| && forall i :: 0 <= i < |ms| ==> r[i] == Received(ms[i])
  {
    seq(|ms|, i requires 0 <= i < |ms| => Received(ms[i]))
  }

  /** A table with one row and column per city can score the whole space. */
  lemma SpaceScorable(D: Matrix, n: nat)
    requires |D| == n && Square(D)
    ensures Scorable(D, SearchSpace(n))
  {
  }

  lemma AnswersStep(D: Matrix, all: seq<Tour>, c: nat, k: nat)
    requires k >= 1 && c < |all| && Scorable(D, all)
    ensures var e := Min(c + k, |all|);
      && Scorable(D, all[c..e]) && Measurable(D, all[c..e])
      && Chunks(all, c, k) == [all[c..e]] + Chunks(all, e, k)
      && Answers(D, all, c, k) == [ChunkBest(D, all[c..e])] + Answers(D, all, e, k)
      && Packages(Chunks(all, c, k), D) == [WorkPackage(all[c..e], D)] + Packages(Chunks(all, e, k), D)
  {
    var e := Min(c + k, |all|);
    SliceScorable(D, all, c, e);
    ChunkBestOnTable(D, all[c..e]);
    var cs := Chunks(all, c, k);
    assert cs[0] == all[c..e] && cs[1..] == Chunks(all, e, k);
  }

  lemma AppendStep<T>(done: seq<T>, x: T, later: seq<T>, now: seq<T>)
    requires now == [x] + later
    ensures (done + [x]) + later == done + now
  {
  }

  lemma MergeAllStep(b: Best, a: Best, rest: seq<Best>)
    ensures MergeAll(b, [a] + rest) == MergeAll(Merge(b, a), rest)
  {
    assert ([a] + rest)[0] == a && ([a] + rest)[1..] == rest;
  }

  /**
    Handing out the chunk at cursor `p` and merging its answer moves the
    cursor past it without changing what the rest of the session sends or
    finds.
  */
  lemma HandOutStep(D: Matrix, all: seq<Tour>, p: nat, k: nat, cur: Best)
    requires k >= 1 && p < |all| && Scorable(D, all)
    ensures var e := Min(p + k, |all|);
      && Scorable(D, all[p..e]) && Measurable(D, all[p..e])
      && MergeAll(Merge(cur, ChunkBest(D, all[p..e])), Answers(D, all, e, k)) == MergeAll(cur, Answers(D, all, p, k))
      && [WorkPackage(all[p..e], D)] + Packages(Chunks(all, e, k), D) == Packages(Chunks(all, p, k), D)
  {
    var e := Min(p + k, |all|);
    AnswersStep(D, all, p, k);
    MergeAllStep(cur, ChunkBest(D, all[p..e]), Answers(D, all, e, k));
  }

  class TSPMaster {
    const numCities: nat
    const citiesCoords: seq<Coord>
    const nameToIndex: map<string, nat>
    const indexToName: map<nat, string>
    const precomputedDistances: Matrix
    const allPermutations: seq<Tour>
    const totalPermutations: nat
    var permutationIndex: nat
    var bestOverallTour: Option<Tour>
    var minOverallDistance: Cost

    /** The table matches the cities, the space is the fixed-first-city space and the cursor lies within it. */
    ghost predicate Valid()
      reads this
    {
      && |precomputedDistances| == numCities
      && Square(precomputedDistances)
      && allPermutations == SearchSpace(numCities)
      && Scorable(precomputedDistances, allPermutations)
      && totalPermutations == |allPermutations|
      && permutationIndex <= totalPermutations
    }

    /**
      The master over the city table `locations`: the three views of the
      table, the distance table, the search space, the cursor at 0 and no
      best tour yet.
    */
    constructor (locations: seq<(string, Coord)>, dist: (Coord, Coord) -> real)
      requires Distinct(Names(locations))
      ensures Valid()
      ensures var data := CitiesDataOf(locations);
        citiesCoords == data.coords && nameToIndex == data.nameToIndex && indexToName == data.indexToName
      ensures numCities == |locations| && IsDistanceTable(precomputedDistances, citiesCoords, dist)
      ensures allPermutations == SearchSpace(numCities) && totalPermutations == |allPermutations|
      ensures permutationIndex == 0 && bestOverallTour == None && minOverallDistance == Infinite
    {
      var data := CitiesDataOf(locations);
      var D := PrecomputeDistances(data.coords, dist);
      var n := |data.coords|;
      var perms := GenerateAllPermutations(n);
      SpaceScorable(D, n);
      citiesCoords, nameToIndex, indexToName := data.coords, data.nameToIndex, data.indexToName;
      precomputedDistances := D;
      numCities := n;
      allPermutations := perms;
      totalPermutations := |perms|;
      permutationIndex := 0;
      bestOverallTour := None;
      minOverallDistance := Infinite;
    }

    /** No tour for zero cities; otherwise city 0 prepended to each ordering of `1..n-1`, in enumeration order. */
    static method GenerateAllPermutations(n: nat) returns (permutations: seq<Tour>)
      ensures permutations == SearchSpace(n)
    {
      if n == 0 {
        return [];
      }
      var remaining := Perms(Range(1, n));
      permutations := [];
      for i := 0 to |remaining|
        invariant permutations == Prepend(0, remaining[..i])
      {
        permutations := permutations + [[0] + remaining[i]];
      }
      assert remaining[..|remaining|] == remaining;
    }

    /**
      Nothing, and no change, once the cursor has reached the end; otherwise
      the next `chunkSize` tours (fewer at the end), with the cursor moved
      past them.
    */
    method GetWorkChunk(chunkSize: nat) returns (chunk: Option<seq<Tour>>)
      requires Valid()
      modifies this
      ensures Valid()
      ensures chunk.None? <==> old(permutationIndex) >= totalPermutations
      ensures chunk.None? ==> permutationIndex == old(permutationIndex)
      ensures chunk.Some? ==> var e := Min(old(permutationIndex) + chunkSize, totalPermutations);
        chunk.value == allPermutations[old(permutationIndex)..e] && permutationIndex == e
      ensures chunk.Some? && chunkSize >= 1 ==> |chunk.value| >= 1
      ensures old(permutationIndex) <= permutationIndex <= totalPermutations
      ensures bestOverallTour == old(bestOverallTour) && minOverallDistance == old(minOverallDistance)
    {
      if permutationIndex >= totalPermutations {
        return None;
      }
      var startIndex := permutationIndex;
      var endIndex := Min(permutationIndex + chunkSize, totalPermutations);
      chunk := Some(allPermutations[startIndex..endIndex]);
      permutationIndex := endIndex;
    }

    /** A reported tour replaces the best only if its distance is strictly smaller; the first report always does. */
    method ProcessClientResult(clientBestTour: Option<Tour>, clientMinDistance: Cost)
      requires Valid()
      modifies this
      ensures Valid()
      ensures Best(bestOverallTour, minOverallDistance) == Merge(old(Best(bestOverallTour, minOverallDistance)), Best(clientBestTour, clientMinDistance))
      ensures AtMost(minOverallDistance, old(minOverallDistance))
      ensures old(minOverallDistance) == Infinite && clientMinDistance.Finite? ==> bestOverallTour == clientBestTour
      ensures permutationIndex == old(permutationIndex)
    {
      if Less(clientMinDistance, minOverallDistance) {
        minOverallDistance := clientMinDistance;
        bestOverallTour := clientBestTour;
      }
    }

    /**
      One pass of the `handle_client` loop: with work left, claim the next
      chunk, send it, let the worker score it and record the answer; with
      none, send the sentinel and change nothing.
    */
    method ServeNextChunk() returns (msg: ServerMessage)
      requires Valid()
      modifies this
      ensures Valid()
      ensures old(permutationIndex) == totalPermutations ==>
        msg == Sentinel && permutationIndex == old(permutationIndex)
        && bestOverallTour == old(bestOverallTour) && minOverallDistance == old(minOverallDistance)
      ensures old(permutationIndex) < totalPermutations ==>
        var chunk := allPermutations[old(permutationIndex)..Min(old(permutationIndex) + ChunkSize, totalPermutations)];
        && msg == WorkPackage(chunk, precomputedDistances)
        && permutationIndex == Min(old(permutationIndex) + ChunkSize, totalPermutations)
        && Scorable(precomputedDistances, chunk) && Measurable(precomputedDistances, chunk)
        && Best(bestOverallTour, minOverallDistance) == Merge(old(Best(bestOverallTour, minOverallDistance)), ChunkBest(precomputedDistances, chunk))
      ensures old(permutationIndex) < totalPermutations ==>
        && [msg] + Packages(Chunks(allPermutations, permutationIndex, ChunkSize), precomputedDistances)
          == Packages(Chunks(allPermutations, old(permutationIndex), ChunkSize), precomputedDistances)
        && MergeAll(Best(bestOverallTour, minOverallDistance), Answers(precomputedDistances, allPermutations, permutationIndex, ChunkSize))
          == MergeAll(old(Best(bestOverallTour, minOverallDistance)), Answers(precomputedDistances, allPermutations, old(permutationIndex), ChunkSize))
    {
      ghost var p, cur := permutationIndex, Best(bestOverallTour, minOverallDistance);
      var workChunk := GetWorkChunk(ChunkSize);
      if workChunk.None? {
        return Sentinel;
      }
      var chunk := workChunk.value;
      SliceScorable(precomputedDistances, allPermutations, p, permutationIndex);
      ChunkBestOnTable(precomputedDistances, chunk);
      msg := WorkPackage(chunk, precomputedDistances);
      var bestTour, minDistance := TSPWorker.FindBestTourForChunk(chunk, precomputedDistances);
      ProcessClientResult(bestTour, minDistance);
      HandOutStep(precomputedDistances, allPermutations, p, ChunkSize, cur);
    }

    /**
      One client served to the end, the worker answering each package in
      full: the chunks from the cursor on are sent in order, then the
      sentinel; every answer is merged into the best tour.
    */
    method HandleClient() returns (sent: seq<ServerMessage>)
      requires Valid()
      modifies this
      ensures Valid()
      ensures sent == Packages(Chunks(allPermutations, old(permutationIndex), ChunkSize), precomputedDistances) + [Sentinel]
      ensures permutationIndex == totalPermutations
      ensures Best(bestOverallTour, minOverallDistance)
        == MergeAll(old(Best(bestOverallTour, minOverallDistance)), Answers(precomputedDistances, allPermutations, old(permutationIndex), ChunkSize))
    {
      ghost var c0, b0 := permutationIndex, Best(bestOverallTour, minOverallDistance);
      ghost var D, all := precomputedDistances, allPermutations;
      sent := [];
      while true
        invariant Valid() && c0 <= permutationIndex
        invariant sent + Packages(Chunks(all, permutationIndex, ChunkSize), D) == Packages(Chunks(all, c0, ChunkSize), D)
        invariant MergeAll(Best(bestOverallTour, minOverallDistance), Answers(D, all, permutationIndex, ChunkSize))
          == MergeAll(b0, Answers(D, all, c0, ChunkSize))
        decreases totalPermutations - permutationIndex
      {
        ghost var p, cur := permutationIndex, Best(bestOverallTour, minOverallDistance);
        var msg := ServeNextChunk();
        if msg.Sentinel? {
          sent := sent + [Sentinel];
          assert Chunks(all, p, ChunkSize) == [];
          break;
        }
        AppendStep(sent, msg, Packages(Chunks(all, permutationIndex, ChunkSize), D), Packages(Chunks(all, p, ChunkSize), D));
        sent := sent + [msg];
      }
    }
  }

  /**
    A fresh master serving one worker to the end finds the first cheapest
    tour of its space: no tour for zero cities, otherwise a fixed-first-city
    tour of least total distance, the earliest such in enumeration order.
  */
  method ServeOneWorker(locations: seq<(string, Coord)>, dist: (Coord, Coord) -> real) returns (master: TSPMaster, sent: seq<ServerMessage>)
    requires Distinct(Names(locations))
    ensures fresh(master) && master.Valid()
    ensures master.numCities == |locations| && IsDistanceTable(master.precomputedDistances, master.citiesCoords, dist)
    ensures master.citiesCoords == CitiesDataOf(locations).coords
    ensures SelectsFirstMin(master.allPermutations, TourCosts(master.precomputedDistances, master.allPermutations), Best(master.bestOverallTour, master.minOverallDistance))
    ensures Responses(Delivered(sent)) == Answers(master.precomputedDistances, master.allPermutations, 0, ChunkSize)
  {
    master := new TSPMaster(locations, dist);
    sent := master.HandleClient();
    ghost var D, all := master.precomputedDistances, master.allPermutations;
    assert all[..0] == [] && TourCosts(D, all)[..0] == [];
    ChunkedScanSelects(D, all, 0, ChunkSize, Best(None, Infinite));
    WorkerAnswersSession(D, all, 0, ChunkSize);
  }
}
