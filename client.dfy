/**
  The worker of the distributed solver: it scores every tour of a chunk,
  answers with the chunk's cheapest tour, and handles the master's messages
  one at a time until the sentinel arrives.
*/
module Client {
  import opened Tours
  import opened Calculations

  /** A decoded message from the master: the sentinel `None`, or a package of tours with the distance table. */
  datatype ServerMessage = Sentinel | WorkPackage(permutations: seq<Tour>, precomputedDistances: Matrix)

  /** One receive on the worker's socket: an empty read, or a decoded message. */
  datatype Incoming = ConnectionLost | Received(msg: ServerMessage)

  /**
    The worker's answer for one chunk, the `best_tour` and `min_distance`
    of its reply: the first tour of least total distance.
  */
  function ChunkBest(D: Matrix, ts: seq<Tour>): Best
    requires Measurable(D, ts)
  {
    FirstCheapest(ts, TotalDistances(D, ts))
  }

  /** On a square table covering the chunk's cities the answer is the first tour of least `TourCost`. */
  lemma ChunkBestOnTable(D: Matrix, ts: seq<Tour>)
    requires Scorable(D, ts)
    ensures Measurable(D, ts) && ChunkBest(D, ts) == FirstCheapest(ts, TourCosts(D, ts))
  {
    TableScoresChunk(D, ts);
  }

  /**
    No tour and infinity for an empty chunk; otherwise a tour of the chunk
    with its total distance, no tour of the chunk is shorter, and every tour
    before it in the chunk is strictly longer.
  */
  lemma ChunkBestIsFirstCheapest(D: Matrix, ts: seq<Tour>)
    requires Measurable(D, ts)
    ensures var r := ChunkBest(D, ts);
      && (ts == [] <==> r.tour.None?)
      && (ts == [] ==> r.cost == Infinite)
      && (ts != [] ==> r.tour.value in ts && r.cost == Finite(TotalDistance(D, r.tour.value)))
      && (forall t :: t in ts ==> AtMost(r.cost, Finite(TotalDistance(D, t))))
      && (ts != [] ==> exists k :: (0 <= k < |ts| && r.tour == Some(ts[k])
            && forall j :: 0 <= j < k ==> TotalDistance(D, ts[k]) < TotalDistance(D, ts[j])))
  {
    if ts != [] {
      var c := TotalDistances(D, ts);
      var k := ArgMin(c);
      forall t | t in ts ensures TotalDistance(D, ts[k]) <= TotalDistance(D, t) {
        var j :| 0 <= j < |ts| && ts[j] == t;
        assert c[k] <= c[j];
      }
    }
  }

  /** A message after which the worker keeps listening: a package it can score, or an empty one. */
  predicate KeepsListening(m: Incoming)
  {
    m.Received? && m.msg.WorkPackage? && (m.msg.permutations == [] || Measurable(m.msg.precomputedDistances, m.msg.permutations))
  }

  /**
    The answers the worker sends for the messages it receives, in order: an
    empty package is skipped; the sentinel, an empty read and a package with
    a tour whose scoring indexes a missing entry end the loop without an
    answer.
  */
  function Responses(inbox: seq<Incoming>): seq<Best>
    decreases |inbox|
  {
    if inbox == [] then []
    else match inbox[0]
      case ConnectionLost => []
      case Received(Sentinel) => []
      case Received(WorkPackage(ps, D)) =>
        if ps == [] then Responses(inbox[1..])
        else if !Measurable(D, ps) then []
        else [ChunkBest(D, ps)] + Responses(inbox[1..])
  }

  /**
    The worker carries nothing from one chunk to the next: the answers to a
    run of packages followed by more messages are the answers to each part.
  */
  lemma {:induction false} ResponsesCompose(a: seq<Incoming>, b: seq<Incoming>)
    requires forall m :: m in a ==> KeepsListening(m)
    ensures Responses(a + b) == Responses(a) + Responses(b)
    decreases |a|
  {
    if a != [] {
      assert a[0] in a;
      assert (a + b)[0] == a[0];
      assert (a + b)[1..] == a[1..] + b;
      ResponsesCompose(a[1..], b);
      var ps, D := a[0].msg.permutations, a[0].msg.precomputedDistances;
      if ps == [] {
        assert Responses(a + b) == Responses(a[1..] + b);
        assert Responses(a) == Responses(a[1..]);
      } else {
        var r := ChunkBest(D, ps);
        assert Responses(a + b) == [r] + Responses(a[1..] + b);
        assert Responses(a) == [r] + Responses(a[1..]);
        assert [r] + (Responses(a[1..]) + Responses(b)) == ([r] + Responses(a[1..])) + Responses(b);
      }
    } else {
      assert a + b == b;
    }
  }

  /** Nothing received after the sentinel is answered. */
  lemma SentinelEndsWork(a: seq<Incoming>, rest: seq<Incoming>)
    requires forall m :: m in a ==> KeepsListening(m)
    ensures Responses(a + [Received(Sentinel)] + rest) == Responses(a)
  {
    ResponsesCompose(a, [Received(Sentinel)] + rest);
    assert a + [Received(Sentinel)] + rest == a + ([Received(Sentinel)] + rest);
  }

  /** One answer per non-empty package, each depending on that chunk alone. */
  lemma OneAnswerPerChunk(D: Matrix, ps: seq<Tour>, rest: seq<Incoming>)
    requires ps != [] && Measurable(D, ps)
    ensures Responses([Received(WorkPackage(ps, D))] + rest) == [ChunkBest(D, ps)] + Responses(rest)
    ensures Responses([Received(WorkPackage([], D))] + rest) == Responses(rest)
  {
    assert ([Received(WorkPackage(ps, D))] + rest)[1..] == rest;
    assert ([Received(WorkPackage([], D))] + rest)[1..] == rest;
  }

  /** A one-city tour reads no entry: it is answered with distance 0 whatever the table. */
  lemma OneCityAnyTable(D: Matrix, a: nat, rest: seq<Incoming>)
    ensures Responses([Received(WorkPackage([[a]], D))] + rest) == [Best(Some([a]), Finite(0.0))] + Responses(rest)
  {
    var ps: seq<Tour> := [[a]];
    assert Measurable(D, ps);
    assert TotalDistances(D, ps) == [0.0];
    assert ([Received(WorkPackage(ps, D))] + rest)[1..] == rest;
  }

  /** A package holding a tour that reads a missing entry ends the loop: no reply to it or to anything after it. */
  lemma MissingEntryEnds(D: Matrix, ps: seq<Tour>, t: Tour, rest: seq<Incoming>)
    requires t in ps && !HasEdges(D, t)
    ensures Responses([Received(WorkPackage(ps, D))] + rest) == []
  {
    assert ([Received(WorkPackage(ps, D))] + rest)[0] == Received(WorkPackage(ps, D));
  }

  class TSPWorker {
    var bestLocalTour: Option<Tour>
    var minLocalDistance: Cost

    constructor ()
      ensures bestLocalTour == None && minLocalDistance == Infinite
    {
      bestLocalTour := None;
      minLocalDistance := Infinite;
    }

    /** Scores the tours in order, replacing the current best only on a strictly shorter one. */
    static method FindBestTourForChunk(permutations: seq<Tour>, D: Matrix) returns (bestTour: Option<Tour>, minDistance: Cost)
      requires Measurable(D, permutations)
      ensures Best(bestTour, minDistance) == ChunkBest(D, permutations)
    {
      bestTour, minDistance := None, Infinite;
      ghost var c := TotalDistances(D, permutations);
      for i := 0 to |permutations|
        invariant Best(bestTour, minDistance) == FirstCheapest(permutations[..i], c[..i])
      {
        assert permutations[i] in permutations;
        var distance := CalculateTotalDistance(permutations[i], D);
        FirstCheapestSnoc(permutations, c, i);
        if Less(Finite(distance), minDistance) {
          minDistance := Finite(distance);
          bestTour := Some(permutations[i]);
        }
      }
      assert permutations[..|permutations|] == permutations && c[..|permutations|] == c;
    }

    /**
      The receive loop of `connect_and_work` over the messages `inbox`
      delivers: it answers each non-empty package with that chunk's best,
      then resets the local minimum (the local best tour is left as it is).
    */
    method ConnectAndWork(inbox: seq<Incoming>) returns (outbox: seq<Best>)
      modifies this
      ensures outbox == Responses(inbox)
      ensures outbox == [] ==> bestLocalTour == old(bestLocalTour) && minLocalDistance == old(minLocalDistance)
      ensures outbox != [] ==> bestLocalTour == outbox[|outbox| - 1].tour && minLocalDistance == Infinite
    {
      outbox := [];
      var i := 0;
      while i < |inbox|
        invariant 0 <= i <= |inbox|
        invariant outbox + Responses(inbox[i..]) == Responses(inbox)
        invariant outbox == [] ==> bestLocalTour == old(bestLocalTour) && minLocalDistance == old(minLocalDistance)
        invariant outbox != [] ==> bestLocalTour == outbox[|outbox| - 1].tour && minLocalDistance == Infinite
      {
        var m := inbox[i];
        assert inbox[i..][0] == m && inbox[i..][1..] == inbox[i + 1..];
        if m.ConnectionLost? || m.msg.Sentinel? {
          break;
        }
        var permutations, distances := m.msg.permutations, m.msg.precomputedDistances;
        if permutations == [] {
          i := i + 1;
          continue;
        }
        if !Measurable(distances, permutations) {
          break;
        }
        bestLocalTour, minLocalDistance := FindBestTourForChunk(permutations, distances);
        outbox := outbox + [Best(bestLocalTour, minLocalDistance)];
        minLocalDistance := Infinite;
        i := i + 1;
      }
      if i == |inbox| {
        assert inbox[i..] == [];
      }
    }
  }
}
