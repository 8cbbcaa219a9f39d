/**
  Vocabulary shared by the three solvers: tours over a distance table, the
  cyclic edge sum that all of them minimise, rotations of a tour, the
  "infinity or a real" bound that the solvers start from, and the strict
  first-minimum selection that every scoring loop performs.
*/
module Tours {

  datatype Option<T> = None | Some(value: T)

  /** A planar city position. */
  type Coord = (real, real)

  /** City indices in visiting order; the edge from the last city back to the first is implicit. */
  type Tour = seq<nat>

  /** A distance table indexed by city position. */
  type Matrix = seq<seq<real>>

  /** A bound on a distance: `float('inf')` or a real number. */
  datatype Cost = Infinite | Finite(value: real)

  /** The strict `<` of the solvers, with infinity above every real. */
  predicate Less(a: Cost, b: Cost)
  {
    match a
    case Infinite => false
    case Finite(x) => b.Infinite? || x < b.value
  }

  /** `a <= b`, i.e. `b` does not strictly improve on `a`. */
  predicate AtMost(a: Cost, b: Cost)
  {
    !Less(b, a)
  }

  predicate Distinct<T(==)>(s: seq<T>)
  {
    forall i, j :: 0 <= i < j < |s| ==> s[i] != s[j]
  }

  predicate Square(D: Matrix)
  {
    forall i :: 0 <= i < |D| ==> |D[i]| == |D|
  }

  predicate ZeroDiagonal(D: Matrix)
    requires Square(D)
  {
    forall i :: 0 <= i < |D| ==> D[i][i] == 0.0
  }

  predicate Symmetric(D: Matrix)
    requires Square(D)
  {
    forall i, j :: 0 <= i < |D| && 0 <= j < |D| ==> D[i][j] == D[j][i]
  }

  function Min(a: nat, b: nat): nat
  {
    if a <= b then a else b
  }

  /** `math.ceil(a / b)` for a positive divisor: the least `r` with `r * b >= a`. */
  function CeilDiv(a: nat, b: nat): (r: nat)
    requires b >= 1
    ensures a <= r * b < a + b
    decreases a
  {
    if a == 0 then 0
    else
      var r' := CeilDiv(a - Min(a, b), b);
      assert (1 + r') * b == b + r' * b;
      1 + r'
  }

  /** Python's clamped slice `s[lo:hi]` for non-negative bounds. */
  function PySlice<T>(s: seq<T>, lo: nat, hi: nat): (r: seq<T>)
    ensures |r| == if lo < hi && lo < |s| then Min(hi, |s|) - lo else 0
    ensures forall i :: 0 <= i < |r| ==> lo + i < |s| && r[i] == s[lo + i]
  {
    if lo >= |s| || hi <= lo then [] else s[lo..Min(hi, |s|)]
  }

  /** Every city of `t` is a row of an `n`-city table. */
  predicate InRange(t: Tour, n: nat)
  {
    forall i :: 0 <= i < |t| ==> t[i] < n
  }

  /** `ts` can be scored against `D` without an index error. */
  predicate Scorable(D: Matrix, ts: seq<Tour>)
  {
    Square(D) && forall t :: t in ts ==> InRange(t, |D|)
  }

  /**
    The table that both distance builders produce from `coords`: one row and
    one column per city, zero on the diagonal and `dist` of the two
    positions everywhere else.
  */
  ghost predicate IsDistanceTable(D: Matrix, coords: seq<Coord>, dist: (Coord, Coord) -> real)
  {
    && |D| == |coords|
    && Square(D)
    && (forall i :: 0 <= i < |D| ==> D[i][i] == 0.0)
    && (forall i, j :: 0 <= i < |D| && 0 <= j < |D| && i != j ==> D[i][j] == dist(coords[i], coords[j]))
  }

  /** The open-path cost: `D[t[i]][t[i+1]]` summed for i in 0..|t|-2, accumulated left to right. */
  function EdgeSum(D: Matrix, t: Tour): real
    requires Square(D) && InRange(t, |D|)
    decreases |t|
  {
    if |t| < 2 then 0.0
    else EdgeSum(D, t[..|t| - 1]) + D[t[|t| - 2]][t[|t| - 1]]
  }

  /** The cycle cost: the open path plus the closing edge from the last city back to the first. */
  function CycleCost(D: Matrix, t: Tour): real
    requires Square(D) && InRange(t, |D|) && |t| >= 1
  {
    EdgeSum(D, t) + D[t[|t| - 1]][t[0]]
  }

  /** `t` started at position `k` instead of 0. */
  function Rotate(t: Tour, k: nat): (r: Tour)
    requires k <= |t|
    ensures |r| == |t|
    ensures forall i :: 0 <= i < |t| - k ==> r[i] == t[i + k]
    ensures forall i :: |t| - k <= i < |t| ==> r[i] == t[i + k - |t|]
    ensures multiset(r) == multiset(t)
  {
    assert t == t[..k] + t[k..];
    t[k..] + t[..k]
  }

  /** Prepending one city adds exactly the edge into the old first city. */
  lemma {:induction false} EdgeSumCons(D: Matrix, a: nat, s: Tour)
    requires Square(D) && a < |D| && InRange(s, |D|) && |s| >= 1
    ensures InRange([a] + s, |D|)
    ensures EdgeSum(D, [a] + s) == D[a][s[0]] + EdgeSum(D, s)
  {
    var u := [a] + s;
    if |s| > 1 {
      var s' := s[..|s| - 1];
      assert u[..|u| - 1] == [a] + s';
      EdgeSumCons(D, a, s');
    } else {
      assert u[..|u| - 1] == [a];
    }
  }

  /** Moving the first city to the end leaves the cycle cost unchanged. */
  lemma RotateOnePreservesCost(D: Matrix, t: Tour)
    requires Square(D) && InRange(t, |D|) && |t| >= 1
    ensures InRange(t[1..] + [t[0]], |D|)
    ensures CycleCost(D, t[1..] + [t[0]]) == CycleCost(D, t)
  {
    var s, u := t[1..], t[1..] + [t[0]];
    if |s| >= 1 {
      assert t == [t[0]] + s;
      EdgeSumCons(D, t[0], s);
      assert u[..|u| - 1] == s;
    } else {
      assert u == t;
    }
  }

  /** The cycle cost does not depend on which city the tour is started at. */
  lemma {:induction false} RotationPreservesCost(D: Matrix, t: Tour, k: nat)
    requires Square(D) && InRange(t, |D|) && 1 <= |t| && k <= |t|
    ensures InRange(Rotate(t, k), |D|)
    ensures CycleCost(D, Rotate(t, k)) == CycleCost(D, t)
  {
    if k == 0 {
      assert Rotate(t, 0) == t;
    } else {
      RotationPreservesCost(D, t, k - 1);
      var u := Rotate(t, k - 1);
      RotateOnePreservesCost(D, u);
      assert u[1..] + [u[0]] == Rotate(t, k);
    }
  }

  /** The cycle cost of every tour of `ts`, in order. */
  function CycleCosts(D: Matrix, ts: seq<Tour>): (c: seq<real>)
    requires Scorable(D, ts) && forall t :: t in ts ==> |t| >= 1
    ensures |c| == |ts|
    ensures forall j :: 0 <= j < |ts| ==> c[j] == CycleCost(D, ts[j])
  {
    seq(|ts|, j requires 0 <= j < |ts| => CycleCost(D, ts[j]))
  }

  /** Position `k` holds a minimum of `c`, and every earlier value is strictly larger. */
  predicate FirstMin(c: seq<real>, k: int)
  {
    && 0 <= k < |c|
    && (forall j :: 0 <= j < |c| ==> c[k] <= c[j])
    && (forall j :: 0 <= j < k ==> c[k] < c[j])
  }

  /**
    The position a left-to-right scan with a strict `<` settles on: it keeps
    the current best and replaces it only by a strictly smaller value.
  */
  function ArgMin(c: seq<real>): (k: nat)
    requires |c| > 0
    ensures FirstMin(c, k)
    decreases |c|
  {
    if |c| == 1 then 0
    else
      var k := ArgMin(c[..|c| - 1]);
      if c[|c| - 1] < c[k] then |c| - 1 else k
  }

  /** One more step of the scan: the new value is taken only if strictly below the current best. */
  lemma ArgMinStep(c: seq<real>, i: nat)
    requires i < |c|
    ensures i == 0 ==> ArgMin(c[..i + 1]) == 0
    ensures i > 0 ==> ArgMin(c[..i + 1]) == if c[i] < c[ArgMin(c[..i])] then i else ArgMin(c[..i])
  {
    assert c[..i + 1][..i] == c[..i];
  }

  /** A best tour so far and its distance; `Best(None, Infinite)` before any tour was scored. */
  datatype Best = Best(tour: Option<Tour>, cost: Cost)

  /** The first tour of `ts` whose value in `c` is least, as a strict left-to-right scan finds it. */
  function FirstCheapest(ts: seq<Tour>, c: seq<real>): Best
    requires |c| == |ts|
  {
    if ts == [] then Best(None, Infinite)
    else
      var k := ArgMin(c);
      Best(Some(ts[k]), Finite(c[k]))
  }

  /**
    `b` is what a strict scan of `ts` (with values `c`) ends with: nothing
    for no tour, otherwise the first tour of least value, with that value.
  */
  ghost predicate SelectsFirstMin(ts: seq<Tour>, c: seq<real>, b: Best)
    requires |c| == |ts|
  {
    if ts == [] then b == Best(None, Infinite)
    else exists k :: FirstMin(c, k) && b == Best(Some(ts[k]), Finite(c[k]))
  }

  lemma FirstCheapestSelects(ts: seq<Tour>, c: seq<real>)
    requires |c| == |ts|
    ensures SelectsFirstMin(ts, c, FirstCheapest(ts, c))
  {
    if ts != [] {
      assert FirstMin(c, ArgMin(c));
    }
  }

  /** The update under the lock: the candidate replaces the current best only if strictly shorter. */
  function Merge(cur: Best, cand: Best): Best
  {
    if Less(cand.cost, cur.cost) then cand else cur
  }

  /** The candidates merged one after another, in order. */
  function MergeAll(cur: Best, cands: seq<Best>): Best
    decreases |cands|
  {
    if cands == [] then cur else MergeAll(Merge(cur, cands[0]), cands[1..])
  }

  /**
    Merging never raises the distance: the result is the starting best or
    one of the candidates, and its distance is at most each of theirs.
  */
  lemma {:induction false} MergeAllBounds(cur: Best, cands: seq<Best>)
    ensures var r := MergeAll(cur, cands);
      && (r == cur || r in cands)
      && AtMost(r.cost, cur.cost)
      && forall x :: x in cands ==> AtMost(r.cost, x.cost)
    decreases |cands|
  {
    if cands != [] {
      var next := Merge(cur, cands[0]);
      MergeAllBounds(next, cands[1..]);
      forall x | x in cands[1..] ensures x in cands {
      }
      assert cands == [cands[0]] + cands[1..];
    }
  }

  /**
    Scanning `ts1 + ts2` ends where merging the scan of `ts2` into the scan
    of `ts1` ends: splitting a scan into consecutive pieces and merging the
    pieces' results in order changes nothing, ties included.
  */
  lemma MergeSelects(ts1: seq<Tour>, c1: seq<real>, b1: Best, ts2: seq<Tour>, c2: seq<real>, b2: Best)
    requires |c1| == |ts1| && |c2| == |ts2|
    requires SelectsFirstMin(ts1, c1, b1) && SelectsFirstMin(ts2, c2, b2)
    ensures SelectsFirstMin(ts1 + ts2, c1 + c2, Merge(b1, b2))
  {
    var ts, c := ts1 + ts2, c1 + c2;
    if ts1 == [] {
      assert ts == ts2 && c == c2;
    } else if ts2 == [] {
      assert ts == ts1 && c == c1;
    } else {
      var k1 :| FirstMin(c1, k1) && b1 == Best(Some(ts1[k1]), Finite(c1[k1]));
      var k2 :| FirstMin(c2, k2) && b2 == Best(Some(ts2[k2]), Finite(c2[k2]));
      if c2[k2] < c1[k1] {
        var k := |c1| + k2;
        assert c[k] == c2[k2] && ts[k] == ts2[k2];
        forall j | 0 <= j < |c| ensures c[k] <= c[j] && (j < k ==> c[k] < c[j]) {
          if j < |c1| {
            assert c[j] == c1[j];
          } else {
            assert c[j] == c2[j - |c1|];
          }
        }
        assert FirstMin(c, k);
      } else {
        assert c[k1] == c1[k1] && ts[k1] == ts1[k1];
        forall j | 0 <= j < |c| ensures c[k1] <= c[j] && (j < k1 ==> c[k1] < c[j]) {
          if j < |c1| {
            assert c[j] == c1[j];
          } else {
            assert c[j] == c2[j - |c1|];
          }
        }
        assert FirstMin(c, k1);
      }
    }
  }

  /** A scan has one outcome: whatever `SelectsFirstMin` admits is the first cheapest tour. */
  lemma SelectsFirstMinUnique(ts: seq<Tour>, c: seq<real>, b: Best)
    requires |c| == |ts| && SelectsFirstMin(ts, c, b)
    ensures b == FirstCheapest(ts, c)
  {
    if ts != [] {
      var k :| FirstMin(c, k) && b == Best(Some(ts[k]), Finite(c[k]));
      var m := ArgMin(c);
      assert !(k < m) && !(m < k);
    }
  }

  /** Some value of `c` is at most `x`. */
  ghost predicate SomeAtMost(c: seq<real>, x: real)
  {
    exists i :: 0 <= i < |c| && c[i] <= x
  }

  /**
    When every value of `c2` is matched or beaten by some value of `c1`, a
    scan of `ts1 + ts2` ends on the tour the scan of `ts1` ends on.
  */
  lemma FirstCheapestLeads(ts1: seq<Tour>, c1: seq<real>, ts2: seq<Tour>, c2: seq<real>)
    requires |c1| == |ts1| && |c2| == |ts2|
    requires forall j :: 0 <= j < |c2| ==> SomeAtMost(c1, c2[j])
    ensures FirstCheapest(ts1 + ts2, c1 + c2) == FirstCheapest(ts1, c1)
  {
    var b1, b2 := FirstCheapest(ts1, c1), FirstCheapest(ts2, c2);
    FirstCheapestSelects(ts1, c1);
    FirstCheapestSelects(ts2, c2);
    MergeSelects(ts1, c1, b1, ts2, c2, b2);
    if ts2 != [] {
      var i :| 0 <= i < |c1| && c1[i] <= c2[ArgMin(c2)];
      assert c1[ArgMin(c1)] <= c1[i];
    }
    assert Merge(b1, b2) == b1;
    SelectsFirstMinUnique(ts1 + ts2, c1 + c2, b1);
  }

  /** The merge order can be split anywhere: merging one more candidate extends the merge of the others. */
  lemma {:induction false} MergeAllSnoc(cur: Best, cands: seq<Best>, x: Best)
    ensures MergeAll(cur, cands + [x]) == Merge(MergeAll(cur, cands), x)
    decreases |cands|
  {
    if cands == [] {
      assert ([] + [x])[1..] == [];
    } else {
      assert (cands + [x])[0] == cands[0] && (cands + [x])[1..] == cands[1..] + [x];
      MergeAllSnoc(Merge(cur, cands[0]), cands[1..], x);
    }
  }

  /**
    The strict scan is the lock's merge applied tour by tour: the first
    cheapest of one more tour is the old one merged with that tour.
  */
  lemma FirstCheapestSnoc(ts: seq<Tour>, c: seq<real>, i: nat)
    requires |c| == |ts| && i < |ts|
    ensures FirstCheapest(ts[..i + 1], c[..i + 1]) == Merge(FirstCheapest(ts[..i], c[..i]), Best(Some(ts[i]), Finite(c[i])))
  {
    ArgMinStep(c, i);
    if i > 0 {
      var k := ArgMin(c[..i]);
      assert ts[..i + 1][k] == ts[..i][k] == ts[k];
      assert c[..i + 1][k] == c[..i][k] == c[k];
    }
  }

  /** A prefix followed by the slice after it is the longer prefix. */
  lemma PrefixThenSlice<T>(s: seq<T>, lo: nat, hi: nat)
    requires lo <= hi <= |s|
    ensures s[..lo] + s[lo..hi] == s[..hi]
  {
  }

  /** The pieces laid end to end. */
  function Flatten(cs: seq<seq<Tour>>): seq<Tour>
    decreases |cs|
  {
    if cs == [] then [] else cs[0] + Flatten(cs[1..])
  }

  lemma {:induction false} FlattenSnoc(cs: seq<seq<Tour>>, x: seq<Tour>)
    ensures Flatten(cs + [x]) == Flatten(cs) + x
    decreases |cs|
  {
    if cs == [] {
      assert ([] + [x])[1..] == [];
    } else {
      assert (cs + [x])[0] == cs[0] && (cs + [x])[1..] == cs[1..] + [x];
      FlattenSnoc(cs[1..], x);
    }
  }

  /** Every tour of the pieces laid end to end lies in one of the pieces. */
  lemma {:induction false} InFlatten(cs: seq<seq<Tour>>, t: Tour)
    requires t in Flatten(cs)
    ensures exists k :: 0 <= k < |cs| && t in cs[k]
    decreases |cs|
  {
    if t !in cs[0] {
      InFlatten(cs[1..], t);
      var k :| 0 <= k < |cs[1..]| && t in cs[1..][k];
      assert t in cs[k + 1];
    }
  }

  /** A tour of any piece is a tour of the pieces laid end to end. */
  lemma {:induction false} FlattenHolds(cs: seq<seq<Tour>>, k: nat, t: Tour)
    requires k < |cs| && t in cs[k]
    ensures t in Flatten(cs)
    decreases k
  {
    if k > 0 {
      FlattenHolds(cs[1..], k - 1, t);
    }
  }
}
