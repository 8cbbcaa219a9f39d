/**
  The search spaces of the solvers. `Perms` enumerates permutations the way
  Python's `itertools.permutations` does: for each position `i` in turn, the
  element at `i` followed by every permutation of the remaining elements.
*/
module Permutations {
  import opened Tours

  /** Python's `range(lo, hi)`: empty when `hi <= lo`. */
  function Range(lo: nat, hi: nat): (r: seq<nat>)
    ensures |r| == if lo <= hi then hi - lo else 0
    ensures forall i :: 0 <= i < |r| ==> r[i] == lo + i
    ensures forall x :: x in r <==> lo <= x < hi
    ensures Distinct(r)
    decreases hi - lo
  {
    if hi <= lo then [] else [lo] + Range(lo + 1, hi)
  }

  lemma RangeSplit(lo: nat, hi: nat)
    requires lo < hi
    ensures Range(lo, hi) == [lo] + Range(lo + 1, hi)
  {
  }

  /** `p` lists exactly the elements of `s`, each as often as `s` does. */
  predicate IsPermutationOf(p: seq<nat>, s: seq<nat>)
  {
    |p| == |s| && multiset(p) == multiset(s) && forall i :: 0 <= i < |p| ==> p[i] in s
  }

  function Remove(s: seq<nat>, i: nat): (r: seq<nat>)
    requires i < |s|
    ensures |r| == |s| - 1
    ensures multiset(r) + multiset([s[i]]) == multiset(s)
    ensures forall x :: x in r ==> x in s
  {
    assert s == s[..i] + [s[i]] + s[i + 1..];
    s[..i] + s[i + 1..]
  }

  /** `[x] + p` for every `p` of `ps`, in order. */
  function Prepend(x: nat, ps: seq<Tour>): (r: seq<Tour>)
    ensures |r| == |ps|
    ensures forall j :: 0 <= j < |ps| ==> r[j] == [x] + ps[j]
  {
    seq(|ps|, j requires 0 <= j < |ps| => [x] + ps[j])
  }

  /** All orderings of `s`, in `itertools.permutations` order; `[[]]` for the empty sequence. */
  function Perms(s: seq<nat>): seq<Tour>
    decreases |s|, 1, 0
  {
    if |s| == 0 then [[]] else PermsFrom(s, 0)
  }

  /** The orderings of `s` whose first element is taken from position `i` or later. */
  function PermsFrom(s: seq<nat>, i: nat): seq<Tour>
    requires i <= |s|
    decreases |s|, 0, |s| - i
  {
    if i == |s| then [] else Prepend(s[i], Perms(Remove(s, i))) + PermsFrom(s, i + 1)
  }

  /** Everything enumerated is an ordering of `s`. */
  lemma {:induction false} PermsSound(s: seq<nat>)
    ensures forall p :: p in Perms(s) ==> IsPermutationOf(p, s)
    decreases |s|, 1, 0
  {
    if |s| > 0 {
      PermsFromSound(s, 0);
    }
  }

  lemma {:induction false} PermsFromSound(s: seq<nat>, i: nat)
    requires i <= |s|
    ensures forall p :: p in PermsFrom(s, i) ==> IsPermutationOf(p, s) && |p| >= 1 && p[0] in s[i..]
    decreases |s|, 0, |s| - i
  {
    if i < |s| {
      var rest := Perms(Remove(s, i));
      var here := Prepend(s[i], rest);
      PermsSound(Remove(s, i));
      PermsFromSound(s, i + 1);
      forall p: Tour | p in here
        ensures IsPermutationOf(p, s) && |p| >= 1 && p[0] in s[i..]
      {
        var j :| 0 <= j < |here| && here[j] == p;
        assert p == [s[i]] + rest[j];
        assert rest[j] in rest;
        assert multiset(p) == multiset([s[i]]) + multiset(rest[j]);
        assert s[i..][0] == s[i];
        forall k | 0 <= k < |p| ensures p[k] in s {
          if k > 0 {
            assert p[k] == rest[j][k - 1];
          }
        }
      }
    }
  }

  /** Every ordering of the elements of `s` is enumerated. */
  lemma {:induction false} PermsComplete(s: seq<nat>, p: seq<nat>)
    requires |p| == |s| && multiset(p) == multiset(s)
    ensures p in Perms(s)
    decreases |s|
  {
    if |s| > 0 {
      assert p[0] in multiset(s);
      var m :| 0 <= m < |s| && s[m] == p[0];
      assert p == [p[0]] + p[1..];
      assert multiset(p[1..]) + multiset([p[0]]) == multiset(p);
      assert multiset(p[1..]) == multiset(s) - multiset([s[m]]);
      PermsComplete(Remove(s, m), p[1..]);
      PermsFromContains(s, 0, m, p[1..]);
    }
  }

  lemma {:induction false} PermsFromContains(s: seq<nat>, i: nat, m: nat, q: seq<nat>)
    requires i <= m < |s| && q in Perms(Remove(s, m))
    ensures [s[m]] + q in PermsFrom(s, i)
    decreases m - i
  {
    if i < m {
      PermsFromContains(s, i + 1, m, q);
    } else {
      var rest := Perms(Remove(s, i));
      var j :| 0 <= j < |rest| && rest[j] == q;
      assert Prepend(s[i], rest)[j] == [s[m]] + q;
    }
  }

  /** A repetition-free sequence minus one position is still repetition-free and lacks that element. */
  lemma RemoveDistinct(s: seq<nat>, i: nat)
    requires i < |s| && Distinct(s)
    ensures Distinct(Remove(s, i)) && s[i] !in Remove(s, i)
  {
    var r := Remove(s, i);
    assert forall k :: 0 <= k < |r| ==> r[k] == if k < i then s[k] else s[k + 1];
  }

  /** The enumeration never lists an ordering twice when `s` has no repeated element. */
  lemma {:induction false} PermsDistinct(s: seq<nat>)
    requires Distinct(s)
    ensures Distinct(Perms(s))
    decreases |s|, 1, 0
  {
    if |s| > 0 {
      PermsFromDistinct(s, 0);
    }
  }

  lemma {:induction false} PermsFromDistinct(s: seq<nat>, i: nat)
    requires Distinct(s) && i <= |s|
    ensures Distinct(PermsFrom(s, i))
    decreases |s|, 0, |s| - i
  {
    if i < |s| {
      RemoveDistinct(s, i);
      PermsFromSound(s, i + 1);
      PermsDistinct(Remove(s, i));
      PermsFromDistinct(s, i + 1);
      var rest := Perms(Remove(s, i));
      var here := Prepend(s[i], rest);
      var later := PermsFrom(s, i + 1);
      assert s[i] !in s[i + 1..] by {
        forall k | i + 1 <= k < |s| ensures s[k] != s[i] {
        }
      }
      forall a, b | 0 <= a < b < |here|
        ensures here[a] != here[b]
      {
        assert here[a][1..] == rest[a] && here[b][1..] == rest[b];
      }
      forall a, b | 0 <= a < |here| && 0 <= b < |later|
        ensures here[a] != later[b]
      {
        assert later[b] in later;
        assert here[a][0] == s[i];
      }
      DistinctConcat(here, later);
    }
  }

  lemma DistinctConcat(a: seq<Tour>, b: seq<Tour>)
    requires Distinct(a) && Distinct(b)
    requires forall x, y :: 0 <= x < |a| && 0 <= y < |b| ==> a[x] != b[y]
    ensures Distinct(a + b)
  {
    var c := a + b;
    forall x, y | 0 <= x < y < |c| ensures c[x] != c[y] {
      if y < |a| {
        assert c[x] == a[x] && c[y] == a[y];
      } else if x < |a| {
        assert c[x] == a[x] && c[y] == b[y - |a|];
      } else {
        assert c[x] == b[x - |a|] && c[y] == b[y - |a|];
      }
    }
  }

  function Factorial(n: nat): (r: nat)
    ensures r >= 1
  {
    if n == 0 then 1 else n * Factorial(n - 1)
  }

  /** There are exactly `|s|!` orderings. */
  lemma {:induction false} PermsCount(s: seq<nat>)
    ensures |Perms(s)| == Factorial(|s|)
    decreases |s|, 1, 0
  {
    if |s| > 0 {
      PermsFromCount(s, 0);
      assert Factorial(|s|) == |s| * Factorial(|s| - 1);
    }
  }

  lemma {:induction false} PermsFromCount(s: seq<nat>, i: nat)
    requires 1 <= |s| && i <= |s|
    ensures |PermsFrom(s, i)| == (|s| - i) * Factorial(|s| - 1)
    decreases |s|, 0, |s| - i
  {
    if i < |s| {
      var f, k := Factorial(|s| - 1), |s| - (i + 1);
      PermsCount(Remove(s, i));
      PermsFromCount(s, i + 1);
      PermsFromLength(s, i);
      OneMoreMultiple(f, k, |s| - i);
    } else {
      OneMoreMultiple(Factorial(|s| - 1), 0, 0);
    }
  }

  lemma PermsFromLength(s: seq<nat>, i: nat)
    requires i < |s|
    ensures |PermsFrom(s, i)| == |Perms(Remove(s, i))| + |PermsFrom(s, i + 1)|
    ensures |Remove(s, i)| == |s| - 1
  {
  }

  lemma OneMoreMultiple(f: nat, k: nat, m: nat)
    ensures m == k + 1 ==> f + k * f == m * f
    ensures m == 0 ==> m * f == 0
  {
  }

  /** City 0 followed by every ordering of the cities `1..n-1`, in enumeration order. */
  function FixedFirstTours(n: nat): seq<Tour>
  {
    Prepend(0, Perms(Range(1, n)))
  }

  /**
    Every such tour starts with city 0 followed by an ordering of `1..n-1`;
    for at least one city it has length `n` and visits only cities below `n`.
  */
  lemma FixedFirstToursShape(n: nat)
    ensures forall t :: t in FixedFirstTours(n) ==> |t| >= 1 && t[0] == 0 && IsPermutationOf(t[1..], Range(1, n))
    ensures n >= 1 ==> forall t :: t in FixedFirstTours(n) ==> |t| == n && InRange(t, n)
  {
    var rest := Perms(Range(1, n));
    var r := FixedFirstTours(n);
    PermsSound(Range(1, n));
    forall t | t in r
      ensures |t| >= 1 && t[0] == 0 && IsPermutationOf(t[1..], Range(1, n))
      ensures n >= 1 ==> |t| == n && InRange(t, n)
    {
      var j :| 0 <= j < |r| && r[j] == t;
      assert rest[j] in rest;
      ZeroThenOrdering(n, rest[j]);
    }
  }

  lemma ZeroThenOrdering(n: nat, p: seq<nat>)
    requires IsPermutationOf(p, Range(1, n))
    ensures ([0] + p)[1..] == p && ([0] + p)[0] == 0
    ensures n >= 1 ==> |[0] + p| == n && InRange([0] + p, n)
  {
    var t := [0] + p;
    assert t[1..] == p;
    forall k | 0 <= k < |t| ensures t[k] < n || n == 0 {
      if k > 0 {
        assert t[k] == p[k - 1];
        assert p[k - 1] in Range(1, n);
      }
    }
  }

  /**
    The master's search space: no tour for zero cities, otherwise the
    fixed-first-city tours.
  */
  function SearchSpace(n: nat): (r: seq<Tour>)
    ensures forall t :: t in r ==> |t| >= 1 && t[0] == 0 && |t| == n && InRange(t, n) && IsPermutationOf(t[1..], Range(1, n))
  {
    if n == 0 then []
    else
      FixedFirstToursShape(n);
      FixedFirstTours(n)
  }

  /** The master's search space: empty for no city, otherwise `(n-1)!` distinct tours containing every fixed-first tour. */
  lemma {:induction false} SearchSpaceIsComplete(n: nat)
    ensures n == 0 ==> SearchSpace(n) == []
    ensures n >= 1 ==> |SearchSpace(n)| == Factorial(n - 1)
    ensures Distinct(SearchSpace(n))
    ensures forall t :: |t| == n && n >= 1 && t[0] == 0 && multiset(t[1..]) == multiset(Range(1, n)) ==> t in SearchSpace(n)
  {
    if n >= 1 {
      FixedFirstToursFacts(n);
    }
  }

  lemma {:induction false} FixedFirstToursFacts(n: nat)
    requires n >= 1
    ensures |FixedFirstTours(n)| == Factorial(n - 1)
    ensures Distinct(FixedFirstTours(n))
    ensures forall t :: |t| == n && t[0] == 0 && multiset(t[1..]) == multiset(Range(1, n)) ==> t in FixedFirstTours(n)
  {
    var rest := Perms(Range(1, n));
    var r := FixedFirstTours(n);
    PermsCount(Range(1, n));
    PermsDistinct(Range(1, n));
    forall a, b | 0 <= a < b < |r| ensures r[a] != r[b] {
      assert r[a][1..] == rest[a] && r[b][1..] == rest[b];
    }
    forall t | |t| == n && t[0] == 0 && multiset(t[1..]) == multiset(Range(1, n))
      ensures t in r
    {
      PermsComplete(Range(1, n), t[1..]);
      var j :| 0 <= j < |rest| && rest[j] == t[1..];
      assert r[j] == [0] + t[1..] == t;
    }
  }
}
