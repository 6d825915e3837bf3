/** The incumbent step curve of `plot_run_incumbent`: the running minimum of
    one run's performance values, the first index of each of its distinct
    values as `np.unique(..., return_index=True)` reports them, reversed,
    with the last index appended, and the x and y values at those indices. */
module Incumbent {
  import opened Wrappers

  function Min(a: real, b: real): real {
    if a <= b then a else b
  }

  /** The smallest value of a non-empty sequence. */
  function SeqMin(v: seq<real>): (r: real)
    requires |v| > 0
    ensures forall k :: 0 <= k < |v| ==> r <= v[k]
    ensures exists k :: 0 <= k < |v| && v[k] == r
    decreases |v|
  {
    if |v| == 1 then v[0]
    else
      var n := |v| - 1;
      var front := SeqMin(v[..n]);
      assert forall k :: 0 <= k < n ==> v[..n][k] == v[k];
      Min(front, v[n])
  }

  predicate NonIncreasing(m: seq<real>) {
    forall i, j :: 0 <= i <= j < |m| ==> m[j] <= m[i]
  }

  /** `np.minimum.accumulate(v)`. */
  function RunningMin(v: seq<real>): (m: seq<real>)
    ensures |m| == |v|
    decreases |v|
  {
    if |v| == 0 then []
    else
      var n := |v| - 1;
      var front := RunningMin(v[..n]);
      front + [if n == 0 then v[0] else Min(front[n - 1], v[n])]
  }

  /** Entry i of the running minimum is the minimum of the first i + 1
      values. */
  lemma {:induction false} RunningMinIsPrefixMinimum(v: seq<real>)
    ensures forall i :: 0 <= i < |v| ==> RunningMin(v)[i] == SeqMin(v[..i + 1])
    decreases |v|
  {
    if |v| > 0 {
      var n := |v| - 1;
      RunningMinIsPrefixMinimum(v[..n]);
      forall i | 0 <= i < n
        ensures RunningMin(v)[i] == SeqMin(v[..i + 1])
      {
        assert RunningMin(v)[i] == RunningMin(v[..n])[i];
        assert v[..n][..i + 1] == v[..i + 1];
      }
      if n > 0 {
        assert v[..n + 1][..n] == v[..n];
        assert v[..n + 1] == v;
      }
    }
  }

  /** Appending a value extends the running minimum by one entry. */
  lemma RunningMinSnoc(v: seq<real>, x: real)
    ensures RunningMin(v + [x]) ==
            RunningMin(v) + [if |v| == 0 then x else Min(RunningMin(v)[|v| - 1], x)]
  {
    assert (v + [x])[..|v|] == v;
  }

  /** The running minimum never rises. */
  lemma RunningMinNonIncreasing(v: seq<real>)
    ensures NonIncreasing(RunningMin(v))
  {
    var m := RunningMin(v);
    RunningMinIsPrefixMinimum(v);
    forall i, j | 0 <= i <= j < |m| ensures m[j] <= m[i] {
      var pi := v[..i + 1];
      var pj := v[..j + 1];
      var k :| 0 <= k < |pi| && pi[k] == SeqMin(pi);
      assert pj[k] == pi[k];
    }
  }

  /** The running minimum never exceeds the value at the same index. */
  lemma RunningMinBelowInput(v: seq<real>)
    ensures forall i :: 0 <= i < |v| ==> RunningMin(v)[i] <= v[i]
  {
    RunningMinIsPrefixMinimum(v);
    forall i | 0 <= i < |v| ensures RunningMin(v)[i] <= v[i] {
      assert v[..i + 1][i] == v[i];
    }
  }

  /** The running minimum ends at the minimum of the whole run. */
  lemma RunningMinLast(v: seq<real>)
    requires |v| > 0
    ensures RunningMin(v)[|v| - 1] == SeqMin(v)
  {
    RunningMinIsPrefixMinimum(v);
    assert v[..|v|] == v;
  }

  // ---------------------------------------------------------------------------
  // np.unique(y, return_index=True)

  /** What numpy promises of the indices `np.unique(y, return_index=True)`
      returns: one index per distinct value, each the first occurrence of
      its value, ordered by ascending value. */
  predicate IsUniqueIndex(y: seq<real>, idx: seq<nat>) {
    && (forall k :: 0 <= k < |idx| ==> idx[k] < |y|)
    && (forall k, j :: 0 <= k < |idx| && 0 <= j < idx[k] ==> y[j] != y[idx[k]])
    && (forall k, l :: 0 <= k < l < |idx| ==> y[idx[k]] < y[idx[l]])
    && (forall j :: 0 <= j < |y| ==> exists k :: 0 <= k < |idx| && y[idx[k]] == y[j])
  }

  predicate StrictlyIncreasing(s: seq<real>) {
    forall k, l :: 0 <= k < l < |s| ==> s[k] < s[l]
  }

  /** Two strictly increasing sequences with the same elements are equal. */
  lemma {:induction false} SortedByElements(s: seq<real>, t: seq<real>)
    requires StrictlyIncreasing(s) && StrictlyIncreasing(t)
    requires forall x :: x in s <==> x in t
    ensures s == t
    decreases |s|
  {
    if |s| == 0 {
      if |t| > 0 {
        FirstIsMember(t);
        assert false;
      }
    } else if |t| == 0 {
      FirstIsMember(s);
      assert false;
    } else {
      SameFirst(s, t);
      SameFirst(t, s);
      TailSubset(s, t);
      TailSubset(t, s);
      SortedByElements(s[1..], t[1..]);
      assert s == [s[0]] + s[1..] && t == [t[0]] + t[1..];
    }
  }

  lemma SameFirst(s: seq<real>, t: seq<real>)
    requires |s| > 0 && |t| > 0 && StrictlyIncreasing(t)
    requires forall x :: x in s ==> x in t
    ensures t[0] <= s[0]
  {
    FirstIsMember(s);
    var l :| 0 <= l < |t| && t[l] == s[0];
    assert l == 0 || t[0] < t[l];
  }

  lemma TailSubset(s: seq<real>, t: seq<real>)
    requires |s| > 0 && |t| > 0 && s[0] == t[0]
    requires StrictlyIncreasing(s)
    requires forall x :: x in s ==> x in t
    ensures forall x :: x in s[1..] ==> x in t[1..]
  {
    forall x | x in s[1..] ensures x in t[1..] {
      var k :| 0 <= k < |s[1..]| && s[1..][k] == x;
      assert s[k + 1] == x;
      assert s[0] < x;
      assert x in s;
      var l :| 0 <= l < |t| && t[l] == x;
      assert l != 0;
      assert t[1..][l - 1] == x;
    }
  }

  lemma FirstIsMember(t: seq<real>)
    requires |t| > 0
    ensures t[0] in t
  {
  }

  function Values(y: seq<real>, idx: seq<nat>): (r: seq<real>)
    requires forall k :: 0 <= k < |idx| ==> idx[k] < |y|
    ensures |r| == |idx|
  {
    seq(|idx|, k requires 0 <= k < |idx| => y[idx[k]])
  }

  lemma SameValueSets(y: seq<real>, a: seq<nat>, b: seq<nat>)
    requires IsUniqueIndex(y, a) && IsUniqueIndex(y, b)
    ensures forall x :: x in Values(y, a) ==> x in Values(y, b)
  {
    var va, vb := Values(y, a), Values(y, b);
    forall x | x in va ensures x in vb {
      var k :| 0 <= k < |va| && va[k] == x;
      assert 0 <= a[k] < |y|;
      var l :| 0 <= l < |b| && y[b[l]] == y[a[k]];
      assert vb[l] == x;
    }
  }

  /** numpy's promise fixes the indices: at most one sequence meets it. */
  lemma UniqueIndexIsDetermined(y: seq<real>, a: seq<nat>, b: seq<nat>)
    requires IsUniqueIndex(y, a) && IsUniqueIndex(y, b)
    ensures a == b
  {
    var va, vb := Values(y, a), Values(y, b);
    SameValueSets(y, a, b);
    SameValueSets(y, b, a);
    SortedByElements(va, vb);
    forall k | 0 <= k < |a| ensures a[k] == b[k] {
      assert va[k] == vb[k];
    }
  }

  /** The positions where a new value starts: 0 and every j whose value
      differs from the one before. */
  function ChangePoints(m: seq<real>): seq<nat>
    decreases |m|
  {
    if |m| == 0 then []
    else
      var n := |m| - 1;
      ChangePoints(m[..n]) + (if n == 0 || m[n] != m[n - 1] then [n] else [])
  }

  /** The change points are positions of m, in strictly increasing order,
      and the first is 0. */
  lemma {:induction false} ChangePointsOrdered(m: seq<real>)
    ensures var r := ChangePoints(m);
            && (|m| > 0 ==> |r| > 0 && r[0] == 0)
            && (forall k :: 0 <= k < |r| ==> r[k] < |m|)
            && (forall k, l :: 0 <= k < l < |r| ==> r[k] < r[l])
    decreases |m|
  {
    if |m| > 0 {
      ChangePointsOrdered(m[..|m| - 1]);
    }
  }

  predicate IsChangePoint(m: seq<real>, j: int) {
    0 <= j < |m| && (j == 0 || m[j] != m[j - 1])
  }

  /** Appending a value adds its index exactly when it starts a new value. */
  lemma ChangePointsSnoc(m: seq<real>, x: real)
    ensures ChangePoints(m + [x]) ==
            ChangePoints(m) + (if |m| == 0 || x != m[|m| - 1] then [|m|] else [])
  {
    assert (m + [x])[..|m|] == m;
  }

  lemma {:induction false} ChangePointsMembers(m: seq<real>)
    ensures forall j: nat :: j in ChangePoints(m) <==> IsChangePoint(m, j)
    decreases |m|
  {
    if |m| > 0 {
      var n := |m| - 1;
      ChangePointsMembers(m[..n]);
      forall j: nat ensures IsChangePoint(m[..n], j) <==> j < n && IsChangePoint(m, j) {
        if j < n {
          assert m[..n][j] == m[j];
          if j > 0 { assert m[..n][j - 1] == m[j - 1]; }
        }
      }
    }
  }

  function Reverse<T>(s: seq<T>): (r: seq<T>)
    ensures |r| == |s|
  {
    seq(|s|, k requires 0 <= k < |s| => s[|s| - 1 - k])
  }

  lemma ReverseReverse<T>(s: seq<T>)
    ensures Reverse(Reverse(s)) == s
  {
  }

  /** The indices `np.unique(y, return_index=True)` returns for a
      non-increasing y: its change points from the last to the first, which
      orders them by ascending value. */
  function UniqueIndex(y: seq<real>): (r: seq<nat>)
    requires NonIncreasing(y)
    ensures |r| == |ChangePoints(y)|
    ensures |y| > 0 ==> |r| > 0
    ensures forall k :: 0 <= k < |r| ==> r[k] < |y|
  {
    ChangePointsOrdered(y);
    Reverse(ChangePoints(y))
  }

  /** A change point's value lies strictly below every earlier value. */
  lemma BelowEarlierValues(m: seq<real>, j: nat, i: nat)
    requires NonIncreasing(m)
    requires IsChangePoint(m, j) && i < j
    ensures m[j] < m[i]
  {
    assert m[j] <= m[j - 1] <= m[i];
  }

  /** Every value of y first appears at a change point at or before it. */
  lemma {:induction false} PlateauStart(m: seq<real>, j: nat)
    requires NonIncreasing(m) && j < |m|
    ensures exists c: nat :: c <= j && IsChangePoint(m, c) && m[c] == m[j]
    decreases j
  {
    if !IsChangePoint(m, j) {
      PlateauStart(m, j - 1);
      var c: nat :| c <= j - 1 && IsChangePoint(m, c) && m[c] == m[j - 1];
      assert m[c] == m[j];
    } else {
      assert IsChangePoint(m, j) && m[j] == m[j];
    }
  }

  /** The model of `np.unique` keeps numpy's promise, and by
      UniqueIndexIsDetermined it is the only sequence that does. */
  lemma UniqueIndexMeetsNumpy(y: seq<real>)
    requires NonIncreasing(y)
    ensures IsUniqueIndex(y, UniqueIndex(y))
  {
    var cp := ChangePoints(y);
    var idx := UniqueIndex(y);
    ChangePointsMembers(y);
    ChangePointsOrdered(y);
    forall k, j | 0 <= k < |idx| && 0 <= j < idx[k] ensures y[j] != y[idx[k]] {
      assert idx[k] in cp;
      BelowEarlierValues(y, idx[k], j);
    }
    forall k, l | 0 <= k < l < |idx| ensures y[idx[k]] < y[idx[l]] {
      assert idx[l] < idx[k];
      assert idx[k] in cp;
      BelowEarlierValues(y, idx[k], idx[l]);
    }
    forall j | 0 <= j < |y| ensures exists k :: 0 <= k < |idx| && y[idx[k]] == y[j] {
      PlateauStart(y, j);
      var c: nat :| c <= j && IsChangePoint(y, c) && y[c] == y[j];
      assert c in cp;
      var p :| 0 <= p < |cp| && cp[p] == c;
      assert idx[|cp| - 1 - p] == c;
    }
  }

  // ---------------------------------------------------------------------------
  // The step curve

  /** The x (iteration) and y (incumbent value) coordinates of the steps. */
  datatype Curve = Curve(x: seq<nat>, y: seq<real>)

  /** Lines 161-169 for one run's performance values. None when the run is
      empty: the appended index -1 then selects from an empty range, which
      raises an IndexError. Otherwise x and y have the same length, at least
      two, and every x is an iteration of the run. */
  function IncumbentCurve(perf: seq<real>): (r: Option<Curve>)
    ensures r.None? <==> |perf| == 0
    ensures r.Some? ==> |r.value.x| == |r.value.y| >= 2
    ensures r.Some? ==> forall k :: 0 <= k < |r.value.x| ==> r.value.x[k] < |perf|
  {
    var m := RunningMin(perf);
    if |m| == 0 then None
    else
      RunningMinNonIncreasing(perf);
      var indices := Reverse(UniqueIndex(m)) + [|m| - 1];
      Some(Curve(indices, Values(m, indices)))
  }

  /** Reversing numpy's order gives back the change points in increasing
      position; the curve reads the running minimum at them and at the last
      iteration. */
  lemma CurveIndices(perf: seq<real>)
    requires |perf| > 0
    ensures var c, m := IncumbentCurve(perf).value, RunningMin(perf);
            && c.x == ChangePoints(m) + [|perf| - 1]
            && forall k :: 0 <= k < |c.y| ==> c.y[k] == m[c.x[k]]
  {
    var m := RunningMin(perf);
    RunningMinNonIncreasing(perf);
    var cp := ChangePoints(m);
    var u := UniqueIndex(m);
    assert u == Reverse(cp);
    ReverseReverse(cp);
    assert Reverse(u) == cp;
    var c := IncumbentCurve(perf).value;
    assert c.x == Reverse(u) + [|m| - 1];
    assert |m| == |perf|;
    assert c.x == cp + [|perf| - 1];
    assert c.y == Values(m, c.x);
  }

  /** x starts at 0 and ends at the last iteration, and the last y is the
      best value of the run. */
  lemma CurveEnds(perf: seq<real>)
    requires |perf| > 0
    ensures var c := IncumbentCurve(perf).value;
            && c.x[0] == 0
            && c.x[|c.x| - 1] == |perf| - 1
            && c.y[|c.y| - 1] == SeqMin(perf)
  {
    CurveIndices(perf);
    RunningMinLast(perf);
    ChangePointsOrdered(RunningMin(perf));
  }

  /** Before the appended entry, x lists exactly the iterations where the
      running minimum improves (and iteration 0), each once and in
      increasing order: the first index of each plateau. */
  lemma BreakpointsAreImprovements(perf: seq<real>)
    requires |perf| > 0
    ensures var c := IncumbentCurve(perf).value;
            var m := RunningMin(perf);
            var steps := c.x[..|c.x| - 1];
            && (forall k, l :: 0 <= k < l < |steps| ==> steps[k] < steps[l])
            && (forall j: nat :: j in steps <==> j < |perf| && (j == 0 || m[j] < m[j - 1]))
  {
    var m := RunningMin(perf);
    var c := IncumbentCurve(perf).value;
    CurveIndices(perf);
    assert c.x[..|c.x| - 1] == ChangePoints(m);
    ChangePointsOrdered(m);
    RunningMinNonIncreasing(perf);
    ChangePointsAreImprovements(m);
  }

  lemma ChangePointsAreImprovements(m: seq<real>)
    requires NonIncreasing(m)
    ensures forall j: nat :: j in ChangePoints(m) <==> j < |m| && (j == 0 || m[j] < m[j - 1])
  {
    ChangePointsMembers(m);
    ImprovementsAreChangePoints(m);
  }

  /** In a non-increasing sequence a change point is a strict decrease. */
  lemma ImprovementsAreChangePoints(m: seq<real>)
    requires NonIncreasing(m)
    ensures forall j: nat :: IsChangePoint(m, j) <==> j < |m| && (j == 0 || m[j] < m[j - 1])
  {
    forall j: nat ensures IsChangePoint(m, j) <==> j < |m| && (j == 0 || m[j] < m[j - 1]) {
      if 0 < j < |m| {
        assert m[j] <= m[j - 1];
      }
    }
  }

  /** The incumbent values strictly decrease up to the appended entry, which
      repeats the value before it. */
  lemma StepValues(perf: seq<real>)
    requires |perf| > 0
    ensures var c := IncumbentCurve(perf).value;
            && (forall k, l :: 0 <= k < l < |c.y| - 1 ==> c.y[l] < c.y[k])
            && c.y[|c.y| - 2] == c.y[|c.y| - 1]
  {
    var m := RunningMin(perf);
    CurveIndices(perf);
    RunningMinNonIncreasing(perf);
    ChangePointValuesDecrease(m);
    LastPlateau(m);
  }

  /** The values at the change points of a non-increasing sequence strictly
      decrease. */
  lemma ChangePointValuesDecrease(m: seq<real>)
    requires NonIncreasing(m)
    ensures var cp := ChangePoints(m);
            && (forall k :: 0 <= k < |cp| ==> cp[k] < |m|)
            && (forall k, l :: 0 <= k < l < |cp| ==> m[cp[l]] < m[cp[k]])
  {
    var cp := ChangePoints(m);
    ChangePointsMembers(m);
    ChangePointsOrdered(m);
    forall k, l | 0 <= k < l < |cp| ensures m[cp[l]] < m[cp[k]] {
      assert cp[l] in cp;
      BelowEarlierValues(m, cp[l], cp[k]);
    }
  }

  /** The last change point starts the plateau of the final value. */
  lemma LastPlateau(m: seq<real>)
    requires NonIncreasing(m) && |m| > 0
    ensures var cp := ChangePoints(m);
            |cp| > 0 && cp[|cp| - 1] < |m| && m[cp[|cp| - 1]] == m[|m| - 1]
  {
    var cp := ChangePoints(m);
    ChangePointsMembers(m);
    ChangePointsOrdered(m);
    var n := |m| - 1;
    PlateauStart(m, n);
    var s: nat :| s <= n && IsChangePoint(m, s) && m[s] == m[n];
    assert s in cp;
    var p :| 0 <= p < |cp| && cp[p] == s;
    var last := cp[|cp| - 1];
    assert s <= last;
    assert m[n] <= m[last] <= m[s];
  }

  /** The appended last index repeats the one before it exactly when the
      last iteration improves the incumbent (or is the only one). */
  lemma LastIndexRepeatsIffLastImproves(perf: seq<real>)
    requires |perf| > 0
    ensures var c := IncumbentCurve(perf).value;
            var m := RunningMin(perf);
            var n := |perf| - 1;
            c.x[|c.x| - 2] == c.x[|c.x| - 1] <==> (n == 0 || m[n] < m[n - 1])
  {
    var m := RunningMin(perf);
    CurveIndices(perf);
    RunningMinNonIncreasing(perf);
    LastChangePoint(m);
  }

  /** The last change point is the last position exactly when the last
      value is new. */
  lemma LastChangePoint(m: seq<real>)
    requires NonIncreasing(m) && |m| > 0
    ensures var cp, n := ChangePoints(m), |m| - 1;
            |cp| > 0 && (cp[|cp| - 1] == n <==> (n == 0 || m[n] < m[n - 1]))
  {
    var cp, n := ChangePoints(m), |m| - 1;
    ChangePointsOrdered(m);
    ChangePointsAreImprovements(m);
    var last := cp[|cp| - 1];
    assert last in cp;
    if n in cp {
      var k :| 0 <= k < |cp| && cp[k] == n;
      assert cp[k] <= last;
    }
  }

  /** The running minimum of the example run. */
  lemma ExampleRunningMin()
    ensures RunningMin([5.0, 3.0, 3.0, 1.0, 4.0, 1.0]) == [5.0, 3.0, 3.0, 1.0, 1.0, 1.0]
  {
    RunningMinSnoc([], 5.0);
    assert [] + [5.0] == [5.0];
    assert RunningMin([5.0]) == [5.0];
    RunningMinSnoc([5.0], 3.0);
    assert [5.0] + [3.0] == [5.0, 3.0];
    assert RunningMin([5.0, 3.0]) == [5.0, 3.0];
    RunningMinSnoc([5.0, 3.0], 3.0);
    assert [5.0, 3.0] + [3.0] == [5.0, 3.0, 3.0];
    assert RunningMin([5.0, 3.0, 3.0]) == [5.0, 3.0, 3.0];
    RunningMinSnoc([5.0, 3.0, 3.0], 1.0);
    assert [5.0, 3.0, 3.0] + [1.0] == [5.0, 3.0, 3.0, 1.0];
    assert RunningMin([5.0, 3.0, 3.0, 1.0]) == [5.0, 3.0, 3.0, 1.0];
    RunningMinSnoc([5.0, 3.0, 3.0, 1.0], 4.0);
    assert [5.0, 3.0, 3.0, 1.0] + [4.0] == [5.0, 3.0, 3.0, 1.0, 4.0];
    assert RunningMin([5.0, 3.0, 3.0, 1.0, 4.0]) == [5.0, 3.0, 3.0, 1.0, 1.0];
    RunningMinSnoc([5.0, 3.0, 3.0, 1.0, 4.0], 1.0);
    assert [5.0, 3.0, 3.0, 1.0, 4.0] + [1.0] == [5.0, 3.0, 3.0, 1.0, 4.0, 1.0];
  }

  /** The run [5, 3, 3, 1, 4, 1] has steps at iterations 0, 1 and 3 (the
      first index of each plateau), then the appended last iteration 5. */
  lemma ExampleCurve(perf: seq<real>)
    requires perf == [5.0, 3.0, 3.0, 1.0, 4.0, 1.0]
    ensures IncumbentCurve(perf) == Some(Curve([0, 1, 3, 5], [5.0, 3.0, 1.0, 1.0]))
  {
    var m := [5.0, 3.0, 3.0, 1.0, 1.0, 1.0];
    ExampleRunningMin();
    ExampleChangePoints(m);
    CurveIndices(perf);
    var c := IncumbentCurve(perf).value;
    assert c.x == [0, 1, 3, 5];
    assert c.y == [m[0], m[1], m[3], m[5]];
  }

  /** The plateaus of the example's running minimum start at 0, 1 and 3. */
  lemma ExampleChangePoints(m: seq<real>)
    requires m == [5.0, 3.0, 3.0, 1.0, 1.0, 1.0]
    ensures ChangePoints(m) == [0, 1, 3]
  {
    ExampleChangePointsFront([5.0, 3.0, 3.0]);
    ChangePointsSnoc([5.0, 3.0, 3.0], 1.0);
    assert [5.0, 3.0, 3.0] + [1.0] == [5.0, 3.0, 3.0, 1.0];
    ChangePointsSnoc([5.0, 3.0, 3.0, 1.0], 1.0);
    assert [5.0, 3.0, 3.0, 1.0] + [1.0] == [5.0, 3.0, 3.0, 1.0, 1.0];
    ChangePointsSnoc([5.0, 3.0, 3.0, 1.0, 1.0], 1.0);
    assert [5.0, 3.0, 3.0, 1.0, 1.0] + [1.0] == m;
  }

  lemma ExampleChangePointsFront(m: seq<real>)
    requires m == [5.0, 3.0, 3.0]
    ensures ChangePoints(m) == [0, 1]
  {
    ChangePointsSnoc([], 5.0);
    assert [] + [5.0] == [5.0];
    assert ChangePoints([5.0]) == [0];
    ChangePointsSnoc([5.0], 3.0);
    assert [5.0] + [3.0] == [5.0, 3.0];
    assert ChangePoints([5.0, 3.0]) == [0, 1];
    ChangePointsSnoc([5.0, 3.0], 3.0);
    assert [5.0, 3.0] + [3.0] == m;
  }

  // ---------------------------------------------------------------------------
  // get_item_single_run

  /** Lines 141-142: a run's records after the first (its header), each
      projected by func. `run` stands for `self.data_all_runs[run_id]`. */
  function ItemSingleRun<T, U>(run: seq<T>, func: T -> U): (r: seq<U>)
    ensures |run| == 0 ==> r == []
    ensures |run| > 0 ==> |r| == |run| - 1 && forall k :: 0 <= k < |r| ==> r[k] == func(run[k + 1])
  {
    if |run| == 0 then [] else seq(|run| - 1, k requires 0 <= k < |run| - 1 => func(run[k + 1]))
  }

  /** The curve of one run, as `plot_run_incumbent` computes it: a run with
      no record beyond its header raises. */
  function RunIncumbent<T>(run: seq<T>, func: T -> real): Option<Curve> {
    IncumbentCurve(ItemSingleRun(run, func))
  }

  lemma RunIncumbentExistsIffRecords<T>(run: seq<T>, func: T -> real)
    ensures RunIncumbent(run, func).Some? <==> |run| >= 2
  {
  }
}
