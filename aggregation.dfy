/**
 * One average per group: `statistics.mean` of each group, taken over exact
 * reals (the sum of the group divided by its length).
 */
module Aggregation {

  function Sum(g: seq<real>): real
  {
    if |g| == 0 then 0.0 else Sum(g[..|g| - 1]) + g[|g| - 1]
  }

  /** The smallest value of a non-empty group. */
  function Least(g: seq<real>): (m: real)
    requires |g| > 0
    ensures exists i :: 0 <= i < |g| && g[i] == m
    ensures forall i :: 0 <= i < |g| ==> m <= g[i]
  {
    if |g| == 1 then g[0]
    else
      var rest := Least(g[..|g| - 1]);
      assert forall i :: 0 <= i < |g| - 1 ==> g[..|g| - 1][i] == g[i];
      if g[|g| - 1] < rest then g[|g| - 1] else rest
  }

  /** The largest value of a non-empty group. */
  function Greatest(g: seq<real>): (m: real)
    requires |g| > 0
    ensures exists i :: 0 <= i < |g| && g[i] == m
    ensures forall i :: 0 <= i < |g| ==> g[i] <= m
  {
    if |g| == 1 then g[0]
    else
      var rest := Greatest(g[..|g| - 1]);
      assert forall i :: 0 <= i < |g| - 1 ==> g[..|g| - 1][i] == g[i];
      if g[|g| - 1] > rest then g[|g| - 1] else rest
  }

  /** The arithmetic mean of a group; the scripts only take it of non-empty groups. */
  function Mean(g: seq<real>): (m: real)
    requires |g| > 0
    ensures m * (|g| as real) == Sum(g)
  {
    Sum(g) / (|g| as real)
  }

  /** A group whose values are all at least `lo` sums to at least `|g| * lo`. */
  lemma {:induction false} SumAtLeast(g: seq<real>, lo: real)
    requires forall i :: 0 <= i < |g| ==> lo <= g[i]
    ensures (|g| as real) * lo <= Sum(g)
  {
    if |g| > 0 {
      var p := g[..|g| - 1];
      assert forall i :: 0 <= i < |p| ==> p[i] == g[i];
      SumAtLeast(p, lo);
    }
  }

  /** A group whose values are all at most `hi` sums to at most `|g| * hi`. */
  lemma {:induction false} SumAtMost(g: seq<real>, hi: real)
    requires forall i :: 0 <= i < |g| ==> g[i] <= hi
    ensures Sum(g) <= (|g| as real) * hi
  {
    if |g| > 0 {
      var p := g[..|g| - 1];
      assert forall i :: 0 <= i < |p| ==> p[i] == g[i];
      SumAtMost(p, hi);
    }
  }

  lemma QuotientAtLeast(s: real, n: real, lo: real)
    requires n > 0.0 && n * lo <= s
    ensures lo <= s / n
  {
    assert (s / n) * n == s;
  }

  lemma QuotientAtMost(s: real, n: real, hi: real)
    requires n > 0.0 && s <= n * hi
    ensures s / n <= hi
  {
    assert (s / n) * n == s;
  }

  /** A mean is at least the smallest value of its group. */
  lemma MeanAtLeastLeast(g: seq<real>)
    requires |g| > 0
    ensures Least(g) <= Mean(g)
  {
    var lo, n := Least(g), |g| as real;
    assert n * lo <= Sum(g) by { SumAtLeast(g, lo); }
    QuotientAtLeast(Sum(g), n, lo);
  }

  /** A mean is at most the largest value of its group. */
  lemma MeanAtMostGreatest(g: seq<real>)
    requires |g| > 0
    ensures Mean(g) <= Greatest(g)
  {
    var hi, n := Greatest(g), |g| as real;
    assert Sum(g) <= n * hi by { SumAtMost(g, hi); }
    QuotientAtMost(Sum(g), n, hi);
  }

  /** A mean never leaves the range of its group. */
  lemma MeanWithinRange(g: seq<real>)
    requires |g| > 0
    ensures Least(g) <= Mean(g) <= Greatest(g)
  {
    MeanAtLeastLeast(g);
    MeanAtMostGreatest(g);
  }

  /** The mean of a group of equal readings is that reading. */
  lemma MeanOfConstantGroup(g: seq<real>, c: real)
    requires |g| > 0 && forall i :: 0 <= i < |g| ==> g[i] == c
    ensures Mean(g) == c
  {
    var n := |g| as real;
    assert n * c <= Sum(g) by { SumAtLeast(g, c); }
    assert Sum(g) <= n * c by { SumAtMost(g, c); }
    QuotientAtLeast(Sum(g), n, c);
    QuotientAtMost(Sum(g), n, c);
  }

  /** The list of averages, one per group and in group order. */
  function Averages(groups: seq<seq<real>>): (averages: seq<real>)
    requires forall k :: 0 <= k < |groups| ==> |groups[k]| > 0
    ensures |averages| == |groups|
    ensures forall k :: 0 <= k < |groups| ==> averages[k] == Mean(groups[k])
  {
    seq(|groups|, k requires 0 <= k < |groups| => Mean(groups[k]))
  }

  /** Every average lies between the smallest and the largest value of its own group. */
  lemma AveragesWithinGroupRange(groups: seq<seq<real>>)
    requires forall k :: 0 <= k < |groups| ==> |groups[k]| > 0
    ensures forall k :: 0 <= k < |groups| ==>
      Least(groups[k]) <= Averages(groups)[k] <= Greatest(groups[k])
  {
    forall k | 0 <= k < |groups|
      ensures Least(groups[k]) <= Averages(groups)[k] <= Greatest(groups[k])
    {
      MeanWithinRange(groups[k]);
    }
  }

  /** Worked value: readings -60 and -70 average to -65. */
  lemma MeanExample()
    ensures Mean([-60.0, -70.0]) == -65.0
  {
    assert [-60.0, -70.0][..1] == [-60.0];
    assert [-60.0][..0] == [];
  }
}
