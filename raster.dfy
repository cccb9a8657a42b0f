/**
 * The heat-map layer before smoothing: an all-zero grid the size of the floor
 * plan, in which every sample that falls inside the grid is written at row
 * `y`, column `x`. A later sample at the same cell overwrites an earlier one.
 */
module Raster {
  import opened Alignment

  predicate InBounds(at: Coordinate, height: nat, width: nat)
  {
    0 <= at.y < height && 0 <= at.x < width
  }

  /** The value the last sample at column `x`, row `y` carries, or 0 when there is none. */
  function LastWrite(samples: seq<Sample>, x: int, y: int): (v: real)
    ensures v == 0.0 || exists j :: 0 <= j < |samples| && samples[j].at == Coordinate(x, y) && samples[j].value == v
  {
    if |samples| == 0 then 0.0
    else if samples[|samples| - 1].at == Coordinate(x, y) then samples[|samples| - 1].value
    else LastWrite(samples[..|samples| - 1], x, y)
  }

  lemma LastWriteStep(samples: seq<Sample>, i: nat, x: int, y: int)
    requires i < |samples|
    ensures LastWrite(samples[..i + 1], x, y) ==
      if samples[i].at == Coordinate(x, y) then samples[i].value else LastWrite(samples[..i], x, y)
  {
    assert samples[..i + 1][..i] == samples[..i];
  }

  /** The grid-filling loop of the averaging scripts. */
  method Rasterize(samples: seq<Sample>, height: nat, width: nat) returns (heatmap: array2<real>)
    ensures fresh(heatmap)
    ensures heatmap.Length0 == height && heatmap.Length1 == width
    ensures forall y, x :: 0 <= y < height && 0 <= x < width ==> heatmap[y, x] == LastWrite(samples, x, y)
  {
    heatmap := new real[height, width]((_, _) => 0.0);
    for i := 0 to |samples|
      invariant forall y, x :: 0 <= y < height && 0 <= x < width ==>
        heatmap[y, x] == LastWrite(samples[..i], x, y)
    {
      var s := samples[i];
      forall y, x | 0 <= y < height && 0 <= x < width
        ensures LastWrite(samples[..i + 1], x, y) ==
          if s.at == Coordinate(x, y) then s.value else LastWrite(samples[..i], x, y)
      {
        LastWriteStep(samples, i, x, y);
      }
      if 0 <= s.at.y < heatmap.Length0 && 0 <= s.at.x < heatmap.Length1 {
        heatmap[s.at.y, s.at.x] := s.value;
      }
    }
    assert samples[..|samples|] == samples;
  }

  /** A cell on which no sample was placed holds 0. */
  lemma {:induction false} LastWriteUntouched(samples: seq<Sample>, x: int, y: int)
    requires forall j :: 0 <= j < |samples| ==> samples[j].at != Coordinate(x, y)
    ensures LastWrite(samples, x, y) == 0.0
  {
    if |samples| > 0 {
      var p := samples[..|samples| - 1];
      assert forall j :: 0 <= j < |p| ==> p[j] == samples[j];
      LastWriteUntouched(p, x, y);
    }
  }

  /** A cell holds the value of sample `j` when `j` is the last sample placed on it. */
  lemma {:induction false} LastWriteIsLatest(samples: seq<Sample>, x: int, y: int, j: nat)
    requires j < |samples| && samples[j].at == Coordinate(x, y)
    requires forall k :: j < k < |samples| ==> samples[k].at != Coordinate(x, y)
    ensures LastWrite(samples, x, y) == samples[j].value
  {
    var n := |samples| - 1;
    if j < n {
      var p := samples[..n];
      assert forall k :: 0 <= k < n ==> p[k] == samples[k];
      LastWriteIsLatest(p, x, y, j);
    }
  }

  /** A sample outside the grid can be removed without changing any cell of the grid. */
  lemma {:induction false} OutOfBoundsSampleIgnored(pre: seq<Sample>, s: Sample, post: seq<Sample>, height: nat, width: nat, x: int, y: int)
    requires !InBounds(s.at, height, width)
    requires 0 <= y < height && 0 <= x < width
    ensures LastWrite(pre + [s] + post, x, y) == LastWrite(pre + post, x, y)
  {
    if |post| == 0 {
      assert pre + [s] + post == pre + [s];
      assert (pre + [s])[..|pre|] == pre;
      assert pre + post == pre;
    } else {
      var shorter := post[..|post| - 1];
      OutOfBoundsSampleIgnored(pre, s, shorter, height, width, x, y);
      var with := pre + [s] + post;
      var without := pre + post;
      assert with[..|with| - 1] == pre + [s] + shorter;
      assert without[..|without| - 1] == pre + shorter;
    }
  }

  /** Two samples on the same cell: the later one stays, whatever the earlier one was. */
  lemma LaterSampleWins(a: real, b: real)
    ensures LastWrite([Sample(Coordinate(3, 4), a), Sample(Coordinate(3, 4), b)], 3, 4) == b
    ensures LastWrite([Sample(Coordinate(3, 4), a), Sample(Coordinate(3, 4), b)], 4, 3) == 0.0
  {
    var samples := [Sample(Coordinate(3, 4), a), Sample(Coordinate(3, 4), b)];
    LastWriteIsLatest(samples, 3, 4, 1);
    LastWriteUntouched(samples, 4, 3);
  }
}
