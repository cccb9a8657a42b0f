/**
 * Pairing the surveyed floor-plan coordinates with the measured values. The
 * averaging scripts first cut both lists to the shorter length and then check
 * that the lengths agree; the single-reading builder checks the lengths
 * without cutting. Pairing itself is Python's `zip`, which stops at the end of
 * the shorter list.
 */
module Alignment {
  import opened CsvRows

  /** A pixel position on the floor plan: column `x`, row `y`. */
  datatype Coordinate = Coordinate(x: int, y: int)

  /** A measured or averaged value placed at a coordinate. */
  datatype Sample = Sample(at: Coordinate, value: real)

  /** The ValueError raised when the two lists differ in length; its message is fixed. */
  datatype Mismatch = Mismatch

  function Min(a: nat, b: nat): nat
  {
    if a <= b then a else b
  }

  /** `xs[:min_len]` and `ys[:min_len]` with `min_len = min(len(xs), len(ys))`. */
  function Truncate<A, B>(xs: seq<A>, ys: seq<B>): (r: (seq<A>, seq<B>))
    ensures |r.0| == |r.1| == Min(|xs|, |ys|)
    ensures r.0 <= xs && r.1 <= ys
    ensures r.0 == xs || r.1 == ys
  {
    var n := Min(|xs|, |ys|);
    (xs[..n], ys[..n])
  }

  /** The length comparison: raises a Mismatch unless the lengths are equal. */
  function CheckCounts<A, B>(xs: seq<A>, ys: seq<B>): (r: Result<(), Mismatch>)
    ensures r.Ok? <==> |xs| == |ys|
  {
    if |xs| != |ys| then Err(Mismatch) else Ok(())
  }

  /** `zip(locations, values)`: positional pairs up to the end of the shorter list. */
  function Zip(locations: seq<Coordinate>, values: seq<real>): (samples: seq<Sample>)
    ensures |samples| == Min(|locations|, |values|)
    ensures forall i :: 0 <= i < |samples| ==> samples[i] == Sample(locations[i], values[i])
  {
    if |locations| == 0 || |values| == 0 then []
    else [Sample(locations[0], values[0])] + Zip(locations[1..], values[1..])
  }

  function Locations(samples: seq<Sample>): (locations: seq<Coordinate>)
    ensures |locations| == |samples|
    ensures forall i :: 0 <= i < |samples| ==> locations[i] == samples[i].at
  {
    seq(|samples|, i requires 0 <= i < |samples| => samples[i].at)
  }

  function Values(samples: seq<Sample>): (values: seq<real>)
    ensures |values| == |samples|
    ensures forall i :: 0 <= i < |samples| ==> values[i] == samples[i].value
  {
    seq(|samples|, i requires 0 <= i < |samples| => samples[i].value)
  }

  /** Zipping two lists of equal length loses nothing: both lists come back out. */
  lemma ZipThenUnzip(locations: seq<Coordinate>, values: seq<real>)
    requires |locations| == |values|
    ensures Locations(Zip(locations, values)) == locations
    ensures Values(Zip(locations, values)) == values
  {
  }

  /** Every list of samples is the zip of its coordinates and its values. */
  lemma UnzipThenZip(samples: seq<Sample>)
    ensures Zip(Locations(samples), Values(samples)) == samples
  {
  }

  /** Zipping only ever looks at the first `min` entries of either list. */
  lemma ZipOfTruncation(locations: seq<Coordinate>, values: seq<real>)
    ensures var (l, v) := Truncate(locations, values);
      Zip(l, v) == Zip(locations, values)
  {
  }

  /**
   * The averaging scripts' alignment: truncate both lists, check the lengths,
   * then zip. It never raises the Mismatch, and it pairs exactly what `zip`
   * of the untruncated lists would.
   */
  function Align(locations: seq<Coordinate>, averages: seq<real>): (r: Result<seq<Sample>, Mismatch>)
    ensures r.Ok?
    ensures r.value == Zip(locations, averages)
    ensures |r.value| == Min(|locations|, |averages|)
  {
    var (l, v) := Truncate(locations, averages);
    match CheckCounts(l, v)
    case Err(e) => Err(e)
    case Ok(_) =>
      ZipOfTruncation(locations, averages);
      Ok(Zip(l, v))
  }

  /**
   * The single-reading builder's alignment: no truncation; a Mismatch unless
   * the two lists are of equal length, and otherwise each coordinate paired
   * with the value at the same position.
   */
  function PairExactly(coordinates: seq<Coordinate>, values: seq<real>): (r: Result<seq<Sample>, Mismatch>)
    ensures r.Ok? <==> |coordinates| == |values|
    ensures r.Ok? ==> Locations(r.value) == coordinates && Values(r.value) == values
  {
    match CheckCounts(coordinates, values)
    case Err(e) => Err(e)
    case Ok(_) =>
      ZipThenUnzip(coordinates, values);
      Ok(Zip(coordinates, values))
  }
}
