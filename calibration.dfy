/**
 * The calibration script: every row of the raw log whose `rssi` cell parses
 * as a number becomes the tuple (timestamp, measured rssi, calibrated rssi),
 * with the calibrated value an affine function of the measured one. Values
 * are exact reals, not binary floating point.
 */
module Calibration {
  import opened CsvRows

  /** Slope and intercept of the device calibration. */
  const Scale: real := 1.57
  const Offset: real := 24.2

  function Calibrate(raw: real): (c: real)
    ensures (c - 24.2) / 1.57 == raw
  {
    Scale * raw + Offset
  }

  /**
   * A row of the raw log: its `timestamp` cell, and its `rssi` cell as
   * Python's `float` reads it (None when `float` raises ValueError).
   */
  datatype LogRow = LogRow(timestamp: Field<string>, rssi: Field<Option<real>>)

  /**
   * One output tuple, in the order of the header written after the loop:
   * timestamp, measured_rssi, calibrated_rssi. The timestamp is None when the
   * row was shorter than the header.
   */
  datatype CalibratedRow = CalibratedRow(timestamp: Option<string>, measured: real, calibrated: real)

  /** True when `float(row["rssi"])` returns a number. */
  predicate Parses(row: LogRow)
  {
    row.rssi.Present? && row.rssi.value.Some?
  }

  /**
   * True when the loop body raises an exception it does not catch: the rssi
   * column is missing (KeyError) or the cell is None (TypeError), or the rssi
   * parses and the timestamp column is missing (KeyError).
   */
  predicate AbortsRun(row: LogRow)
  {
    row.rssi.Absent? || row.rssi.Null? || (Parses(row) && row.timestamp.Absent?)
  }

  /** One pass of the loop body: only ValueError is caught. */
  function CalibrateRow(row: LogRow): (v: Verdict<CalibratedRow>)
    ensures v.Skip? <==> row.rssi == Present(None)
    ensures v.Crash? <==> !row.rssi.Present? || (row.rssi.value.Some? && row.timestamp.Absent?)
    ensures v.Crash? ==> v.error == (if row.rssi.Null? then TypeError else KeyError)
  {
    match row.rssi
    case Absent => Crash(KeyError)
    case Null => Crash(TypeError)
    case Present(None) => Skip
    case Present(Some(raw)) =>
      match row.timestamp
      case Absent => Crash(KeyError)
      case Null => Keep(CalibratedRow(None, raw, Calibrate(raw)))
      case Present(t) => Keep(CalibratedRow(Some(t), raw, Calibrate(raw)))
  }

  /** The loop that fills `calibrated_data`, or the exception that ends the script. */
  method CalibrateLog(rows: seq<LogRow>) returns (r: Result<seq<CalibratedRow>, Abort>)
    ensures r == Scan(rows, CalibrateRow)
  {
    var calibratedData: seq<CalibratedRow> := [];
    for i := 0 to |rows|
      invariant Scan(rows[..i], CalibrateRow) == Ok(calibratedData)
    {
      match CalibrateRow(rows[i])
      case Keep(entry) =>
        assert Scan(rows[..i + 1], CalibrateRow) == Ok(calibratedData + [entry]) by {
          ScanExtends(rows, CalibrateRow, i, calibratedData);
        }
        calibratedData := calibratedData + [entry];
      case Skip =>
        assert Scan(rows[..i + 1], CalibrateRow) == Ok(calibratedData) by {
          ScanExtends(rows, CalibrateRow, i, calibratedData);
        }
      case Crash(error) =>
        assert Scan(rows, CalibrateRow) == Err(Abort(i, error)) by {
          ScanExtends(rows, CalibrateRow, i, calibratedData);
          ScanAbortIsFinal(rows, CalibrateRow, i + 1);
        }
        return Err(Abort(i, error));
    }
    assert rows[..|rows|] == rows;
    return Ok(calibratedData);
  }

  /** Calibration preserves and strictly reflects the order of measurements. */
  lemma CalibrateStrictlyIncreasing(a: real, b: real)
    ensures a < b <==> Calibrate(a) < Calibrate(b)
  {
  }

  /** Worked values: -40 dBm reads as -38.6, -42 as -41.74 and -90 as -117.1. */
  lemma CalibrateExamples()
    ensures Calibrate(-40.0) == -38.6
    ensures Calibrate(-42.0) == -41.74
    ensures Calibrate(-90.0) == -117.1
  {
  }

  /** The script runs to the end exactly when no row raises an uncaught exception. */
  lemma {:induction false} CalibrateLogAbortsIff(rows: seq<LogRow>)
    ensures Scan(rows, CalibrateRow).Err? <==> exists i :: 0 <= i < |rows| && AbortsRun(rows[i])
  {
    ScanOkIffNoCrash(rows, CalibrateRow);
    assert forall i :: 0 <= i < |rows| ==> (CalibrateRow(rows[i]).Crash? <==> AbortsRun(rows[i]));
  }

  /** A kept row holds the row's timestamp, its measured value and 1.57 times that value plus 24.2. */
  lemma KeptLogRow(row: LogRow)
    requires CalibrateRow(row).Keep?
    ensures Parses(row)
    ensures var out := CalibrateRow(row).item;
      && out.measured == row.rssi.value.value
      && out.calibrated == 1.57 * out.measured + 24.2
      && out.timestamp == (if row.timestamp.Present? then Some(row.timestamp.value) else None)
  {
  }

  /**
   * When the script runs to the end, its output rows are exactly the input
   * rows whose rssi parses, in input order, each holding the row's timestamp,
   * its measured value and 1.57 times that value plus 24.2.
   */
  lemma {:induction false} CalibratedRowsAreParsedRows(rows: seq<LogRow>)
    requires Scan(rows, CalibrateRow).Ok?
    ensures var out := Scan(rows, CalibrateRow).value;
      var idx := KeptIndices(rows, CalibrateRow);
      && |out| == |idx| <= |rows|
      && (forall k, l :: 0 <= k < l < |idx| ==> idx[k] < idx[l])
      && (forall i :: 0 <= i < |rows| ==> (i in idx <==> Parses(rows[i])))
      && forall k :: 0 <= k < |out| ==>
           && idx[k] < |rows| && Parses(rows[idx[k]])
           && out[k].measured == rows[idx[k]].rssi.value.value
           && out[k].calibrated == 1.57 * out[k].measured + 24.2
           && out[k].timestamp == (if rows[idx[k]].timestamp.Present? then Some(rows[idx[k]].timestamp.value) else None)
  {
    var out := Scan(rows, CalibrateRow).value;
    var idx := KeptIndices(rows, CalibrateRow);
    ScanKeepsInOrder(rows, CalibrateRow);
    ScanOkIffNoCrash(rows, CalibrateRow);
    forall i | 0 <= i < |rows|
      ensures i in idx <==> Parses(rows[i])
    {
      assert !CalibrateRow(rows[i]).Crash?;
      if i in idx {
        var k :| 0 <= k < |idx| && idx[k] == i;
        KeptLogRow(rows[i]);
      }
    }
    forall k | 0 <= k < |out|
      ensures idx[k] < |rows| && Parses(rows[idx[k]])
      ensures out[k].measured == rows[idx[k]].rssi.value.value
      ensures out[k].calibrated == 1.57 * out[k].measured + 24.2
      ensures out[k].timestamp == (if rows[idx[k]].timestamp.Present? then Some(rows[idx[k]].timestamp.value) else None)
    {
      KeptLogRow(rows[idx[k]]);
    }
  }
}
