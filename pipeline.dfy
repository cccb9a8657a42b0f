/**
 * The survey scripts end to end, from the rows of the calibrated log and the
 * list of floor-plan coordinates to the unsmoothed heat-map grid (averaging
 * scripts) or to the coloured points (single-reading builder).
 */
module SurveyPipeline {
  import opened CsvRows
  import opened Calibration
  import opened Segmentation
  import opened Aggregation
  import opened Alignment
  import opened Raster
  import opened ColorBands

  /** Why an averaging script stops: an uncaught exception on a row, or the length check. */
  datatype Failure = RowAborted(abort: Abort) | CountMismatch(mismatch: Mismatch)

  /**
   * Group the rows, average every group and pair the averages with the
   * coordinates. Only a row can make it fail: the length check never fires,
   * and the i-th sample is the i-th coordinate with the mean of the i-th group.
   */
  function AlignedSamples(rows: seq<SurveyRow>, locations: seq<Coordinate>): (r: Result<seq<Sample>, Failure>)
    ensures r.Ok? <==> Segment(rows).Ok?
    ensures r.Err? ==> r.error == RowAborted(Segment(rows).error)
    ensures r.Ok? ==>
      && |r.value| == Min(|locations|, |Segment(rows).value|)
      && forall i :: 0 <= i < |r.value| ==>
           r.value[i] == Sample(locations[i], Mean(Segment(rows).value[i]))
  {
    match Segment(rows)
    case Err(e) => Err(RowAborted(e))
    case Ok(groups) =>
      match Align(locations, Averages(groups))
      case Err(m) => Err(CountMismatch(m))
      case Ok(samples) => Ok(samples)
  }

  /**
   * The averaging scripts from the calibrated rows to the grid handed to the
   * smoothing filter: a `height` by `width` grid holding, at every cell, the
   * last aligned sample placed there, or 0.
   */
  method BuildHeatmap(rows: seq<SurveyRow>, locations: seq<Coordinate>, height: nat, width: nat)
    returns (r: Result<array2<real>, Failure>)
    ensures r.Ok? <==> AlignedSamples(rows, locations).Ok?
    ensures r.Err? ==> r.error == AlignedSamples(rows, locations).error
    ensures r.Ok? ==>
      && r.value.Length0 == height && r.value.Length1 == width
      && forall y, x :: 0 <= y < height && 0 <= x < width ==>
           r.value[y, x] == LastWrite(AlignedSamples(rows, locations).value, x, y)
    ensures r.Ok? ==> fresh(r.value)
  {
    var grouped := GroupRows(rows);
    if grouped.Err? {
      return Err(RowAborted(grouped.error));
    }
    var averagedRssi := Averages(grouped.value);
    var samples := Align(locations, averagedRssi).value;
    var heatmap := Rasterize(samples, height, width);
    return Ok(heatmap);
  }

  /**
   * The single-reading builder: every coordinate paired, by position, with
   * the colour of the value at the same position; a Mismatch unless the two
   * lists are of equal length.
   */
  function BuilderPoints(coordinates: seq<Coordinate>, values: seq<real>): (r: Result<seq<(Coordinate, string)>, Mismatch>)
    ensures r.Ok? <==> |coordinates| == |values|
    ensures r.Ok? ==>
      && |r.value| == |values|
      && forall i :: 0 <= i < |r.value| ==> r.value[i] == (coordinates[i], GetColor(values[i]))
  {
    match PairExactly(coordinates, values)
    case Err(m) => Err(m)
    case Ok(samples) =>
      Ok(seq(|samples|, i requires 0 <= i < |samples| => (samples[i].at, GetColor(samples[i].value))))
  }

  /**
   * A row of the calibration script's output, read by an averaging script:
   * its header is timestamp, measured_rssi, calibrated_rssi, so there is no
   * `button` column.
   */
  function AsSurveyRow(row: CalibratedRow): (s: SurveyRow)
    ensures s.button.Absent? && s.calibratedRssi == Present(Some(row.calibrated))
    ensures ClassifySurveyRow(s) == Skip
  {
    SurveyRow(Absent, Present(Some(row.calibrated)))
  }

  /**
   * Fed the calibration script's own output, an averaging script finds no
   * button on any row, builds no group, and places no sample on the grid.
   */
  lemma CalibrationOutputGivesNoSamples(log: seq<CalibratedRow>, locations: seq<Coordinate>)
    ensures var rows := seq(|log|, i requires 0 <= i < |log| => AsSurveyRow(log[i]));
      AlignedSamples(rows, locations) == Ok([])
  {
    var rows := seq(|log|, i requires 0 <= i < |log| => AsSurveyRow(log[i]));
    NoButtonColumnNoGroups(rows);
    assert Averages([]) == [];
  }

  /** The rows of the worked survey below: raw readings -40 and -42 at button P1, then -90 at P2. */
  function WorkedRows(): seq<SurveyRow>
  {
    [SurveyRow(Present("P1"), Present(Some(Calibrate(-40.0)))),
     SurveyRow(Present("P1"), Present(Some(Calibrate(-42.0)))),
     SurveyRow(Present("P2"), Present(Some(Calibrate(-90.0))))]
  }

  /** A row with an unpadded label and a parsed value is kept as that label and value. */
  lemma UnpaddedRowKept(button: string, value: real)
    requires button == [] || (!IsSpace(button[0]) && !IsSpace(button[|button| - 1]))
    ensures ClassifySurveyRow(SurveyRow(Present(button), Present(Some(value)))) == Keep(Reading(button, value))
  {
    StripKeepsUnpadded(button);
  }

  lemma WorkedVerdicts()
    ensures ClassifySurveyRow(WorkedRows()[0]) == Keep(Reading("P1", -38.6))
    ensures ClassifySurveyRow(WorkedRows()[1]) == Keep(Reading("P1", -41.74))
    ensures ClassifySurveyRow(WorkedRows()[2]) == Keep(Reading("P2", -117.1))
  {
    CalibrateExamples();
    UnpaddedRowKept("P1", -38.6);
    UnpaddedRowKept("P1", -41.74);
    UnpaddedRowKept("P2", -117.1);
  }

  /** Three rows, each kept: the loop collects their three items in order. */
  lemma ThreeKept<R, T>(rows: seq<R>, verdict: R -> Verdict<T>, x0: T, x1: T, x2: T)
    requires |rows| == 3
    requires verdict(rows[0]) == Keep(x0) && verdict(rows[1]) == Keep(x1) && verdict(rows[2]) == Keep(x2)
    ensures Scan(rows, verdict) == Ok([x0, x1, x2])
  {
    assert Scan(rows[..1], verdict) == Ok([x0]) by {
      assert rows[..0] == [];
      ScanExtends(rows, verdict, 0, []);
      assert [] + [x0] == [x0];
    }
    assert Scan(rows[..2], verdict) == Ok([x0, x1]) by {
      ScanExtends(rows, verdict, 1, [x0]);
      assert [x0] + [x1] == [x0, x1];
    }
    assert Scan(rows[..3], verdict) == Ok([x0, x1, x2]) by {
      ScanExtends(rows, verdict, 2, [x0, x1]);
      assert [x0, x1] + [x2] == [x0, x1, x2];
    }
    assert rows[..3] == rows;
  }

  lemma WorkedReadings()
    ensures Scan(WorkedRows(), ClassifySurveyRow) ==
      Ok([Reading("P1", -38.6), Reading("P1", -41.74), Reading("P2", -117.1)])
  {
    WorkedVerdicts();
    ThreeKept(WorkedRows(), ClassifySurveyRow, Reading("P1", -38.6), Reading("P1", -41.74), Reading("P2", -117.1));
  }

  /** Two readings under one label and a third under another give a group of two and a group of one. */
  lemma TwoRuns<L>(a: L, b: L, v1: real, v2: real, v3: real)
    requires a != b
    ensures Runs([Reading(a, v1), Reading(a, v2), Reading(b, v3)]) == [[v1, v2], [v3]]
  {
    var readings := [Reading(a, v1), Reading(a, v2), Reading(b, v3)];
    var first := Run(a, [v1, v2]);
    var second := Run(b, [v3]);
    ExpandAppend([], first);
    assert [] + [first] == [first];
    ExpandAppend([first], second);
    assert [first] + [second] == [first, second];
    assert ExpandRun(first) == [Reading(a, v1), Reading(a, v2)];
    assert Expand([first, second]) == readings;
    RunDecompositionIsUnique(readings, [first, second]);
  }

  lemma WorkedGroups()
    ensures Segment(WorkedRows()) == Ok([[-38.6, -41.74], [-117.1]])
  {
    WorkedReadings();
    assert "P1" != "P2" by {
      assert "P1"[1] != "P2"[1];
    }
    TwoRuns("P1", "P2", -38.6, -41.74, -117.1);
  }

  lemma WorkedMeans()
    ensures Mean([-38.6, -41.74]) == -40.17
    ensures Mean([-117.1]) == -117.1
  {
    assert [-38.6, -41.74][..1] == [-38.6];
    assert [-38.6][..0] == [];
  }

  /**
   * The worked survey end to end: P1 averages to -40.17 and is drawn green,
   * P2 stays at -117.1 and is drawn red.
   */
  lemma WorkedSurvey()
    ensures AlignedSamples(WorkedRows(), [Coordinate(10, 10), Coordinate(20, 20)]) ==
      Ok([Sample(Coordinate(10, 10), -40.17), Sample(Coordinate(20, 20), -117.1)])
    ensures RssiToColor(-40.17) == "#00A86B" && RssiToColor(-117.1) == "#FF0000"
  {
    var locations := [Coordinate(10, 10), Coordinate(20, 20)];
    var expected := [Sample(Coordinate(10, 10), -40.17), Sample(Coordinate(20, 20), -117.1)];
    WorkedGroups();
    WorkedMeans();
    var r := AlignedSamples(WorkedRows(), locations);
    assert |r.value| == 2;
    assert r.value[0] == expected[0] && r.value[1] == expected[1];
    assert r.value == expected;
  }
}
