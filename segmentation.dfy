/**
 * Run-length grouping of the calibrated log: a time-ordered stream of
 * (button, calibrated rssi) rows is cut into maximal runs of the same button
 * label. A label that comes back after another label opens a new group.
 * Rows the loop body rejects with ValueError or KeyError are dropped
 * without touching the loop state.
 */
module Segmentation {
  import opened CsvRows

  /** A row of the calibrated log: its `button` cell and its `calibrated_rssi` cell as `float` reads it. */
  datatype SurveyRow = SurveyRow(button: Field<string>, calibratedRssi: Field<Option<real>>)

  /** A well-formed row: its stripped button label and its value. */
  datatype Reading<L> = Reading(button: L, value: real)

  /** A group together with the label its rows share. */
  datatype Run<L> = Run(button: L, values: seq<real>)

  /** The characters Python's `str.strip()` removes (those for which `str.isspace()` holds). */
  predicate IsSpace(c: char)
  {
    || '\t' <= c <= '\r'
    || '\U{1C}' <= c <= ' '
    || c == '\U{85}' || c == '\U{A0}' || c == '\U{1680}'
    || '\U{2000}' <= c <= '\U{200A}'
    || c == '\U{2028}' || c == '\U{2029}' || c == '\U{202F}' || c == '\U{205F}' || c == '\U{3000}'
  }

  /**
   * Among ASCII characters, the whitespace is the space, tab, line feed,
   * vertical tab, form feed, carriage return and the four separators 0x1C-0x1F;
   * letters, digits and punctuation are not.
   */
  lemma IsSpaceAscii(c: char)
    requires c < '\U{80}'
    ensures IsSpace(c) <==>
      || c == ' ' || c == '\t' || c == '\n' || c == '\U{0B}' || c == '\U{0C}' || c == '\r'
      || c == '\U{1C}' || c == '\U{1D}' || c == '\U{1E}' || c == '\U{1F}'
  {
  }

  function StripStart(s: string): (t: string)
    ensures t == [] || !IsSpace(t[0])
    ensures |t| <= |s| && t == s[|s| - |t|..]
    ensures forall i :: 0 <= i < |s| - |t| ==> IsSpace(s[i])
  {
    if |s| > 0 && IsSpace(s[0]) then StripStart(s[1..]) else s
  }

  function StripEnd(s: string): (t: string)
    ensures t == [] || !IsSpace(t[|t| - 1])
    ensures t <= s
    ensures forall i :: |t| <= i < |s| ==> IsSpace(s[i])
  {
    if |s| > 0 && IsSpace(s[|s| - 1]) then StripEnd(s[..|s| - 1]) else s
  }

  /**
   * Python's `str.strip()`: the result is the cell with a whitespace prefix
   * and a whitespace suffix cut off, and it neither starts nor ends with
   * whitespace.
   */
  function Strip(s: string): (t: string)
    ensures t == [] || (!IsSpace(t[0]) && !IsSpace(t[|t| - 1]))
    ensures exists i, j ::
      && 0 <= i <= j <= |s| && t == s[i..j]
      && (forall k :: 0 <= k < i ==> IsSpace(s[k]))
      && (forall k :: j <= k < |s| ==> IsSpace(s[k]))
  {
    var u := StripStart(s);
    var t := StripEnd(u);
    var i := |s| - |u|;
    assert s[i..i + |t|] == t;
    t
  }

  /** A label with no surrounding whitespace is left as it is. */
  lemma StripKeepsUnpadded(s: string)
    requires s == [] || (!IsSpace(s[0]) && !IsSpace(s[|s| - 1]))
    ensures Strip(s) == s
  {
    assert StripStart(s) == s;
  }

  /** Stripping twice is stripping once. */
  lemma StripIdempotent(s: string)
    ensures Strip(Strip(s)) == Strip(s)
  {
    StripKeepsUnpadded(Strip(s));
  }

  /**
   * One pass of the loop body. `float(row["calibrated_rssi"].strip())` runs
   * first: a missing column (KeyError) or text that is not a number
   * (ValueError) skips the row. Then `row["button"].strip()`: a missing column
   * skips the row too. A short row hands None to `.strip()`, whose
   * AttributeError is not caught.
   */
  function ClassifySurveyRow(row: SurveyRow): (v: Verdict<Reading<string>>)
    ensures v.Keep? <==> row.calibratedRssi.Present? && row.calibratedRssi.value.Some? && row.button.Present?
    ensures v.Crash? <==>
      || row.calibratedRssi.Null?
      || (row.calibratedRssi.Present? && row.calibratedRssi.value.Some? && row.button.Null?)
    ensures v.Crash? ==> v.error == AttributeError
  {
    match row.calibratedRssi
    case Absent => Skip
    case Null => Crash(AttributeError)
    case Present(None) => Skip
    case Present(Some(rssi)) =>
      match row.button
      case Absent => Skip
      case Null => Crash(AttributeError)
      case Present(button) => Keep(Reading(Strip(button), rssi))
  }

  /** The maximal same-label runs of a stream, built one reading at a time as the loop does. */
  function LabelledRuns<L(==)>(rs: seq<Reading<L>>): (runs: seq<Run<L>>)
    ensures |runs| <= |rs|
    ensures forall k :: 0 <= k < |runs| ==> |runs[k].values| > 0
    ensures |rs| > 0 ==> |runs| > 0 && runs[|runs| - 1].button == rs[|rs| - 1].button
  {
    if |rs| == 0 then []
    else
      var earlier := LabelledRuns(rs[..|rs| - 1]);
      var last := rs[|rs| - 1];
      if |earlier| > 0 && earlier[|earlier| - 1].button == last.button then
        earlier[..|earlier| - 1] + [Run(last.button, earlier[|earlier| - 1].values + [last.value])]
      else
        earlier + [Run(last.button, [last.value])]
  }

  /** The groups with their labels dropped, as the script keeps them. */
  function Groups<L(==)>(runs: seq<Run<L>>): (groups: seq<seq<real>>)
    ensures |groups| == |runs|
    ensures forall k :: 0 <= k < |runs| ==> groups[k] == runs[k].values
  {
    seq(|runs|, k requires 0 <= k < |runs| => runs[k].values)
  }

  function Runs<L(==)>(rs: seq<Reading<L>>): seq<seq<real>>
  {
    Groups(LabelledRuns(rs))
  }

  /** The groups the script builds from its rows, or the exception that ends it. */
  function Segment(rows: seq<SurveyRow>): (r: Result<seq<seq<real>>, Abort>)
    ensures r.Ok? ==> forall k :: 0 <= k < |r.value| ==> |r.value[k]| > 0
  {
    match Scan(rows, ClassifySurveyRow)
    case Ok(readings) => Ok(Runs(readings))
    case Err(e) => Err(e)
  }

  /** The loop variables `groups`, `current_group`, `last_button` after the readings `seen`. */
  predicate GroupingState<L(==)>(seen: seq<Reading<L>>, groups: seq<seq<real>>, currentGroup: seq<real>, lastButton: Option<L>)
  {
    var runs := LabelledRuns(seen);
    if |runs| == 0 then
      groups == [] && currentGroup == [] && lastButton == None
    else
      && groups == Groups(runs[..|runs| - 1])
      && currentGroup == runs[|runs| - 1].values
      && lastButton == Some(runs[|runs| - 1].button)
  }

  /** A well-formed row with a new label closes the current group and opens another. */
  lemma GroupingStepNewButton<L>(seen: seq<Reading<L>>, reading: Reading<L>, groups: seq<seq<real>>, currentGroup: seq<real>, lastButton: Option<L>)
    requires GroupingState(seen, groups, currentGroup, lastButton)
    requires lastButton != Some(reading.button)
    ensures GroupingState(seen + [reading], if currentGroup != [] then groups + [currentGroup] else groups,
                          [reading.value], Some(reading.button))
  {
    var runs := LabelledRuns(seen);
    var newRun := Run(reading.button, [reading.value]);
    assert LabelledRuns(seen + [reading]) == runs + [newRun] by {
      LabelledRunsAppend(seen, reading);
    }
    assert (runs + [newRun])[..|runs|] == runs;
    if |runs| > 0 {
      var m := |runs| - 1;
      SplitLast(runs);
      GroupsAppend(runs[..m], runs[m]);
    }
  }

  /** A well-formed row with the current label extends the current group. */
  lemma GroupingStepSameButton<L>(seen: seq<Reading<L>>, reading: Reading<L>, groups: seq<seq<real>>, currentGroup: seq<real>, lastButton: Option<L>)
    requires GroupingState(seen, groups, currentGroup, lastButton)
    requires lastButton == Some(reading.button)
    ensures GroupingState(seen + [reading], groups, currentGroup + [reading.value], lastButton)
  {
    LabelledRunsAppend(seen, reading);
    var runs := LabelledRuns(seen);
    var m := |runs| - 1;
    var after := LabelledRuns(seen + [reading]);
    assert after == runs[..m] + [Run(reading.button, runs[m].values + [reading.value])];
    assert after[..|after| - 1] == runs[..m];
  }

  /** The flush after the loop leaves exactly the runs of everything seen. */
  lemma GroupingFlush<L>(seen: seq<Reading<L>>, groups: seq<seq<real>>, currentGroup: seq<real>, lastButton: Option<L>)
    requires GroupingState(seen, groups, currentGroup, lastButton)
    ensures (if currentGroup != [] then groups + [currentGroup] else groups) == Runs(seen)
  {
    var runs := LabelledRuns(seen);
    if |runs| > 0 {
      var m := |runs| - 1;
      assert runs == runs[..m] + [runs[m]];
      GroupsAppend(runs[..m], runs[m]);
    }
  }

  /** The grouping loop of the script, with the final flush of `current_group`. */
  method GroupRows(rows: seq<SurveyRow>) returns (r: Result<seq<seq<real>>, Abort>)
    ensures r == Segment(rows)
  {
    var groups: seq<seq<real>> := [];
    var currentGroup: seq<real> := [];
    var lastButton: Option<string> := None;
    ghost var seen: seq<Reading<string>> := [];
    for i := 0 to |rows|
      invariant Scan(rows[..i], ClassifySurveyRow) == Ok(seen)
      invariant GroupingState(seen, groups, currentGroup, lastButton)
    {
      match ClassifySurveyRow(rows[i])
      case Crash(error) =>
        assert Segment(rows) == Err(Abort(i, error)) by {
          ScanExtends(rows, ClassifySurveyRow, i, seen);
          ScanAbortIsFinal(rows, ClassifySurveyRow, i + 1);
        }
        return Err(Abort(i, error));
      case Skip =>
        assert Scan(rows[..i + 1], ClassifySurveyRow) == Ok(seen) by {
          ScanExtends(rows, ClassifySurveyRow, i, seen);
        }
      case Keep(reading) =>
        assert Scan(rows[..i + 1], ClassifySurveyRow) == Ok(seen + [reading]) by {
          ScanExtends(rows, ClassifySurveyRow, i, seen);
        }
        if lastButton != Some(reading.button) {
          GroupingStepNewButton(seen, reading, groups, currentGroup, lastButton);
          if currentGroup != [] {
            groups := groups + [currentGroup];
          }
          currentGroup := [reading.value];
          lastButton := Some(reading.button);
        } else {
          GroupingStepSameButton(seen, reading, groups, currentGroup, lastButton);
          currentGroup := currentGroup + [reading.value];
        }
        seen := seen + [reading];
    }
    assert Segment(rows) == Ok(Runs(seen)) by {
      assert rows[..|rows|] == rows;
    }
    GroupingFlush(seen, groups, currentGroup, lastButton);
    if currentGroup != [] {
      groups := groups + [currentGroup];
    }
    return Ok(groups);
  }

  // ---------------------------------------------------------------------------
  // What the runs are, independently of how they are built

  function ExpandRun<L(==)>(run: Run<L>): (rs: seq<Reading<L>>)
    ensures |rs| == |run.values|
  {
    seq(|run.values|, i requires 0 <= i < |run.values| => Reading(run.button, run.values[i]))
  }

  /** The readings a sequence of runs stands for, run after run. */
  function Expand<L(==)>(runs: seq<Run<L>>): seq<Reading<L>>
  {
    if |runs| == 0 then [] else Expand(runs[..|runs| - 1]) + ExpandRun(runs[|runs| - 1])
  }

  /**
   * `runs` cuts `rs` into maximal runs: no run is empty, neighbouring runs
   * have different labels, and the runs read back in order give `rs`.
   */
  predicate IsRunDecomposition<L(==)>(rs: seq<Reading<L>>, runs: seq<Run<L>>)
  {
    && (forall k :: 0 <= k < |runs| ==> |runs[k].values| > 0)
    && (forall k :: 0 < k < |runs| ==> runs[k - 1].button != runs[k].button)
    && Expand(runs) == rs
  }

  lemma LabelledRunsAppend<L>(rs: seq<Reading<L>>, r: Reading<L>)
    ensures var earlier := LabelledRuns(rs);
      LabelledRuns(rs + [r]) ==
        if |earlier| > 0 && earlier[|earlier| - 1].button == r.button then
          earlier[..|earlier| - 1] + [Run(r.button, earlier[|earlier| - 1].values + [r.value])]
        else
          earlier + [Run(r.button, [r.value])]
  {
    assert (rs + [r])[..|rs|] == rs;
  }

  lemma ExpandAppend<L>(runs: seq<Run<L>>, run: Run<L>)
    ensures Expand(runs + [run]) == Expand(runs) + ExpandRun(run)
  {
    assert (runs + [run])[..|runs|] == runs;
  }

  lemma ExpandRunAppend<L>(button: L, vs: seq<real>, v: real)
    ensures ExpandRun(Run(button, vs + [v])) == ExpandRun(Run(button, vs)) + [Reading(button, v)]
  {
  }

  lemma ExpandExtendLast<L>(init: seq<Run<L>>, run: Run<L>, v: real)
    ensures Expand(init + [Run(run.button, run.values + [v])]) == Expand(init + [run]) + [Reading(run.button, v)]
  {
    ExpandAppend(init, Run(run.button, run.values + [v]));
    ExpandAppend(init, run);
    ExpandRunAppend(run.button, run.values, v);
  }

  lemma ExpandOpenRun<L>(runs: seq<Run<L>>, r: Reading<L>)
    ensures Expand(runs + [Run(r.button, [r.value])]) == Expand(runs) + [r]
  {
    ExpandAppend(runs, Run(r.button, [r.value]));
  }

  lemma ExpandStep<L>(p: seq<Reading<L>>, last: Reading<L>)
    requires Expand(LabelledRuns(p)) == p
    ensures Expand(LabelledRuns(p + [last])) == p + [last]
  {
    LabelledRunsAppend(p, last);
    var earlier := LabelledRuns(p);
    if |earlier| > 0 && earlier[|earlier| - 1].button == last.button {
      var m := |earlier| - 1;
      SplitLast(earlier);
      ExpandExtendLast(earlier[..m], earlier[m], last.value);
    } else {
      ExpandOpenRun(earlier, last);
    }
  }

  /** Reading the runs back in order gives the stream. */
  lemma {:induction false} ExpandLabelledRuns<L>(rs: seq<Reading<L>>)
    ensures Expand(LabelledRuns(rs)) == rs
  {
    if |rs| > 0 {
      var p := rs[..|rs| - 1];
      SplitLast(rs);
      ExpandLabelledRuns(p);
      ExpandStep(p, rs[|rs| - 1]);
    }
  }

  /** Neighbouring runs never share a label. */
  lemma {:induction false} LabelledRunsNeighboursDiffer<L>(rs: seq<Reading<L>>)
    ensures var runs := LabelledRuns(rs);
      forall k :: 0 < k < |runs| ==> runs[k - 1].button != runs[k].button
  {
    if |rs| > 0 {
      var p := rs[..|rs| - 1];
      var last := rs[|rs| - 1];
      assert rs == p + [last];
      LabelledRunsNeighboursDiffer(p);
      LabelledRunsAppend(p, last);
    }
  }

  /** The grouping cuts the stream into maximal same-label runs. */
  lemma LabelledRunsAreMaximal<L>(rs: seq<Reading<L>>)
    ensures IsRunDecomposition(rs, LabelledRuns(rs))
  {
    ExpandLabelledRuns(rs);
    LabelledRunsNeighboursDiffer(rs);
  }

  /** Taking the last reading off a run decomposition leaves a run decomposition of the rest. */
  lemma PeelLastReading<L>(rs: seq<Reading<L>>, runs: seq<Run<L>>)
    requires IsRunDecomposition(rs, runs) && |runs| > 0
    ensures |rs| > 0
    ensures var m := |runs| - 1;
      var last := rs[|rs| - 1];
      var vs := runs[m].values;
      && runs[m].button == last.button
      && (if |vs| == 1 then
            && runs == runs[..m] + [Run(last.button, [last.value])]
            && IsRunDecomposition(rs[..|rs| - 1], runs[..m])
          else
            && runs == runs[..m] + [Run(last.button, vs[..|vs| - 1] + [last.value])]
            && IsRunDecomposition(rs[..|rs| - 1], runs[..m] + [Run(last.button, vs[..|vs| - 1])]))
  {
    var m := |runs| - 1;
    var init := runs[..m];
    var lastRun := runs[m];
    var vs := lastRun.values;
    var shortened := Run(lastRun.button, vs[..|vs| - 1]);
    assert runs == init + [lastRun];
    ExpandAppend(init, lastRun);
    assert vs == shortened.values + [vs[|vs| - 1]];
    ExpandRunAppend(lastRun.button, shortened.values, vs[|vs| - 1]);
    ExpandAppend(init, shortened);
  }

  /** There is only one way to cut a stream into maximal runs: the grouping's. */
  lemma {:induction false} RunDecompositionIsUnique<L>(rs: seq<Reading<L>>, runs: seq<Run<L>>)
    requires IsRunDecomposition(rs, runs)
    ensures runs == LabelledRuns(rs)
    decreases |rs|
  {
    if |runs| > 0 {
      PeelLastReading(rs, runs);
      var m := |runs| - 1;
      var p := rs[..|rs| - 1];
      var last := rs[|rs| - 1];
      var vs := runs[m].values;
      if |vs| == 1 {
        assert LabelledRuns(p) == runs[..m] by {
          RunDecompositionIsUnique(p, runs[..m]);
        }
        assert LabelledRuns(rs) == runs[..m] + [Run(last.button, [last.value])] by {
          assert m > 0 ==> runs[m - 1].button != runs[m].button;
          SplitLast(rs);
          LabelledRunsAppend(p, last);
        }
      } else {
        var shorter := runs[..m] + [Run(last.button, vs[..|vs| - 1])];
        assert LabelledRuns(p) == shorter by {
          RunDecompositionIsUnique(p, shorter);
        }
        assert LabelledRuns(rs) == runs[..m] + [Run(last.button, vs[..|vs| - 1] + [last.value])] by {
          SplitLast(rs);
          LabelledRunsAppend(p, last);
          assert shorter[..m] == runs[..m];
        }
      }
    } else {
      assert rs == [];
    }
  }

  /** Concatenation of a list of groups, in order. */
  function Flatten(groups: seq<seq<real>>): seq<real>
  {
    if |groups| == 0 then [] else Flatten(groups[..|groups| - 1]) + groups[|groups| - 1]
  }

  lemma FlattenAppend(groups: seq<seq<real>>, group: seq<real>)
    ensures Flatten(groups + [group]) == Flatten(groups) + group
  {
    assert (groups + [group])[..|groups|] == groups;
  }

  lemma GroupsAppend<L>(runs: seq<Run<L>>, run: Run<L>)
    ensures Groups(runs + [run]) == Groups(runs) + [run.values]
  {
  }

  function ReadingValues<L(==)>(rs: seq<Reading<L>>): (vs: seq<real>)
    ensures |vs| == |rs|
    ensures forall i :: 0 <= i < |rs| ==> vs[i] == rs[i].value
  {
    seq(|rs|, i requires 0 <= i < |rs| => rs[i].value)
  }

  lemma ReadingValuesAppend<L>(rs: seq<Reading<L>>, r: Reading<L>)
    ensures ReadingValues(rs + [r]) == ReadingValues(rs) + [r.value]
  {
  }

  lemma FlattenExtendLast<L>(init: seq<Run<L>>, run: Run<L>, v: real)
    ensures Flatten(Groups(init + [Run(run.button, run.values + [v])])) == Flatten(Groups(init + [run])) + [v]
  {
    GroupsAppend(init, run);
    FlattenAppend(Groups(init), run.values);
    GroupsAppend(init, Run(run.button, run.values + [v]));
    FlattenAppend(Groups(init), run.values + [v]);
  }

  lemma FlattenOpenRun<L>(runs: seq<Run<L>>, r: Reading<L>)
    ensures Flatten(Groups(runs + [Run(r.button, [r.value])])) == Flatten(Groups(runs)) + [r.value]
  {
    GroupsAppend(runs, Run(r.button, [r.value]));
    FlattenAppend(Groups(runs), [r.value]);
  }

  lemma FlattenRunsStep<L>(p: seq<Reading<L>>, last: Reading<L>)
    requires Flatten(Runs(p)) == ReadingValues(p)
    ensures Flatten(Runs(p + [last])) == ReadingValues(p) + [last.value]
  {
    LabelledRunsAppend(p, last);
    var earlier := LabelledRuns(p);
    if |earlier| > 0 && earlier[|earlier| - 1].button == last.button {
      var m := |earlier| - 1;
      SplitLast(earlier);
      FlattenExtendLast(earlier[..m], earlier[m], last.value);
    } else {
      FlattenOpenRun(earlier, last);
    }
  }

  /** Concatenating the groups in order gives back every value of the stream, in stream order. */
  lemma {:induction false} FlattenRuns<L>(rs: seq<Reading<L>>)
    ensures Flatten(Runs(rs)) == ReadingValues(rs)
  {
    if |rs| > 0 {
      var p := rs[..|rs| - 1];
      var last := rs[|rs| - 1];
      SplitLast(rs);
      FlattenRuns(p);
      FlattenRunsStep(p, last);
      ReadingValuesAppend(p, last);
    }
  }

  /** The number of neighbouring readings whose labels differ. */
  function LabelChanges<L(==)>(rs: seq<Reading<L>>): nat
  {
    if |rs| < 2 then 0
    else LabelChanges(rs[..|rs| - 1]) + (if rs[|rs| - 2].button != rs[|rs| - 1].button then 1 else 0)
  }

  /** No readings give no groups; otherwise one group plus one per label change. */
  lemma {:induction false} RunCount<L>(rs: seq<Reading<L>>)
    ensures |Runs(rs)| == if |rs| == 0 then 0 else 1 + LabelChanges(rs)
  {
    if |rs| > 0 {
      var p := rs[..|rs| - 1];
      var last := rs[|rs| - 1];
      RunCount(p);
      assert |LabelledRuns(rs)| == |LabelledRuns(p)| + (if |p| > 0 && p[|p| - 1].button == last.button then 0 else 1) by {
        SplitLast(rs);
        LabelledRunsAppend(p, last);
      }
      if |p| > 0 {
        assert p[|p| - 1] == rs[|rs| - 2];
      }
    }
  }

  /** The stream A, A, B, B, A gives three groups of sizes 2, 2 and 1: the second A run is not merged into the first. */
  lemma RecurringLabelOpensNewGroup<L>(a: L, b: L, v1: real, v2: real, v3: real, v4: real, v5: real)
    requires a != b
    ensures Runs([Reading(a, v1), Reading(a, v2), Reading(b, v3), Reading(b, v4), Reading(a, v5)])
            == [[v1, v2], [v3, v4], [v5]]
  {
    var rs := [Reading(a, v1), Reading(a, v2), Reading(b, v3), Reading(b, v4), Reading(a, v5)];
    var first := Run(a, [v1, v2]);
    var second := Run(b, [v3, v4]);
    var third := Run(a, [v5]);
    var runs := [first, second, third];
    ExpandAppend([], first);
    assert [] + [first] == [first];
    ExpandAppend([first], second);
    assert [first] + [second] == [first, second];
    ExpandAppend([first, second], third);
    assert [first, second] + [third] == runs;
    assert ExpandRun(first) == [Reading(a, v1), Reading(a, v2)];
    assert ExpandRun(second) == [Reading(b, v3), Reading(b, v4)];
    assert ExpandRun(third) == [Reading(a, v5)];
    assert Expand(runs) == rs;
    RunDecompositionIsUnique(rs, runs);
  }

  // ---------------------------------------------------------------------------
  // The same properties stated on the script's rows

  /** A kept row contributes its calibrated value under its stripped button label. */
  lemma KeptSurveyRow(row: SurveyRow)
    requires ClassifySurveyRow(row).Keep?
    ensures row.calibratedRssi.Present? && row.calibratedRssi.value.Some? && row.button.Present?
    ensures ClassifySurveyRow(row).item == Reading(Strip(row.button.value), row.calibratedRssi.value.value)
  {
  }

  /**
   * When the script gets through its rows, the groups, concatenated, are the
   * values of the well-formed rows in row order.
   */
  lemma GroupsHoldWellFormedValues(rows: seq<SurveyRow>)
    requires Segment(rows).Ok?
    ensures var flat := Flatten(Segment(rows).value);
      var idx := KeptIndices(rows, ClassifySurveyRow);
      && |flat| == |idx|
      && forall k :: 0 <= k < |idx| ==> idx[k] < |rows| && flat[k] == rows[idx[k]].calibratedRssi.value.value
  {
    var readings := Scan(rows, ClassifySurveyRow).value;
    var idx := KeptIndices(rows, ClassifySurveyRow);
    ScanKeepsInOrder(rows, ClassifySurveyRow);
    FlattenRuns(readings);
    forall k | 0 <= k < |idx|
      ensures idx[k] < |rows| && ReadingValues(readings)[k] == rows[idx[k]].calibratedRssi.value.value
    {
      KeptSurveyRow(rows[idx[k]]);
    }
  }

  /** The script produces no group exactly when no row is well-formed. */
  lemma NoGroupsIffNoWellFormedRow(rows: seq<SurveyRow>)
    requires Segment(rows).Ok?
    ensures Segment(rows).value == [] <==> KeptIndices(rows, ClassifySurveyRow) == []
  {
    ScanKeepsInOrder(rows, ClassifySurveyRow);
    RunCount(Scan(rows, ClassifySurveyRow).value);
  }

  /** A row dropped by the `except` clause could be deleted from the file without changing the groups. */
  lemma SkippedRowLeavesGroupsUnchanged(pre: seq<SurveyRow>, row: SurveyRow, post: seq<SurveyRow>)
    requires ClassifySurveyRow(row) == Skip
    ensures Segment(pre + [row] + post).Ok? == Segment(pre + post).Ok?
    ensures Segment(pre + [row] + post).Ok? ==> Segment(pre + [row] + post) == Segment(pre + post)
  {
    ScanIgnoresSkippedRow(pre, row, post, ClassifySurveyRow);
  }

  /** Without the `button` column every row is dropped, and the script ends with no groups at all. */
  lemma NoButtonColumnNoGroups(rows: seq<SurveyRow>)
    requires forall i :: 0 <= i < |rows| ==> rows[i].button.Absent? && !rows[i].calibratedRssi.Null?
    ensures Segment(rows) == Ok([])
  {
    ScanAllSkipped(rows, ClassifySurveyRow);
  }
}
