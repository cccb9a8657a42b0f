/**
 * Rows of a `csv.DictReader` as the survey scripts see them, and the
 * row-by-row loop every script runs over a file: the loop body either keeps a
 * row, skips it (an exception its `except` clause catches), or raises an
 * exception nobody catches, which ends the whole run.
 */
module CsvRows {

  datatype Option<T> = None | Some(value: T)

  datatype Result<T, E> = Ok(value: T) | Err(error: E)

  /**
   * One column of one row. `Absent`: the header has no such column, so
   * `row[key]` raises KeyError. `Null`: the header has it but the row is
   * shorter, so DictReader supplies None. `Present(v)`: the cell, already
   * interpreted as `v`.
   */
  datatype Field<T> = Absent | Null | Present(value: T)

  /** The exceptions the loop bodies can raise on a row. */
  datatype PyError = KeyError | TypeError | AttributeError

  /** The uncaught exception that ended a run, and the 0-based data row that raised it. */
  datatype Abort = Abort(row: nat, error: PyError)

  /** What one pass of a loop body does with one row. */
  datatype Verdict<T> = Keep(item: T) | Skip | Crash(error: PyError)

  /**
   * The list a loop builds by appending the kept items in row order, or the
   * exception that stopped it.
   */
  function Scan<R, T>(rows: seq<R>, verdict: R -> Verdict<T>): (r: Result<seq<T>, Abort>)
    ensures r.Ok? ==> |r.value| <= |rows|
    ensures r.Err? ==> r.error.row < |rows| && verdict(rows[r.error.row]) == Crash(r.error.error)
  {
    if |rows| == 0 then Ok([])
    else
      var n := |rows| - 1;
      ScanStep(Scan(rows[..n], verdict), verdict(rows[n]), n)
  }

  /** One more row, number `n`, through the loop body. */
  function ScanStep<T>(sofar: Result<seq<T>, Abort>, v: Verdict<T>, n: nat): Result<seq<T>, Abort>
  {
    match sofar
    case Err(e) => Err(e)
    case Ok(items) =>
      match v
      case Keep(x) => Ok(items + [x])
      case Skip => Ok(items)
      case Crash(error) => Err(Abort(n, error))
  }

  /** The loop after row `i` is the loop before it, plus one step. */
  lemma ScanPrefix<R, T>(rows: seq<R>, verdict: R -> Verdict<T>, i: nat)
    requires i < |rows|
    ensures Scan(rows[..i + 1], verdict) == ScanStep(Scan(rows[..i], verdict), verdict(rows[i]), i)
  {
    assert rows[..i + 1][..i] == rows[..i];
  }

  /** What one more row does to a loop that has got through the rows before it. */
  lemma ScanExtends<R, T>(rows: seq<R>, verdict: R -> Verdict<T>, i: nat, items: seq<T>)
    requires i < |rows| && Scan(rows[..i], verdict) == Ok(items)
    ensures verdict(rows[i]).Keep? ==> Scan(rows[..i + 1], verdict) == Ok(items + [verdict(rows[i]).item])
    ensures verdict(rows[i]).Skip? ==> Scan(rows[..i + 1], verdict) == Ok(items)
    ensures verdict(rows[i]).Crash? ==> Scan(rows[..i + 1], verdict) == Err(Abort(i, verdict(rows[i]).error))
  {
    ScanPrefix(rows, verdict, i);
  }

  /** The positions of the rows the loop body keeps, in increasing order. */
  function KeptIndices<R, T>(rows: seq<R>, verdict: R -> Verdict<T>): (idx: seq<nat>)
    ensures forall k :: 0 <= k < |idx| ==> idx[k] < |rows| && verdict(rows[idx[k]]).Keep?
    ensures forall k, l :: 0 <= k < l < |idx| ==> idx[k] < idx[l]
    ensures forall i :: 0 <= i < |rows| && verdict(rows[i]).Keep? ==> i in idx
  {
    if |rows| == 0 then []
    else
      var n := |rows| - 1;
      var earlier := KeptIndices(rows[..n], verdict);
      assert forall i :: 0 <= i < n ==> rows[..n][i] == rows[i];
      if verdict(rows[n]).Keep? then earlier + [n] else earlier
  }

  /** A non-empty sequence is its prefix followed by its last element. */
  lemma SplitLast<T>(s: seq<T>)
    requires |s| > 0
    ensures s == s[..|s| - 1] + [s[|s| - 1]]
  {
  }

  /** A run completes exactly when no row raises an uncaught exception. */
  lemma {:induction false} ScanOkIffNoCrash<R, T>(rows: seq<R>, verdict: R -> Verdict<T>)
    ensures Scan(rows, verdict).Ok? <==> forall j :: 0 <= j < |rows| ==> !verdict(rows[j]).Crash?
  {
    if |rows| > 0 {
      var n := |rows| - 1;
      ScanOkIffNoCrash(rows[..n], verdict);
      assert forall j :: 0 <= j < n ==> rows[..n][j] == rows[j];
    }
  }

  /** A run stops at the first row that raises an uncaught exception, and there only. */
  lemma {:induction false} ScanAbortsAtFirstCrash<R, T>(rows: seq<R>, verdict: R -> Verdict<T>, i: nat, error: PyError)
    ensures Scan(rows, verdict) == Err(Abort(i, error)) <==>
      && i < |rows|
      && verdict(rows[i]) == Crash(error)
      && forall j :: 0 <= j < i ==> !verdict(rows[j]).Crash?
  {
    if |rows| > 0 {
      var n := |rows| - 1;
      var prefix := rows[..n];
      assert forall j :: 0 <= j < n ==> prefix[j] == rows[j];
      ScanAbortsAtFirstCrash(prefix, verdict, i, error);
      ScanOkIffNoCrash(prefix, verdict);
    }
  }

  /** Once a prefix of the file has aborted, the rest of the file makes no difference. */
  lemma {:induction false} ScanAbortIsFinal<R, T>(rows: seq<R>, verdict: R -> Verdict<T>, k: nat)
    requires k <= |rows| && Scan(rows[..k], verdict).Err?
    ensures Scan(rows, verdict) == Scan(rows[..k], verdict)
    decreases |rows| - k
  {
    if k < |rows| {
      var n := |rows| - 1;
      assert rows[..n][..k] == rows[..k];
      ScanAbortIsFinal(rows[..n], verdict, k);
    } else {
      assert rows[..k] == rows;
    }
  }

  /** The kept items are the kept rows' items, one for one and in row order. */
  lemma {:induction false} ScanKeepsInOrder<R, T>(rows: seq<R>, verdict: R -> Verdict<T>)
    requires Scan(rows, verdict).Ok?
    ensures |Scan(rows, verdict).value| == |KeptIndices(rows, verdict)|
    ensures forall k :: 0 <= k < |KeptIndices(rows, verdict)| ==>
      Scan(rows, verdict).value[k] == verdict(rows[KeptIndices(rows, verdict)[k]]).item
  {
    if |rows| > 0 {
      var n := |rows| - 1;
      var p := rows[..n];
      ScanKeepsInOrder(p, verdict);
      assert forall j :: 0 <= j < n ==> p[j] == rows[j];
      var items := Scan(p, verdict).value;
      var idx := KeptIndices(p, verdict);
      if verdict(rows[n]).Keep? {
        assert Scan(rows, verdict).value == items + [verdict(rows[n]).item];
        assert KeptIndices(rows, verdict) == idx + [n];
      } else {
        assert Scan(rows, verdict).value == items;
        assert KeptIndices(rows, verdict) == idx;
      }
    }
  }

  /** A skipped row can be deleted from the file without changing what the run produces. */
  lemma {:induction false} ScanIgnoresSkippedRow<R, T>(pre: seq<R>, row: R, post: seq<R>, verdict: R -> Verdict<T>)
    requires verdict(row) == Skip
    ensures Scan(pre + [row] + post, verdict).Ok? == Scan(pre + post, verdict).Ok?
    ensures Scan(pre + [row] + post, verdict).Ok? ==>
      Scan(pre + [row] + post, verdict).value == Scan(pre + post, verdict).value
  {
    if |post| == 0 {
      assert pre + [row] + post == pre + [row];
      assert (pre + [row])[..|pre|] == pre;
      assert pre + post == pre;
    } else {
      var last := post[|post| - 1];
      var shorter := post[..|post| - 1];
      ScanIgnoresSkippedRow(pre, row, shorter, verdict);
      var with := pre + [row] + post;
      var without := pre + post;
      assert with[..|with| - 1] == pre + [row] + shorter;
      assert without[..|without| - 1] == pre + shorter;
      assert with[|with| - 1] == last && without[|without| - 1] == last;
    }
  }

  /** A file in which every row is skipped yields an empty list. */
  lemma {:induction false} ScanAllSkipped<R, T>(rows: seq<R>, verdict: R -> Verdict<T>)
    requires forall i :: 0 <= i < |rows| ==> verdict(rows[i]) == Skip
    ensures Scan(rows, verdict) == Ok([])
  {
    if |rows| > 0 {
      var n := |rows| - 1;
      assert forall j :: 0 <= j < n ==> rows[..n][j] == rows[j];
      ScanAllSkipped(rows[..n], verdict);
    }
  }
}
