# RSSI site survey, modelled in Dafny

This project models the offline part of a Wi-Fi/BLE site survey. A handheld
logger records received-signal-strength (RSSI) readings. The pipeline then
works in five steps:

- **Calibration.** `script.py` turns each raw reading into
  `1.57 * raw + 24.2` dBm. It skips rows whose `rssi` cell is not a number.
- **Grouping.** The averaging scripts (`Combined_Script.py` and its
  near-copy `Avg_Values_Heatmap_Builder.py`) cut the calibrated log into
  maximal runs of rows that carry the same `button` label. A label that
  comes back later opens a new group.
- **Averaging.** Each group is averaged.
- **Alignment and rasterisation.** The averages are paired with the
  clicked floor-plan coordinates, and each value is written into an
  all-zero grid the size of the floor plan.
- **Colouring.** Each value gets one of five colours.

The single-reading builder (`Heatmap_Builder.py`) pairs coordinates with
readings one to one and colours them on a slightly different scale.

The modules:

- `CsvRows` (csv_rows.dfy): the row-by-row loop shared by every script.
  - `csv.DictReader` cells are `Absent` (the column is missing, so KeyError), `Null` (the row is short, so None) or `Present`.
  - Each loop body keeps a row, skips it (an exception its `except` clause catches), or raises an exception nobody catches, which ends the run.
  - `Scan` is the reference definition of such a loop.
- `Calibration` (calibration.dfy): the calibration formula and the `script.py` loop.
- `Segmentation` (segmentation.dfy):
  - the grouping loop as an imperative method, proved equal to a recursive specification;
  - that specification proved to be the one and only cut of the stream into maximal same-label runs;
  - the properties of the groups: non-empty, flattening back to the well-formed values, and the group count.
- `Aggregation` (aggregation.dfy): the arithmetic mean per group, and its bounds.
- `Alignment` (alignment.dfy):
  - truncation to the shorter list and the length check, which never fires;
  - Python's `zip`;
  - the builder's strict equal-length pairing.
- `Raster` (raster.dfy): the grid-writing loop over an `array2`, proved against a last-write-wins specification.
- `ColorBands` (color_bands.dfy):
  - `rssi_to_color` and `get_color`, both proved to pick the colour of an independently defined band index;
  - how the two scales relate.
- `SurveyPipeline` (pipeline.dfy): the steps composed, and a worked survey.

RSSI values are exact `real`s, not IEEE doubles.

## Model

| member | source | states |
|---|---|---|
| `CsvRows.Scan` | script.py:12-19 | a finished loop keeps at most one item per row; an aborted loop names a row whose body raised exactly the reported exception |
| `CsvRows.ScanExtends` | Combined_Script.py:50-62 | one more row appends its item when kept, changes nothing when skipped, and ends the run at that row when it raises |
| `CsvRows.KeptIndices` | script.py:12-17 | the kept row positions are in range, strictly increasing, and include every row the body keeps |
| `CsvRows.ScanOkIffNoCrash` | script.py:13-18 | a loop runs to the end exactly when no row raises an uncaught exception |
| `CsvRows.ScanAbortsAtFirstCrash` | Combined_Script.py:48-62 | a loop aborts at row i with error e exactly when row i raises e and no earlier row raises anything uncaught |
| `CsvRows.ScanAbortIsFinal` | Avg_Values_Heatmap_Builder.py:22-36 | once a prefix of the file has aborted, the remaining rows change nothing |
| `CsvRows.ScanKeepsInOrder` | script.py:15-17 | the output has one item per kept row, and the k-th item comes from the k-th kept row |
| `CsvRows.ScanIgnoresSkippedRow` | Combined_Script.py:51-62 | deleting a skipped row from anywhere in the file changes neither whether the loop finishes nor what it produces |
| `CsvRows.ScanAllSkipped` | Avg_Values_Heatmap_Builder.py:24-36 | a file in which every row is skipped yields an empty list |
| `Calibration.Calibrate` | script.py:16 | the calibration can be undone: (calibrated - 24.2) / 1.57 gives back the raw reading (strict monotonicity in `Calibration.CalibrateStrictlyIncreasing`) |
| `Calibration.CalibrateRow` | script.py:13-19 | one loop pass: a row is skipped exactly when its `rssi` text does not parse (ValueError); it raises TypeError when the cell is None, KeyError when the `rssi` column is missing or when a parsing row lacks `timestamp`; otherwise it is kept (contents in `Calibration.KeptLogRow`) |
| `Calibration.CalibrateLog` | script.py:8-19 | the imperative loop filling `calibrated_data` returns exactly what the reference scan of its rows gives, abort included |
| `Calibration.CalibrateStrictlyIncreasing` | script.py:16 | a < b exactly when calibrate(a) < calibrate(b) |
| `Calibration.CalibrateExamples` | script.py:16 | -40 calibrates to -38.6, -42 to -41.74, and -90 to -117.1 |
| `Calibration.CalibrateLogAbortsIff` | script.py:13-18 | the script aborts exactly when some row lacks the `rssi` column, has None there, or parses but lacks the `timestamp` column; only ValueError is skipped |
| `Calibration.KeptLogRow` | script.py:14-17 | a kept row parses; its tuple holds the row's timestamp, the measured value, and 1.57 times that value plus 24.2 |
| `Calibration.CalibratedRowsAreParsedRows` | script.py:12-19 | when the script finishes: the output rows are exactly the rows whose rssi parses, in input order, with fields in header order (timestamp, measured, calibrated); the output length is the number of such rows and at most the input length |
| `Segmentation.IsSpaceAscii` | Combined_Script.py:53 | `IsSpace`, the set `str.strip()` removes: an ASCII character is in it exactly when it is one of space, \t, \n, \v, \f, \r or 0x1C-0x1F |
| `Segmentation.StripStart` | Combined_Script.py:53 | only leading whitespace is removed, and the result starts with a non-space |
| `Segmentation.StripEnd` | Combined_Script.py:53 | only trailing whitespace is removed, and the result ends with a non-space |
| `Segmentation.Strip` | Avg_Values_Heatmap_Builder.py:27 | the stripped label is the cell with an all-whitespace prefix and an all-whitespace suffix removed, and it neither starts nor ends with whitespace |
| `Segmentation.StripKeepsUnpadded` | Combined_Script.py:53 | a label without surrounding whitespace is unchanged |
| `Segmentation.StripIdempotent` | Combined_Script.py:53 | stripping twice equals stripping once |
| `Segmentation.ClassifySurveyRow` | Combined_Script.py:51-62 | one loop pass: a row is kept exactly when its value parses and it has a `button` cell; it raises the uncaught AttributeError exactly when the value cell is None, or the value parses and the button cell is None; every other row (ValueError, KeyError) is skipped (contents in `Segmentation.KeptSurveyRow`) |
| `Segmentation.LabelledRuns` | Combined_Script.py:54-60 | no more runs than readings; every run is non-empty; the last run carries the last reading's label |
| `Segmentation.Segment` | Combined_Script.py:44-64 | when the script gets through its rows, every group it appends is non-empty |
| `Segmentation.GroupingStepNewButton` | Combined_Script.py:54-58 | a well-formed row with a new label flushes a non-empty `current_group`, starts `[rssi]` and records the label, preserving the loop invariant |
| `Segmentation.GroupingStepSameButton` | Combined_Script.py:59-60 | a well-formed row with the current label extends `current_group`, preserving the loop invariant |
| `Segmentation.GroupingFlush` | Combined_Script.py:63-64 | the flush after the loop yields exactly the runs of all well-formed rows |
| `Segmentation.GroupRows` | Avg_Values_Heatmap_Builder.py:17-38 | the imperative grouping loop returns exactly the reference segmentation of its rows, including the abort on an uncaught exception |
| `Segmentation.ExpandLabelledRuns` | Combined_Script.py:54-60 | reading the runs back in order gives the stream of well-formed readings |
| `Segmentation.LabelledRunsNeighboursDiffer` | Avg_Values_Heatmap_Builder.py:28-32 | consecutive groups have different labels |
| `Segmentation.LabelledRunsAreMaximal` | Combined_Script.py:54-60 | the grouping is a cut into non-empty, same-label runs whose neighbours differ in label |
| `Segmentation.RunDecompositionIsUnique` | Avg_Values_Heatmap_Builder.py:28-34 | any cut of the stream into maximal same-label runs is the grouping's; splitting on label change is the only possible result |
| `Segmentation.FlattenRuns` | Combined_Script.py:50-64 | concatenating the groups in order gives every well-formed value in stream order |
| `Segmentation.RunCount` | Combined_Script.py:54-64 | no well-formed readings give no groups; otherwise the group count is 1 plus the number of label changes between consecutive readings |
| `Segmentation.RecurringLabelOpensNewGroup` | Combined_Script.py:54-58 | the stream A, A, B, B, A gives groups of 2, 2 and 1 values: a recurring label opens a new group |
| `Segmentation.KeptSurveyRow` | Combined_Script.py:52-53 | a kept row has a button cell and a parsed value, and contributes its stripped label and that value |
| `Segmentation.GroupsHoldWellFormedValues` | Avg_Values_Heatmap_Builder.py:22-38 | when the script gets through its rows, the flattened groups are exactly the values of the well-formed rows, in row order |
| `Segmentation.NoGroupsIffNoWellFormedRow` | Combined_Script.py:44-64 | `groups` ends empty exactly when no row is well-formed |
| `Segmentation.SkippedRowLeavesGroupsUnchanged` | Avg_Values_Heatmap_Builder.py:25-36 | a row dropped by the ValueError/KeyError clause can be removed without changing whether the script finishes or the groups it builds |
| `Segmentation.NoButtonColumnNoGroups` | Combined_Script.py:53-62 | if no row has a `button` column and no value cell is None, the script ends with no groups |
| `Aggregation.Mean` | Combined_Script.py:66 | `statistics.mean` of a non-empty group: the mean times the group's length is the group's sum |
| `Aggregation.SumAtLeast` | Avg_Values_Heatmap_Builder.py:47 | a group whose values are all at least lo sums to at least its length times lo |
| `Aggregation.SumAtMost` | Avg_Values_Heatmap_Builder.py:47 | a group whose values are all at most hi sums to at most its length times hi |
| `Aggregation.MeanWithinRange` | Combined_Script.py:66 | the mean of a group lies between its smallest and largest value (`Least` and `Greatest`, each proved to be one of the group's values and a lower, respectively upper, bound of all of them) |
| `Aggregation.MeanOfConstantGroup` | Avg_Values_Heatmap_Builder.py:47 | the mean of a group of equal readings is that reading |
| `Aggregation.Averages` | Combined_Script.py:66 | one average per group, in group order, each the group's sum divided by its length |
| `Aggregation.AveragesWithinGroupRange` | Avg_Values_Heatmap_Builder.py:47 | every average lies within the range of its own group |
| `Aggregation.MeanExample` | Combined_Script.py:66 | readings -60 and -70 average to -65 |
| `Alignment.Truncate` | Combined_Script.py:75-77 | both lists get length min(len(locations), len(averaged_rssi)), are prefixes of the originals, and one of them is kept whole |
| `Alignment.CheckCounts` | Heatmap_Builder.py:26-27 | the check passes exactly when the lengths are equal, and otherwise raises the fixed-message mismatch error |
| `Alignment.Zip` | Combined_Script.py:88 | `zip` stops at the shorter list and pairs the i-th coordinate with the i-th value |
| `Alignment.ZipThenUnzip` | Heatmap_Builder.py:48 | zipping equal-length lists loses nothing: both lists come back unchanged |
| `Alignment.UnzipThenZip` | Heatmap_Builder.py:48 | every list of samples is the zip of its coordinates and values |
| `Alignment.ZipOfTruncation` | Avg_Values_Heatmap_Builder.py:65-67 | truncating both lists first does not change what `zip` pairs |
| `Alignment.Align` | Avg_Values_Heatmap_Builder.py:65-76 | truncate, check and zip never raises the mismatch error, and pairs exactly what `zip` of the original lists pairs, min(len) samples |
| `Alignment.PairExactly` | Heatmap_Builder.py:26-27 | no truncation: a mismatch error exactly when the lengths differ; otherwise coordinates and values paired position by position, with nothing lost |
| `Raster.Rasterize` | Combined_Script.py:86-90 | the grid is height by width, and every cell holds the value of the last sample placed at that (x, y), or 0 |
| `Raster.LastWrite` | Combined_Script.py:86-90 | the reference grid cell: either 0 or the value of some sample placed on that cell (which one: `Raster.LastWriteIsLatest`) |
| `Raster.LastWriteStep` | Avg_Values_Heatmap_Builder.py:87-88 | one more sample overwrites its own cell and leaves every other cell as it was |
| `Raster.LastWriteUntouched` | Combined_Script.py:86 | a cell on which no sample landed stays 0 |
| `Raster.LastWriteIsLatest` | Avg_Values_Heatmap_Builder.py:85-88 | a cell holds the value of the last sample placed on it |
| `Raster.OutOfBoundsSampleIgnored` | Combined_Script.py:89-90 | removing an out-of-bounds sample from anywhere in the list changes no cell of the grid |
| `Raster.LaterSampleWins` | Avg_Values_Heatmap_Builder.py:88 | two samples on cell (3, 4): the later value stays; cell (4, 3), row 3 column 4, stays 0, so row is y and column is x |
| `ColorBands.Band` | Combined_Script.py:96-104 | a reading's band on the averaging scale is one of five, counted as the number of thresholds -65, -75, -85, -95 it is at or below |
| `ColorBands.BuilderBand` | Heatmap_Builder.py:31-38 | one of five bands on the builder scale, where -65 itself counts as above the first threshold |
| `ColorBands.RssiToColor` | Combined_Script.py:95-105 | returns the palette colour of the reading's band and no other palette colour: total and exclusive |
| `ColorBands.GetColor` | Heatmap_Builder.py:30-40 | returns the builder palette colour of the reading's builder band and no other: total and exclusive |
| `ColorBands.BandsMonotone` | Avg_Values_Heatmap_Builder.py:96-106 | a stronger reading never gets a weaker band, on either scale |
| `ColorBands.BandIntervals` | Avg_Values_Heatmap_Builder.py:97-105 | band k holds exactly the readings between its two thresholds: above -65, (-75, -65], (-85, -75], (-95, -85], and at or below -95 |
| `ColorBands.ClassifiersAgreeExceptAtMinus65` | Heatmap_Builder.py:31-34 | the two scales give the same band exactly when the reading is not -65; at -65 the averaging scale says band 1 and the builder says band 0 |
| `ColorBands.AverageBoundaries` | Avg_Values_Heatmap_Builder.py:98-106 | the thresholds fall in the weaker band: -65 gives aquamarine, -75 gold, -85 light red, -95 bright red |
| `ColorBands.BuilderBoundaries` | Heatmap_Builder.py:35-40 | -65 gives the strongest colour, -75 yellow and -85 pink; -95 and below give red |
| `SurveyPipeline.AlignedSamples` | Combined_Script.py:66-80 | only a row can stop the averaging scripts before plotting; otherwise sample i is coordinate i with the mean of group i, min(len) of them |
| `SurveyPipeline.BuildHeatmap` | Avg_Values_Heatmap_Builder.py:17-88 | grouping, averaging, alignment and rasterisation together: fails only as the rows do, otherwise gives a newly allocated height by width grid of last writes of the aligned samples, as `np.zeros` creates a new array |
| `SurveyPipeline.BuilderPoints` | Heatmap_Builder.py:48-50 | each coordinate is paired by position with the colour of exactly one raw value; nothing is grouped or averaged; unequal lengths are an error |
| `SurveyPipeline.AsSurveyRow` | script.py:24 | a calibration output row, read back by an averaging script, has no `button` column, so the KeyError at `row["button"]` is caught and the row is skipped |
| `SurveyPipeline.CalibrationOutputGivesNoSamples` | Combined_Script.py:53 | fed the calibration script's own output, an averaging script builds no group and places no sample |
| `SurveyPipeline.WorkedReadings` | Combined_Script.py:50-53 | the three worked rows parse to P1 -38.6, P1 -41.74 and P2 -117.1 |
| `SurveyPipeline.TwoRuns` | Combined_Script.py:54-64 | two readings under one label followed by one under another give a group of two and a group of one |
| `SurveyPipeline.WorkedSurvey` | Combined_Script.py:66-112 | raw -40, -42 at P1 and -90 at P2, placed at (10, 10) and (20, 20), give -40.17 drawn green and -117.1 drawn red |

## Left out

- The interactive coordinate picker is not part of this model. That is `Pixel_Coordinate_Finder.py` and the click handler at `Combined_Script.py:14-39`. The coordinates are an input.
- File and image I/O is not modelled:
  - opening files and `csv.DictReader`/`csv.writer`;
  - the loops that read `locations.csv` through `int(row["x"])`;
  - the `float(row["calibrated_rssi"])` loading loop of `Heatmap_Builder.py:19-23`;
  - `mpimg.imread`.

  Rows arrive as already-interpreted cells, coordinates and raw values as lists, and the grid size as two numbers.
- A cell's text and its parse are abstracted away. `float(text)` becomes `Option<real>`, with None where Python raises ValueError. Texts such as `nan` or `inf`, which Python parses, are not represented.
- IEEE double rounding is not modelled. `1.57 * raw + 24.2` and `statistics.mean` are computed over exact reals. `Calibration.CalibrateExamples` states the exact values, e.g. -41.74 for -42.
- `gaussian_filter(heatmap, sigma=20)` is left out. It is a floating-point convolution from a library. The grid is modelled up to the point just before smoothing.
- Plotting is left out: scatter calls, heat-map overlay, legends, titles and `print` diagnostics. Only the colour choice is kept.
  - The legends label the weakest band "< -95". Both classifiers in fact give bright red at exactly -95 (`ColorBands.AverageBoundaries`, `ColorBands.BuilderBoundaries`). The model follows the code.
- `int(x), int(y)` at `Avg_Values_Heatmap_Builder.py:86` is not modelled separately. Coordinates are already integers there, so it changes nothing.
- `Segmentation.GroupRows` keeps its lists as Dafny sequences. It does not model Python list aliasing: `current_group` is appended to `groups` and then rebound, never mutated afterwards, so no aliasing is observable.
