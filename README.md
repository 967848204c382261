# PocketSolar and ViyLine: a Dafny model of the curve and sweep core

PocketSolar and ViyLine are small Rust desktop tools. They measure the
current-voltage (I-V) curve of a solar panel and fit the diode model
I(V) = A - B*exp(C*V) to it. They also look for the maximum power point
(MPP) and export the curve as CSV text. This project models the sequential
core of those tools in Dafny and proves what each part promises.

The core has these parts:

- **The streaming curve** (`PocketSolar/SolarCurve.rs`, module `SolarCurve`):
  - parsing one serial text line `"voltage,current,dutyCycle"`, with Rust's
    `trim` and `split` (module `Text`);
  - rejecting lines with the wrong field count and noise lines;
  - calibrating a reading and pushing it into a bounded window, evicting from
    the front;
  - the NaN reset, the four-pass stabilised fit and the guarded MPP search
    that follow every accepted line.
- **The three batch curves:**
  - `PocketSolar/IVCurve.rs` (module `IVCurve`), with `steps` passes;
  - `ViyLine/Curve.rs` (module `ViyLineCurve`), with 49 passes;
  - `ViyLine.rs` (module `ViyLinePrototype`), the same fit with the exponent
    named `k` and a `clear` that keeps the model.

  What the batch curves share lives in module `Regression`:
  - the model and its power curve;
  - the least-squares line;
  - one pass of the alternating fit;
  - the "sort a copy, take its ends" extremes.
- **The MPP line search** (module `Search`): from 0 V, step 0.01 V while the
  power strictly rises.
  - The guarded version, which gives up past 1000 V, is proved to terminate,
    with bounds.
  - The unguarded version is modelled with a step budget, and a lemma shows a
    model on which it never stops.
- **The ViyLine "Measure" sweep** (`ViyLine/GUI.rs:31-83`, modules
  `ViyLineLink` and `ViyLineGui`). This is the byte protocol with the
  microcontroller:
  - a delta-T byte per pass;
  - polling until `0xFF`;
  - 20 points of four bytes per pass, each byte requested with `0x01`;
  - the outcomes completed, aborted (a read error while polling), panicked
    (an `unwrap` of a failed read) and stalled (a poll that never ends).
- **The CSV exports**, with rows modelled as tuples:
  - the analytic and raw exports of `PocketSolar/Window.rs` (module `Window`);
  - the export of `ViyLine/GUI.rs`;
  - the export of `ViyLine.rs`.

  Each writes rows until the first negative current, that row included.

### How the model represents things

**Numbers.** An `f64` is a `Float.F64`: a finite number kept exactly as a
`real`, or NaN. Arithmetic is exact, and NaN absorbs every operation. A
division by zero gives NaN, and ordered comparisons with NaN are false.

**Library functions.** `exp` and `ln` are not interpreted: every operation
that needs them takes a `Math` value holding the two functions. Rust's
`str::parse::<f64>` is likewise a parameter.

**Objects.** Each Rust struct whose fields the program updates is a Dafny
`class` with those fields, and its methods state the whole new state. Each
method is tied to a specification function (`SolarFit`, `Fit`, `Sweep`,
`Export`, ...), and the properties of the source are lemmas about those
functions.

**The link.** The link to the microcontroller is a `ViyLineLink.Link` object
with three parts:
- the replies it gives, one per read and without end (a function from the
  read count to a byte or a read error);
- how many of them have been read;
- every byte written so far.

The synchronisation poll of `ViyLine/GUI.rs:53-63` has no bound, so the model
runs it with a budget of reads. A poll still running when the budget is used
up ends the sweep as "stalled", the state in which the source never returns.

### Where the code differs from the intended behaviour

The model follows the code:

- `ViyLine/GUI.rs:74-75` scales the voltage by `Ki` and the current by `Kv`,
  with no 5 V factor (`ViyLineLink.Decode`).
- `ViyLine/GUI.rs:82` runs `calculateRegression` after an aborted sweep too.
  Only a panic skips it, because the whole handler then unwinds
  (`ViyLineGui.ViyLineApp.Measure`).
- The exports of `PocketSolar/Window.rs` and `ViyLine/GUI.rs` write the final
  negative-current row, and write it with |I|. The export of `ViyLine.rs`
  writes the signed current.
- What `PocketSolar/SolarCurve.rs:129-130` calls `maxY` is the mean current
  of the points below 20% of the highest voltage, not a maximum
  (`SolarCurve.BaselineIsAMean`). With a single point it is 0/0, that is NaN
  (`SolarCurve.LonePointFitIsNaN`).
- `minMaxX`/`minMaxY` of the streaming curve seed both extremes with 0.0, so
  the minimum is at most 0 and the maximum at least 0 whatever the values.
- `for _ in 1..50` runs 49 passes, and `for _ in 1..20` runs 19 regressions
  before a ViyLine export.

## Model

| member | source | states |
|---|---|---|
| Text.TrimStart | PocketSolar/SolarCurve.rs:79 | the result is a suffix of the input, everything it drops is white space, and it does not start with white space |
| Text.TrimEnd | PocketSolar/SolarCurve.rs:79 | the result is a prefix of the input, everything it drops is white space, and it does not end with white space |
| Text.TrimIdempotent | PocketSolar/SolarCurve.rs:79 | trimming a trimmed line changes nothing |
| Text.TrimNoop | PocketSolar/SolarCurve.rs:79 | a line with no white space at either end is its own trim |
| Text.Split | PocketSolar/SolarCurve.rs:79 | a split gives one more piece than there are separators, and no piece contains the separator |
| Text.JoinSplit | PocketSolar/SolarCurve.rs:79 | splitting loses nothing: joining the pieces with the separator gives the line back |
| Text.SplitPlain | PocketSolar/SolarCurve.rs:79 | a piece with no separator in it splits into itself alone |
| Text.SplitAfterPiece | PocketSolar/SolarCurve.rs:79 | splitting `f + sep + t` gives the piece `f`, then the pieces of `t` |
| Text.SplitJoin | PocketSolar/SolarCurve.rs:79 | splitting inverts joining, for pieces that contain no separator |
| SolarCurve.Fields | PocketSolar/SolarCurve.rs:79 | a line gives one number per comma-separated piece of its trimmed text: the number of commas plus one |
| SolarCurve.Classify | PocketSolar/SolarCurve.rs:79-85 | a line has the wrong field count exactly when its trimmed text does not hold two commas; a noise line has raw V + raw I below 0.2; a reading carries the three parsed fields, with raw V + raw I at least 0.2 |
| SolarCurve.ReadsBackRecord | PocketSolar/SolarCurve.rs:79 | the line "v,i,d" (no comma in a piece, no white space at its two ends) is read as exactly the three parsed pieces, each one that fails to parse as 0.0 |
| SolarCurve.Evicted | PocketSolar/SolarCurve.rs:96-101 | the window keeps min(length, maxPoints) elements, and they are the newest ones, in order |
| SolarCurve.PushThenEvict | PocketSolar/SolarCurve.rs:96-101 | after push and evict the window holds at most maxPoints; its last element is the new measurement once maxPoints >= 1; nothing is dropped while there is room; otherwise it is the newest maxPoints - 1 old ones followed by the new one |
| SolarCurve.EvictionDropsOldest | PocketSolar/SolarCurve.rs:99-101 | evicting from maxPoints + k elements removes exactly the k oldest and keeps the rest in order and unchanged |
| SolarCurve.EvictFront | PocketSolar/SolarCurve.rs:99-100 | removing the front element of an overfull window does not change what eviction keeps (the invariant of the eviction loop) |
| SolarCurve.SeededMax | PocketSolar/SolarCurve.rs:208-215 | the running maximum seeded with 0.0 is at least 0, at least every value, and is 0 or one of the values |
| SolarCurve.SeededMin | PocketSolar/SolarCurve.rs:208-215 | the running minimum seeded with 0.0 is at most 0, at most every value, and is 0 or one of the values |
| SolarCurve.CurrentsBelow | PocketSolar/SolarCurve.rs:129 | the filtered currents are no more than the points |
| SolarCurve.CurrentsBelowExact | PocketSolar/SolarCurve.rs:129 | the filter keeps exactly the currents of the points below the voltage bound: each one kept belongs to such a point, and each such point's current is kept |
| SolarCurve.BaselineIsAMean | PocketSolar/SolarCurve.rs:129-130 | "maxY" is a mean, not a maximum: for (0 V, a), (0 V, b), (10 V, 0 A) with 0 <= a < b it is (a + b)/2, below the largest current b |
| SolarCurve.LonePointHasNoBaseline | PocketSolar/SolarCurve.rs:129-130 | a single point at a positive voltage is not below a fifth of itself, so "maxY" is 0/0, NaN |
| SolarCurve.SolarFit | PocketSolar/SolarCurve.rs:121-167 | the fit of an empty window leaves A, B and C as they were |
| SolarCurve.SolarPassSetsA | PocketSolar/SolarCurve.rs:134-140 | each pass sets A to the baseline plus the B it starts with, shrunk by 0.8 or not |
| SolarCurve.LonePointFitIsNaN | PocketSolar/SolarCurve.rs:124-140 | fitting a single point at a positive voltage leaves A as NaN |
| SolarCurve.Restart | PocketSolar/SolarCurve.rs:113-115 | after the reset no coefficient is NaN, and a model without NaN is kept as it is |
| SolarCurve.SolarCurve.constructor | PocketSolar/SolarCurve.rs:12-39 | the defaults: room for 100 points, Ki = Kv = 1, A = C = 0, B = 1, MPP at 0 V |
| SolarCurve.SolarCurve.PowerAtVoltage | PocketSolar/SolarCurve.rs:183-185 | the power is the curve the MPP search climbs; it is V times the current when that is a number, and NaN for a model with a NaN |
| SolarCurve.SolarCurve.MinMaxX | PocketSolar/SolarCurve.rs:208-216 | None exactly on an empty window; otherwise the voltage extremes seeded with 0.0, which bound every point's voltage |
| SolarCurve.SolarCurve.MinMaxY | PocketSolar/SolarCurve.rs:197-205 | None exactly on an empty window; otherwise the current extremes seeded with 0.0, which bound every point's current |
| SolarCurve.SolarCurve.CalculateCoefficients | PocketSolar/SolarCurve.rs:121-167 | the new model is the four-pass stabilised fit of the window from the old model, and no change on an empty window |
| SolarCurve.SolarCurve.RunPasses | PocketSolar/SolarCurve.rs:133-165 | the loop leaves the model `n` stabilised passes on from where it started |
| SolarCurve.SolarCurve.Baseline | PocketSolar/SolarCurve.rs:125-130 | maxVoltage is the seeded maximum voltage; "maxY" is the mean current of the points below a fifth of it |
| SolarCurve.SolarCurve.StabilisedPass | PocketSolar/SolarCurve.rs:133-165 | the loop body moves the model exactly one stabilised pass on |
| SolarCurve.SolarCurve.RefitStep | PocketSolar/SolarCurve.rs:139-164 | A is set to the baseline plus B, then B and C come from the regression, damped by 0.40 and rescaled by 0.96 |
| SolarCurve.SolarCurve.CalculateMPP | PocketSolar/SolarCurve.rs:170-180 | MPPVoltage is where the guarded climb over the model's power curve stops |
| SolarCurve.SolarCurve.Update | PocketSolar/SolarCurve.rs:112-118 | the model is the fit from the NaN-reset old model, and MPPVoltage is the guarded climb on the new model |
| SolarCurve.SolarCurve.ClearRegression | PocketSolar/SolarCurve.rs:218-222 | (A, B, C) becomes (0, 1, 0) |
| SolarCurve.SolarCurve.Clear | PocketSolar/SolarCurve.rs:225-228 | the window is empty and (A, B, C) is (0, 1, 0) |
| SolarCurve.SolarCurve.IngestLine | PocketSolar/SolarCurve.rs:78-104 | the verdict is that of the line; a rejected or noise line leaves the window, the model and the MPP unchanged; a reading is calibrated, pushed and evicted, and then the model is refitted and the MPP searched |
| SolarCurve.SolarCurve.Accept | PocketSolar/SolarCurve.rs:96-104 | the window gets the measurement with eviction, then the model and MPP are updated as `update` does |
| SolarCurve.SolarCurve.Push | PocketSolar/SolarCurve.rs:96-101 | the window becomes the old window plus the measurement, cut from the front to maxPoints |
| Search.GuardedClimb | PocketSolar/SolarCurve.rs:170-180 | the guarded climb ends within the 100001 steps up to just past 1000 V; the power strictly rose at every step taken; below the ceiling it stops where the power no longer rises |
| Search.GuardedSearchOutcome | PocketSolar/SolarCurve.rs:170-180 | the MPP voltage is a whole number of 0.01 steps between 0 and 1000.01, and at or below 1000 V the power one step further is not higher |
| Search.GuardedSearch | PocketSolar/SolarCurve.rs:170-180 | the loop terminates and returns the voltage of the guarded climb |
| Search.Climb | PocketSolar/IVCurve.rs:81-88 | within its step budget the unguarded climb only takes rising steps, and it stops early only where the power does not rise |
| Search.UnguardedSearch | PocketSolar/IVCurve.rs:81-88 | the loop returns the voltage of the budgeted climb, and `finished` holds exactly when the source's loop would have returned there |
| Search.UnguardedSearchOutcome | PocketSolar/IVCurve.rs:85-87 | where the unguarded search returns, the voltage is non-negative and the power one 0.01 V step further is not higher |
| Search.ClimbAgreesBelowCeiling | PocketSolar/IVCurve.rs:81-88 | when the guarded search stops below the ceiling, the unguarded search given enough steps stops at the same voltage |
| Search.ClimbNeverStopsOnRisingPower | PocketSolar/IVCurve.rs:85-87 | on a power curve that rises at every step, the unguarded search uses up any step budget: it does not terminate |
| Search.RowsWritten | PocketSolar/Window.rs:76-81 | an export loop writes at most `limit` rows, every row before the last has a non-negative current, and it stops early only right after a negative current |
| Search.RowsStopAtFirstNegative | PocketSolar/Window.rs:80 | a negative current at row j, after non-negative ones only, makes row j the last row |
| Search.RowsRunToLimit | PocketSolar/Window.rs:76-81 | when no current is negative, every row up to the limit is written |
| Regression.CurrentAt | PocketSolar/SolarCurve.rs:188-190 | the model current A - B*exp(C*V) shared by every curve (also `IVCurve.rs:96-98`, `ViyLine/Curve.rs:65-67`, `ViyLine.rs:75-77`): a NaN in the model or the voltage gives NaN; at 0 V (with exp(0) = 1) it is A - B |
| Regression.OpenCircuitVoltage | PocketSolar/Window.rs:72 | the open-circuit voltage ln(A/B)/C is NaN for a model with a NaN |
| Regression.NaNModelIsNaNEverywhere | PocketSolar/SolarCurve.rs:183-190 | a NaN in the model makes every current and every power NaN |
| Regression.CurrentAtZeroVolts | PocketSolar/SolarCurve.rs:135 | at 0 V the model gives A - B, provided exp(0) = 1 |
| Regression.ClearedStreamingPower | PocketSolar/SolarCurve.rs:218-222 | the cleared streaming model draws -1 A at every voltage, so its power at V is -V |
| Regression.FlatModelCurrent | PocketSolar/SolarCurve.rs:188-190 | a model with C = 0 draws A - B at every voltage |
| Regression.ClearedModelPowerFalls | PocketSolar/SolarCurve.rs:174 | on the cleared streaming model the power falls from the first step |
| Regression.FlatModelPowerFalls | PocketSolar/SolarCurve.rs:174 | with C = 0 and A < B the power falls at every step of the search grid |
| Regression.ClearedModelHasMppAtZero | PocketSolar/SolarCurve.rs:170-180 | the guarded MPP search on the cleared streaming model stays at 0 V |
| Regression.NaNModelHasMppAtZero | PocketSolar/SolarCurve.rs:170-180 | the guarded MPP search on a model with a NaN stays at 0 V, since `>` is false on NaN |
| Regression.SinglePointHasNoSlope | PocketSolar/IVCurve.rs:69 | the regression through a single point has a NaN slope (0/0) |
| Regression.BatchPassesLastA | PocketSolar/IVCurve.rs:53-55 | every pass sets A to maxY plus the B left by the pass before |
| Regression.BatchPassesForgetAC | PocketSolar/IVCurve.rs:53-76 | after at least one pass the result depends on the starting B only, because A and C are overwritten before they are read |
| Regression.BatchFit | PocketSolar/IVCurve.rs:41-78 | the fit of an empty curve leaves the model unchanged |
| Regression.BatchFitWithoutPasses | PocketSolar/IVCurve.rs:44-53 | with no passes a non-empty curve only gets its B seeded |
| Regression.BatchFitLastA | PocketSolar/IVCurve.rs:50-55 | the last pass sets A to a current of the curve that is at least every current, plus the B of the pass before |
| Regression.FitAfterClearStartsAtHalf | PocketSolar/IVCurve.rs:47 | after `clearRegression` the fit runs as if it started from B = 0.5, whatever A and C are |
| Regression.InsertKeepsValues | PocketSolar/IVCurve.rs:104 | inserting into the sorted copy adds exactly the one value |
| Regression.InsertKeepsOrder | PocketSolar/IVCurve.rs:104 | inserting into an ascending sequence keeps it ascending |
| Regression.SortedCopy | PocketSolar/IVCurve.rs:103-104 | the sorted copy is ascending and a permutation of the values |
| Regression.SortedEnds | PocketSolar/IVCurve.rs:104-106 | the ends of an ascending permutation are values of the curve that bound all of them |
| Regression.MinMaxBySort | PocketSolar/IVCurve.rs:101-108 | None exactly for no values; otherwise the least and the greatest value, both of them values of the curve |
| IVCurve.Fit | PocketSolar/IVCurve.rs:41-78 | `calculateCoefficients` on an empty curve changes nothing |
| IVCurve.NoStepsOnlySeeds | PocketSolar/IVCurve.rs:47-53 | with steps <= 0 a non-empty curve only gets its B seeded |
| IVCurve.ClearedFitStartsAtHalf | PocketSolar/IVCurve.rs:47-55 | with at least one step, the fit after `clearRegression` equals the fit from B = 0.5 with any A and C |
| IVCurve.IVCurve.constructor | PocketSolar/IVCurve.rs:10-22 | the derived default: no points, A = B = C = 0, MPP at 0 V |
| IVCurve.IVCurve.PowerAtVoltage | PocketSolar/IVCurve.rs:91-93 | the power is the curve the MPP search climbs, NaN for a model with a NaN |
| IVCurve.IVCurve.MinMaxY | PocketSolar/IVCurve.rs:101-108 | None exactly on no points; otherwise the smallest and the largest current, both currents of the curve |
| IVCurve.IVCurve.CalculateCoefficients | PocketSolar/IVCurve.rs:41-78 | the new model is the batch fit with max(steps, 0) passes from the old model |
| IVCurve.IVCurve.RunPasses | PocketSolar/IVCurve.rs:53-76 | the loop moves the model `n` batch passes on |
| IVCurve.IVCurve.FitPass | PocketSolar/IVCurve.rs:55-75 | the loop body moves the model exactly one batch pass on |
| IVCurve.IVCurve.CalculateMPP | PocketSolar/IVCurve.rs:81-88 | MPPVoltage is where the budgeted unguarded climb stops; `finished` says whether the source's loop stops there |
| IVCurve.IVCurve.ClearRegression | PocketSolar/IVCurve.rs:110-114 | (A, B, C) becomes (0, 0, 0) |
| IVCurve.IVCurve.Clear | PocketSolar/IVCurve.rs:117-120 | no points, and (A, B, C) is (0, 0, 0) |
| IVCurve.IVCurve.AddPoint | PocketSolar/IVCurve.rs:122-124 | one point is appended at the end, and the earlier points are unchanged |
| IVCurve.ConstantCurrentNeverSettles | PocketSolar/IVCurve.rs:85-87 | on the model A = 1, B = C = 0 the power rises at every step, so the unguarded search never returns |
| IVCurve.NaNModelSettlesAtZero | PocketSolar/IVCurve.rs:85-87 | on a model with a NaN the unguarded search returns at 0 V at once |
| IVCurve.PocketSolarApp.UpdateSolarPanelCurve | PocketSolar/IVCurve.rs:27-35 | a cleared model only if the recalculate flag is set, then the fit with `regressionSteps`, then the MPP search on the new model |
| ViyLineCurve.ExtremesOfY | ViyLine/Curve.rs:70-77 | None exactly on no points; otherwise the least and the greatest y, both values of the curve |
| ViyLineCurve.Fit | ViyLine/Curve.rs:24-62 | the fit of an empty curve leaves the model unchanged |
| ViyLineCurve.FitEndsWithMaxYPlusB | ViyLine/Curve.rs:33-39 | the 49th pass sets A to the largest y plus the B of the 48 passes before it |
| ViyLineCurve.ClearedFitStartsAtHalf | ViyLine/Curve.rs:30 | after `clear` the fit equals the fit from B = 0.5 with any A and C |
| ViyLineCurve.Curve.constructor | ViyLine/Curve.rs:11-20 | the derived default: no points, A = B = C = 0 |
| ViyLineCurve.Curve.MinMaxY | ViyLine/Curve.rs:70-77 | None exactly on no points; otherwise the smallest and the largest y, both y values of the curve |
| ViyLineCurve.Curve.CalculateCoefficients | ViyLine/Curve.rs:24-62 | the new model is the 49-pass batch fit from the old model |
| ViyLineCurve.Curve.RunPasses | ViyLine/Curve.rs:36-60 | the loop moves the model `n` batch passes on |
| ViyLineCurve.Curve.FitPass | ViyLine/Curve.rs:38-59 | the loop body moves the model exactly one batch pass on |
| ViyLineCurve.Curve.Clear | ViyLine/Curve.rs:80-85 | no points, and A = B = C = 0 |
| ViyLineCurve.Curve.AddPoint | ViyLine/Curve.rs:87-89 | one point is appended at the end, and the earlier points are unchanged |
| ViyLinePrototype.Curve.constructor | ViyLine.rs:23-31 | the derived default: no points, k = A = B = 0 |
| ViyLinePrototype.Curve.Clone | ViyLine.rs:153 | the copy has the same points and the same model |
| ViyLinePrototype.Curve.MinMaxY | ViyLine.rs:80-87 | None exactly on no points; otherwise the smallest and the largest y, both y values of the curve |
| ViyLinePrototype.Curve.CalculateCoefficients | ViyLine.rs:35-72 | the new model is the 49-pass batch fit from the old model, with k in the place of C |
| ViyLinePrototype.Curve.RunPasses | ViyLine.rs:47-70 | the loop moves the model `n` batch passes on |
| ViyLinePrototype.Curve.FitPass | ViyLine.rs:49-69 | the loop body moves the model exactly one batch pass on, ending with k and B set |
| ViyLinePrototype.Curve.Clear | ViyLine.rs:90-92 | no points; k, A and B keep their values |
| ViyLinePrototype.Curve.AddPoint | ViyLine.rs:94-96 | one point is appended at the end, and the earlier points are unchanged |
| ViyLinePrototype.ExportEndsAtFirstNegative | ViyLine.rs:191 | a negative current at row j, after non-negative ones only, makes row j the last row, included |
| ViyLinePrototype.NaNModelExportNeverEnds | ViyLine.rs:186-192 | a model with a NaN never gives a negative current, so the export loop never ends and uses up any row budget |
| ViyLinePrototype.ViyLineApp.constructor | ViyLine.rs:126-144 | a new default curve (no points, k = A = B = 0), an export every 0.5 V, the export window hidden, nothing exported yet |
| ViyLinePrototype.ViyLineApp.ToggleExportWindow | ViyLine.rs:173-175 | the export window is shown or hidden, the opposite of before |
| ViyLinePrototype.ViyLineApp.ExportCsv | ViyLine.rs:182-193 | the text is the export of a freshly fitted copy of the curve; `stopped` holds exactly when the last row has a negative current |
| ViyLinePrototype.ViyLineApp.WriteRows | ViyLine.rs:183-192 | the loop writes the header and the rows of the export, breaking right after the first negative current |
| Window.AnalyticStopsAtFirstNegative | PocketSolar/Window.rs:80 | a negative current at row j, after non-negative ones only, ends the analytic rows after row j |
| Window.NaNModelWritesEveryAnalyticRow | PocketSolar/Window.rs:76-81 | for a model with a NaN all exportNOfPoints analytic rows are written |
| Window.BothExportsAnalyticFirst | PocketSolar/Window.rs:67-88 | with both buttons clicked the text has the fixed header, the analytic rows first, then the raw rows |
| Window.PocketSolarApp.ExportButton | PocketSolar/Window.rs:41-45 | a click toggles the export window only while the window has points |
| Window.PocketSolarApp.ExportButtons | PocketSolar/Window.rs:62-89 | no click leaves the text as it was; a click replaces it by the header, then the analytic rows if asked for, then the raw rows if asked for |
| Window.PocketSolarApp.WriteAnalytic | PocketSolar/Window.rs:70-82 | the analytic rows of the current model are appended, stopping right after the first negative current |
| Window.PocketSolarApp.WriteRaw | PocketSolar/Window.rs:84-88 | the raw rows of the window are appended |
| ViyLineGui.RecalculatingIsIdempotent | ViyLine/GUI.rs:142 | with "Recalculate Regression" set, the 19 regressions before an export give what one gives |
| ViyLineGui.ExportRowBound | ViyLine/GUI.rs:153-159 | a negative current at row j, after non-negative ones only, makes row j the last row |
| ViyLineGui.NaNModelExportsEveryRow | ViyLine/GUI.rs:153-159 | for a model with a NaN all exportNOfPoints rows are written |
| ViyLineGui.ViyLineApp.constructor | Main.rs:79-101 | a new default curve (no points, A = B = C = 0), Ki 1, Kv 10, 20 export points, 100 regression steps, no recalculation; the link is given |
| ViyLineGui.ViyLineApp.CalculateRegression | ViyLine/GUI.rs:82 | the model is cleared only when recalculation is set, then fitted with `regressionSteps` |
| ViyLineGui.ViyLineApp.Measure | ViyLine/GUI.rs:31-83 | the link and the points are as the sweep over the pass list leaves them; the regression runs after a completed or an aborted sweep, and not after a panic or a poll that never ends |
| ViyLineGui.ViyLineApp.SweepPasses | ViyLine/GUI.rs:46-80 | the labelled pass loop ends as the sweep says: every point of its passes added in order, and the link as the sweep leaves it |
| ViyLineGui.ViyLineApp.SynchroniseLoop | ViyLine/GUI.rs:53-63 | the polling loop, run for at most the budget of reads, reports and consumes what synchronisation does |
| ViyLineGui.ViyLineApp.ReadPassLoop | ViyLine/GUI.rs:66-79 | the point loop adds each point as it is read and panics as the pass does |
| ViyLineGui.ViyLineApp.AddReadPoint | ViyLine/GUI.rs:78 | the decoded point is appended to the curve |
| ViyLineGui.ViyLineApp.ReadPointSteps | ViyLine/GUI.rs:68-75 | four checked reads, decoded, or a panic at the first failure |
| ViyLineGui.ViyLineApp.ReadByteStep | ViyLine/GUI.rs:35-38 | `readByte` writes 0x01, then reads |
| ViyLineGui.ViyLineApp.ClearButton | ViyLine/GUI.rs:86-89 | a click on a curve with points clears it and its model; otherwise nothing changes |
| ViyLineGui.ViyLineApp.ExportButton | ViyLine/GUI.rs:91-93 | a click toggles the export window only while the curve has points |
| ViyLineGui.ViyLineApp.ExportCsv | ViyLine/GUI.rs:139-160 | the model after 19 regressions, and the export of that model |
| ViyLineGui.ViyLineApp.WriteExport | ViyLine/GUI.rs:145-159 | the text is the header and the rows of the export of the current model |
| ViyLineGui.ViyLineApp.AddSyntheticPoints | ViyLine/GUI.rs:189-194 | (0, 10), (40, 9.34) and (50, 0) are appended in order, then the curve is fitted with `regressionSteps` |
| ViyLineLink.Synchronise | ViyLine/GUI.rs:53-63 | polling only reads: the replies and the bytes written are unchanged; it reads at most the budget, and all of it when still polling |
| ViyLineLink.SynchroniseFindsMarker | ViyLine/GUI.rs:53-57 | when a 0xFF comes before any read error and within the budget, synchronisation succeeds, having consumed the replies up to and including it |
| ViyLineLink.SynchroniseStopsAtError | ViyLine/GUI.rs:58-61 | a read error before any 0xFF, within the budget, aborts synchronisation just after that read |
| ViyLineLink.SynchroniseOutOfBudget | ViyLine/GUI.rs:53-63 | the poll is still running after the budget exactly when every reply it covered was a good byte other than 0xFF |
| ViyLineLink.EndlessRepliesNeverSynchronise | ViyLine/GUI.rs:53-63 | on a link that only answers bytes other than 0xFF (a silent serial port reads 0x00, `ViyLine/Serial.rs:16-19`), every budget is used up: the poll never returns |
| ViyLineLink.Raw | ViyLine/GUI.rs:74-75 | `upper*256 + lower` lies in 0..65535 |
| ViyLineLink.RawRoundTrip | ViyLine/GUI.rs:74-75 | the two bytes are recovered from the raw value, and every value in 0..65535 is the raw value of its two bytes |
| ViyLineLink.ReadPoints | ViyLine/GUI.rs:66-79 | the point loop adds at most n points, and exactly n unless it panics |
| ViyLineLink.ReadPass | ViyLine/GUI.rs:66-79 | a pass adds at most 20 points, and exactly 20 unless a read panics |
| ViyLineLink.ReadByteCompletes | ViyLine/GUI.rs:35-38 | a read succeeds exactly when the next reply is a good byte, and then it has written one 0x01 and consumed one reply |
| ViyLineLink.ReadPointCompletes | ViyLine/GUI.rs:68-71 | a point reads exactly when the next four replies are good bytes, and then four 0x01 are written and four replies consumed |
| ViyLineLink.GoodRepliesCompletePass | ViyLine/GUI.rs:66-79 | with the next 4n replies good, n points read without a panic, with 4n requests written and 4n replies consumed |
| ViyLineLink.BadReplyPanicsPass | ViyLine/GUI.rs:66-71 | a missing or failed reply among the next 4n makes the pass panic |
| ViyLineLink.ReadPassCompletes | ViyLine/GUI.rs:66-79 | a pass completes exactly when the next 4n replies are good bytes, and then it has written 4n read requests (80 for 20 points) and consumed 4n replies |
| ViyLineLink.EndlessRepliesStallSweep | ViyLine/GUI.rs:46-63 | on a link that answers only bytes other than 0xFF, the sweep stalls in its first poll whatever the budget, with no point added |
| ViyLineLink.SweepAddsWholePasses | ViyLine/GUI.rs:46-80 | at most 20 points per pass; a completed sweep adds exactly 20 per pass; an aborted or stalled one adds a whole number of passes |
| ViyLineLink.CompletedSweepTranscript | ViyLine/GUI.rs:46-80 | a completed sweep writes, per pass, its delta-T byte and then 80 read requests, and nothing else |
| ViyLineLink.Link.Write | ViyLine/GUI.rs:50 | a write appends one byte to what has been sent |
| ViyLineLink.Link.Read | ViyLine/GUI.rs:55 | a read returns the next reply of the stream and consumes it |

## Left out

- The connection loop of `PocketSolar/SolarCurve.rs:42-76` is not modelled: opening the serial port, the 2 s staleness timer, port-change detection, the sleeps and the `Arc<RwLock>` locking. This is I/O, timing and concurrency; the model starts at the body for one received line.
- Floating point: arithmetic is exact on reals, with no rounding. IEEE infinities are folded into NaN, and the voltage grid of the MPP search is exact rather than accumulated by `+= 0.01`. One consequence: a division by zero gives NaN where IEEE gives an infinity, so the NaN reset of `update` (`SolarCurve.Restart`) fires in cases where the source keeps the model, for example after `maxVoltageAnalytic / maxVoltage` with `maxVoltage` = 0 (`PocketSolar/SolarCurve.rs:164`) on a window whose voltages are all at most 0.
- The numerical behaviour of the fit is not modelled: convergence, and what the 0.8, 0.40 and 0.96 corrections achieve. `exp` and `ln` are uninterpreted parameters, so only the structure of the fit is stated and proved.
- Rust's `str::parse::<f64>` is a parameter. Its accepted spellings, including "NaN" and "inf", are not modelled, and parsed values are finite reals.
- Fixed-width formatting of CSV rows (`{:>6.2}` and the others) is not modelled: rows are tuples, and only the header strings are kept verbatim.
- Search.UnguardedSearch: the source's loop has no bound. The model runs it with a step budget and reports whether the loop would have stopped there; `Search.ClimbNeverStopsOnRisingPower` and `IVCurve.ConstantCurrentNeverSettles` show that no budget is enough on some models.
- ViyLineLink.Synchronise: the source's synchronisation poll (`ViyLine/GUI.rs:53-63`) has no bound. The model polls with a budget of reads and reports a poll still running as stalled; `ViyLineLink.EndlessRepliesNeverSynchronise` shows that no budget is enough on a link that never sends 0xFF or an error, where the source's handler never returns.
- ViyLinePrototype.ViyLineApp.ExportCsv: the source's `for i in 0..` has no bound, so the model takes a row budget. `ViyLinePrototype.NaNModelExportNeverEnds` shows that the loop does not end on a model with a NaN.
- ViyLineGui.ViyLineApp.CalculateRegression: the body of ViyLine's `calculateRegression` lives in `ViyLine/IVCurve.rs`, as do the curve type the application drives and its `interpolatedValueAt`. `ViyLine/IVCurve.rs` is not part of this model.
  - The curve is modelled as PocketSolar's `IVCurve`.
  - `calculateRegression` is modelled as `updateSolarPanelCurve` (`PocketSolar/IVCurve.rs:27-35`) without its final MPP search.
- The serial port and Bluetooth wrappers are not modelled (`PocketSolar/Serial.rs`, `ViyLine/Serial.rs`, `ViyLine/Bluetooth.rs`), nor are `attemptOpenSerialPort` and `findBluetooth`. `picRead` and `picWrite` act on an endless stream of replies; the 1 ms polling sleep (`ViyLine/GUI.rs:54`) and the log messages are not modelled.
- The user interface is not modelled:
  - the egui layout and plotting;
  - the slider ranges (the model accepts any point count and step count);
  - the configuration window, apart from "Add synthetic points";
  - persistence (`save`, `auto_save_interval`);
  - the command-line arguments of `Main.rs`.

  The "Recalculate regression" button calls the same `calculateRegression` as `ViyLineGui.ViyLineApp.CalculateRegression`.
- The per-frame refit of a clone of the curve in `ViyLine.rs:153-154` is modelled only at the moment of an export (`ViyLinePrototype.ViyLineApp.ExportCsv`). The empty "Measure" button of `ViyLine.rs:165-167` and the random synthetic-data block of `ViyLine.rs:253-274` are not modelled.
- `MPPPower` (`PocketSolar/SolarCurve.rs:192-194`) only reads the power at the MPP for display, and is not modelled.
- `ViyLine/ViyLine.rs` (the eframe template) and `Theory.py` (a floating-point simulation with plots) are not modelled.
- SolarCurve.SolarPassSetsA: states that A is the baseline plus B or plus 0.8 B, without saying which. The choice is the overshoot test on I(0), whose outcome depends on `exp`.

