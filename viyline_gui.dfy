/**
 * The ViyLine application (ViyLine/GUI.rs, with the defaults of Main.rs): the
 * "Measure" sweep over the link, `calculateRegression`, the "Clear" and
 * "Export" buttons, the "Export CSV" action and "Add synthetic points". The
 * curve it drives is the batch curve of the IVCurve module.
 */
module ViyLineGui {
  import opened Float
  import opened Regression
  import Search
  import IVCurve
  import opened ViyLineLink

  /** One exported row before formatting: 0-based index, voltage, |current|. */
  datatype Row = Row(index: nat, voltage: F64, current: F64)

  datatype Csv = Csv(header: string, rows: seq<Row>)

  const ExportHeader: string := "index,     V,      I\n"

  /** `calculateRegression`: clear the model only when asked to, then fit. */
  function Regressed(points: seq<IVCurve.IVPoint>, c: Coeffs, recalculate: bool, steps: int, m: Math): Coeffs {
    IVCurve.Fit(points, if recalculate then BatchCleared else c, steps, m)
  }

  /** `k` calls of `calculateRegression` in a row. */
  function RegressedTimes(points: seq<IVCurve.IVPoint>, c: Coeffs, recalculate: bool, steps: int, m: Math, k: nat): Coeffs
    decreases k
  {
    if k == 0 then c else Regressed(points, RegressedTimes(points, c, recalculate, steps, m, k - 1), recalculate, steps, m)
  }

  /** With "Recalculate Regression" set, every call starts from the cleared
      model, so repeating it changes nothing: the 19 calls before an export
      give what one call gives. */
  lemma {:induction false} RecalculatingIsIdempotent(points: seq<IVCurve.IVPoint>, c: Coeffs, steps: int, m: Math, k: nat)
    requires k >= 1
    ensures RegressedTimes(points, c, true, steps, m, k) == Regressed(points, c, true, steps, m)
    decreases k
  {
    if k > 1 {
      RecalculatingIsIdempotent(points, c, steps, m, k - 1);
    }
  }

  /** Without it, on a non-empty curve, the calls chain: each starts where the
      previous one ended. */
  lemma RegressionsChain(points: seq<IVCurve.IVPoint>, c: Coeffs, steps: int, m: Math, k: nat)
    ensures RegressedTimes(points, c, false, steps, m, k + 1)
         == IVCurve.Fit(points, RegressedTimes(points, c, false, steps, m, k), steps, m)
  {
  }

  function ExportRows(c: Coeffs, m: Math, dV: F64, k: nat): (r: seq<Row>)
    ensures |r| == k
    ensures forall i :: 0 <= i < k ==> r[i] == Row(i, ExportVoltage(dV, i), Abs(ExportCurrent(c, m, dV)(i)))
  {
    seq(k, i requires 0 <= i < k => Row(i, ExportVoltage(dV, i), Abs(CurrentAt(c, m, ExportVoltage(dV, i)))))
  }

  lemma ExportRowsGrow(c: Coeffs, m: Math, dV: F64, k: nat)
    ensures ExportRows(c, m, dV, k + 1)
         == ExportRows(c, m, dV, k) + [Row(k, ExportVoltage(dV, k), Abs(ExportCurrent(c, m, dV)(k)))]
  {
  }

  /** The export of model `c` with `n` points: the header, then rows 0, 1, ...
      up to `n - 1`, or up to and including the first negative current. */
  function Export(c: Coeffs, m: Math, n: int): Csv {
    var dV := ExportStep(c, m, n);
    var limit := if n < 0 then 0 else n;
    Csv(ExportHeader, ExportRows(c, m, dV, Search.RowsWritten(ExportCurrent(c, m, dV), 0, limit)))
  }

  /** The export writes at most `n` rows, and a negative current on a row that
      follows non-negative ones only ends it there. */
  lemma ExportRowBound(c: Coeffs, m: Math, n: int, j: nat)
    requires j < n
    requires Lt(ExportCurrent(c, m, ExportStep(c, m, n))(j), Zero)
    requires forall t :: 0 <= t < j ==> !Lt(ExportCurrent(c, m, ExportStep(c, m, n))(t), Zero)
    ensures |Export(c, m, n).rows| == j + 1
  {
    Search.RowsStopAtFirstNegative(ExportCurrent(c, m, ExportStep(c, m, n)), 0, j, n);
  }

  /** A model with a NaN in it has no negative current: the export writes all
      `n` rows. */
  lemma NaNModelExportsEveryRow(c: Coeffs, m: Math, n: nat)
    requires AnyNaN(c)
    ensures |Export(c, m, n).rows| == n
  {
    var dV := ExportStep(c, m, n);
    var current := ExportCurrent(c, m, dV);
    forall t | 0 <= t < n
      ensures !Lt(current(t), Zero)
    {
      assert current(t) == CurrentAt(c, m, ExportVoltage(dV, t));
    }
    Search.RowsRunToLimit(current, 0, n);
  }

  /** The three points of "Add synthetic points", in order. */
  const SyntheticPoints: seq<IVCurve.IVPoint> :=
    [IVCurve.IVPoint(0.0, 10.0), IVCurve.IVPoint(40.0, 9.34), IVCurve.IVPoint(50.0, 0.0)]

  class ViyLineApp {
    const link: Link
    const solarPanelCurve: IVCurve.IVCurve
    /** Whether a Bluetooth peripheral is held (`hc06.is_some()`). */
    var hc06: bool
    var Ki: real
    var Kv: real
    var regressionSteps: int
    var recalculateRegressionOnCoefficientChanges: bool
    var showExportWindow: bool
    var exportNOfPoints: int
    var outputCsv: Csv

    /** `ViyLineApp::new` with default settings (Main.rs), including the
        derived default curve: no points and A = B = C = 0. */
    constructor (link: Link, bluetooth: bool)
      ensures this.link == link && hc06 == bluetooth
      ensures fresh(solarPanelCurve) && solarPanelCurve.points == [] && solarPanelCurve.Coefficients() == BatchCleared
      ensures Ki == 1.0 && Kv == 10.0 && exportNOfPoints == 20
      ensures regressionSteps == 100 && !recalculateRegressionOnCoefficientChanges
      ensures !showExportWindow && outputCsv == Csv("", [])
    {
      this.link := link;
      solarPanelCurve := new IVCurve.IVCurve();
      hc06 := bluetooth;
      Ki, Kv := 1.0, 10.0;
      exportNOfPoints := 20;
      regressionSteps := 100;
      recalculateRegressionOnCoefficientChanges := false;
      showExportWindow := false;
      outputCsv := Csv("", []);
    }

    /** `calculateRegression`. */
    method CalculateRegression(m: Math)
      modifies solarPanelCurve`A, solarPanelCurve`B, solarPanelCurve`C
      ensures solarPanelCurve.Coefficients()
           == Regressed(solarPanelCurve.points, old(solarPanelCurve.Coefficients()),
                        recalculateRegressionOnCoefficientChanges, regressionSteps, m)
    {
      if recalculateRegressionOnCoefficientChanges {
        solarPanelCurve.ClearRegression();
      }
      solarPanelCurve.CalculateCoefficients(regressionSteps, m);
    }

    /** The "Measure" button: the sweep over the pass list, each poll with at
        most `budget` reads, then one regression unless a read panicked or a
        poll was still running (where the source never gets to it). */
    method Measure(m: Math, budget: nat) returns (end: End)
      modifies link, solarPanelCurve`points, solarPanelCurve`A, solarPanelCurve`B, solarPanelCurve`C
      ensures var s := Sweep(PassList(hc06), old(link.State()), budget, Ki, Kv);
        && end == s.end
        && link.State() == s.wire
        && solarPanelCurve.points == old(solarPanelCurve.points) + s.points
        && solarPanelCurve.Coefficients()
          == (if end == Panicked || end == Stalled then old(solarPanelCurve.Coefficients())
              else Regressed(solarPanelCurve.points, old(solarPanelCurve.Coefficients()),
                             recalculateRegressionOnCoefficientChanges, regressionSteps, m))
    {
      var times := PassList(hc06);
      end := SweepPasses(times, budget);
      if end == Completed || end == Aborted {
        CalculateRegression(m);
      }
    }

    /** The labelled pass loop over the delta-T values `times`. */
    method SweepPasses(times: seq<Byte>, budget: nat) returns (end: End)
      modifies link, solarPanelCurve`points
      ensures var s := Sweep(times, old(link.State()), budget, Ki, Kv);
        end == s.end && link.State() == s.wire && solarPanelCurve.points == old(solarPanelCurve.points) + s.points
    {
      ghost var added: seq<IVCurve.IVPoint> := [];
      var i := 0;
      while i < |times|
        invariant 0 <= i <= |times|
        invariant solarPanelCurve.points == old(solarPanelCurve.points) + added
        invariant var s := Sweep(times[i..], link.State(), budget, Ki, Kv);
          Sweep(times, old(link.State()), budget, Ki, Kv) == Outcome(added + s.points, s.wire, s.end)
      {
        ghost var w := link.State();
        ghost var now := times[i..];
        assert now[0] == times[i] && now[1..] == times[i + 1..];
        link.Write(times[i]);
        var poll := SynchroniseLoop(budget);
        if poll == ReadError {
          SweepAborts(now, w, budget, Ki, Kv);
          ConcatEmpty(added);
          return Aborted;
        }
        if poll == StillPolling {
          SweepStalls(now, w, budget, Ki, Kv);
          ConcatEmpty(added);
          return Stalled;
        }
        ghost var start := link.State();
        var panicked := ReadPassLoop(PointsPerPass);
        ghost var pass := ReadPass(start, PointsPerPass, Ki, Kv);
        if panicked {
          SweepPanics(now, w, budget, Ki, Kv);
          ConcatAssoc(old(solarPanelCurve.points), added, pass.points);
          added := added + pass.points;
          return Panicked;
        }
        SweepContinues(now, w, budget, Ki, Kv);
        ghost var rest := Sweep(times[i + 1..], pass.wire, budget, Ki, Kv);
        ConcatAssoc(added, pass.points, rest.points);
        ConcatAssoc(old(solarPanelCurve.points), added, pass.points);
        added := added + pass.points;
        i := i + 1;
      }
      end := Completed;
    }

    /** Read until 0xFF or a read error, for at most `budget` reads. */
    method SynchroniseLoop(budget: nat) returns (poll: Poll)
      modifies link`read
      ensures (poll, link.State()) == Synchronise(old(link.State()), budget)
    {
      var left := budget;
      while left > 0
        invariant Synchronise(link.State(), left) == Synchronise(old(link.State()), budget)
      {
        var value := link.Read();
        match value
        case Failed =>
          return ReadError;
        case Got(b) =>
          if b == Ready {
            return Marker;
          }
        left := left - 1;
      }
      poll := StillPolling;
    }

    /** `for p in 1..=20`, for `n` points: four checked reads per point, each
        point added as soon as it is read. */
    method ReadPassLoop(n: nat) returns (panicked: bool)
      modifies link, solarPanelCurve`points
      ensures var r := ReadPass(old(link.State()), n, Ki, Kv);
        panicked == r.panicked && link.State() == r.wire
        && solarPanelCurve.points == old(solarPanelCurve.points) + r.points
    {
      ghost var total := ReadPass(link.State(), n, Ki, Kv);
      ghost var added: seq<IVCurve.IVPoint> := [];
      var p := 0;
      while p < n
        invariant p <= n
        invariant solarPanelCurve.points == old(solarPanelCurve.points) + added
        invariant total == ReadPoints(link.State(), n - p, added, Ki, Kv)
      {
        ghost var w := link.State();
        var point := ReadPointSteps();
        if point.None? {
          return true;
        }
        ReadPointsAdvance(w, n - p, added, Ki, Kv);
        AddReadPoint(point.value);
        ConcatAssoc(old(solarPanelCurve.points), added, [point.value]);
        added := added + [point.value];
        p := p + 1;
      }
      panicked := false;
    }

    /** `addPoint(V, I)` for a decoded point. */
    method AddReadPoint(point: IVCurve.IVPoint)
      modifies solarPanelCurve`points
      ensures solarPanelCurve.points == old(solarPanelCurve.points) + [point]
    {
      solarPanelCurve.AddPoint(point.v, point.i);
    }

    /** The four `readByte(self).unwrap()` calls of one point. */
    method ReadPointSteps() returns (point: Option<IVCurve.IVPoint>)
      modifies link
      ensures (point, link.State()) == ReadPoint(old(link.State()), Ki, Kv)
    {
      var upperV := ReadByteStep();
      if upperV.Failed? { return None; }
      var lowerV := ReadByteStep();
      if lowerV.Failed? { return None; }
      var upperI := ReadByteStep();
      if upperI.Failed? { return None; }
      var lowerI := ReadByteStep();
      if lowerI.Failed? { return None; }
      point := Some(Decode(upperV.value, lowerV.value, upperI.value, lowerI.value, Ki, Kv));
    }

    /** `readByte`: write 0x01, then read. */
    method ReadByteStep() returns (r: ReadResult)
      modifies link
      ensures (r, link.State()) == ReadByte(old(link.State()))
    {
      link.Write(ReadRequest);
      r := link.Read();
    }

    /** "Clear" and "Export" are offered only while the curve has points. */
    method ClearButton(clicked: bool)
      modifies solarPanelCurve`points, solarPanelCurve`A, solarPanelCurve`B, solarPanelCurve`C
      ensures old(solarPanelCurve.points) != [] && clicked ==>
        solarPanelCurve.points == [] && solarPanelCurve.Coefficients() == BatchCleared
      ensures !(old(solarPanelCurve.points) != [] && clicked) ==>
        solarPanelCurve.points == old(solarPanelCurve.points)
        && solarPanelCurve.Coefficients() == old(solarPanelCurve.Coefficients())
    {
      if |solarPanelCurve.points| > 0 && clicked {
        solarPanelCurve.Clear();
      }
    }

    method ExportButton(clicked: bool)
      modifies this`showExportWindow
      ensures showExportWindow == (if solarPanelCurve.points != [] && clicked then !old(showExportWindow) else old(showExportWindow))
    {
      if |solarPanelCurve.points| > 0 && clicked {
        showExportWindow := !showExportWindow;
      }
    }

    /** "Export CSV": 19 regressions, then the rows. */
    method ExportCsv(m: Math)
      modifies this`outputCsv, solarPanelCurve`A, solarPanelCurve`B, solarPanelCurve`C
      ensures solarPanelCurve.Coefficients()
           == RegressedTimes(solarPanelCurve.points, old(solarPanelCurve.Coefficients()),
                             recalculateRegressionOnCoefficientChanges, regressionSteps, m, 19)
      ensures outputCsv == Export(solarPanelCurve.Coefficients(), m, exportNOfPoints)
    {
      for k := 1 to 20
        invariant solarPanelCurve.Coefficients()
          == RegressedTimes(solarPanelCurve.points, old(solarPanelCurve.Coefficients()),
                            recalculateRegressionOnCoefficientChanges, regressionSteps, m, k - 1)
      {
        CalculateRegression(m);
      }
      WriteExport(m);
    }

    /** The header, the open-circuit voltage and step, then the row loop. */
    method WriteExport(m: Math)
      modifies this`outputCsv
      ensures outputCsv == Export(solarPanelCurve.Coefficients(), m, exportNOfPoints)
    {
      ghost var c := solarPanelCurve.Coefficients();
      outputCsv := Csv(ExportHeader, []);
      var voc := Div(Ln(m, Div(solarPanelCurve.A, solarPanelCurve.B)), solarPanelCurve.C);
      var dV := Div(voc, Num(exportNOfPoints as real - 1.0));
      assert dV == ExportStep(c, m, exportNOfPoints);
      ghost var current := ExportCurrent(c, m, dV);
      ghost var limit: nat := if exportNOfPoints < 0 then 0 else exportNOfPoints;
      var i: nat := 0;
      while i < exportNOfPoints
        invariant i <= limit
        invariant outputCsv == Csv(ExportHeader, ExportRows(c, m, dV, i))
        invariant Search.RowsWritten(current, 0, limit) == Search.RowsWritten(current, i, limit)
        decreases exportNOfPoints - i
      {
        var v := ExportVoltage(dV, i);
        var sample := solarPanelCurve.CurrentAtVoltage(m, v);
        assert sample == current(i);
        ExportRowsGrow(c, m, dV, i);
        outputCsv := outputCsv.(rows := outputCsv.rows + [Row(i, v, Abs(sample))]);
        if Lt(sample, Zero) {
          break;
        }
        i := i + 1;
      }
    }

    /** "Add synthetic points": three fixed points, then a fit with
        `regressionSteps` (not `calculateRegression`, so no clearing). */
    method AddSyntheticPoints(m: Math)
      modifies solarPanelCurve`points, solarPanelCurve`A, solarPanelCurve`B, solarPanelCurve`C
      ensures solarPanelCurve.points == old(solarPanelCurve.points) + SyntheticPoints
      ensures solarPanelCurve.Coefficients()
           == IVCurve.Fit(solarPanelCurve.points, old(solarPanelCurve.Coefficients()), regressionSteps, m)
    {
      solarPanelCurve.AddPoint(0.0, 10.0);
      solarPanelCurve.AddPoint(40.0, 9.34);
      solarPanelCurve.AddPoint(50.0, 0.0);
      solarPanelCurve.CalculateCoefficients(regressionSteps, m);
    }
  }
}
