/**
 * The single-file ViyLine prototype (ViyLine.rs): a curve like ViyLine/Curve.rs
 * whose exponent is called k and whose `clear` keeps the model, and the
 * "Export CSV" action, which samples a freshly fitted copy of the curve every
 * `exportdV` volts until the current turns negative.
 */
module ViyLinePrototype {
  import opened Float
  import opened Regression
  import Search
  import opened ViyLineCurve

  class Curve {
    var points: seq<Point>
    var k: F64
    var A: F64
    var B: F64

    /** The derived default: no points, k = A = B = 0. */
    constructor ()
      ensures points == [] && Coefficients() == BatchCleared
    {
      points := [];
      k, A, B := Zero, Zero, Zero;
    }

    /** `clone()`: a new curve with the same points and model. */
    constructor Clone(other: Curve)
      ensures points == other.points && Coefficients() == other.Coefficients()
    {
      points := other.points;
      k, A, B := other.k, other.A, other.B;
    }

    /** The model as (A, B, C) with C = k. */
    function Coefficients(): Coeffs
      reads this`A, this`B, this`k
    {
      Coeffs(A, B, k)
    }

    /** `interpolatedValueAt(x)` = A - B*exp(k*x). */
    function InterpolatedValueAt(m: Math, x: F64): (r: F64)
      reads this`A, this`B, this`k
    {
      CurrentAt(Coefficients(), m, x)
    }

    function MinMaxY(): (r: Option<(real, real)>)
      reads this`points
      ensures r.None? <==> points == []
      ensures r.Some? ==> r.value.0 in Ys(points) && r.value.1 in Ys(points)
      ensures r.Some? ==> forall j :: 0 <= j < |points| ==> r.value.0 <= points[j].y <= r.value.1
    {
      ExtremesOfY(points)
    }

    /** `calculateCoefficients`: the same 49-pass fit as ViyLine/Curve.rs, with
        k in the place of C. */
    method CalculateCoefficients(m: Math)
      modifies this`A, this`B, this`k
      ensures Coefficients() == Fit(points, old(Coefficients()), m)
    {
      if |points| > 0 {
        if B == Num(0.0) {
          B := Num(0.5);
        }
        var maxY := MinMaxY().value.1;
        assert Coefficients() == SeedB(old(Coefficients()));
        RunPasses(maxY, FitPasses, m);
      }
    }

    /** The fit loop: `n` passes from the current model. */
    method RunPasses(maxY: real, n: nat, m: Math)
      modifies this`A, this`B, this`k
      ensures Coefficients() == BatchPasses(Xs(points), Ys(points), maxY, old(Coefficients()), n, m)
    {
      for pass := 0 to n
        invariant Coefficients() == BatchPasses(Xs(points), Ys(points), maxY, old(Coefficients()), pass, m)
      {
        FitPass(maxY, m);
      }
    }

    /** One pass: A := maxY + B, then k and B from the regression of
        ln(A - y) on x. */
    method FitPass(maxY: real, m: Math)
      modifies this`A, this`B, this`k
      ensures Coefficients() == BatchPass(Xs(points), Ys(points), maxY, old(Coefficients()), m)
    {
      A := Add(Num(maxY), B);
      var line := LeastSquares(Xs(points), LogGaps(Ys(points), A, m));
      k := line.slope;
      B := Exp(m, line.intercept);
    }

    /** `clear`: the points go, the model stays. */
    method Clear()
      modifies this`points
      ensures points == []
    {
      points := [];
    }

    /** `addPoint`: one point at the end. */
    method AddPoint(x: real, y: real)
      modifies this`points
      ensures points == old(points) + [Point(x, y)]
    {
      points := points + [Point(x, y)];
    }
  }

  /** One exported row, before formatting: the voltage and the signed current. */
  datatype Row = Row(voltage: real, current: F64)

  datatype Csv = Csv(header: string, rows: seq<Row>)

  const Header: string := "V,I\n"

  /** Row `i` is at `dV * i` volts. */
  function RowVoltage(dV: real, i: nat): real {
    dV * i as real
  }

  /** The current of model `c` on row `i`. */
  function Sampled(c: Coeffs, m: Math, dV: real): nat -> F64 {
    (i: nat) => CurrentAt(c, m, Num(RowVoltage(dV, i)))
  }

  /** The first `n` rows of the export of model `c`. */
  function Rows(c: Coeffs, m: Math, dV: real, n: nat): (r: seq<Row>)
    ensures |r| == n
    ensures forall i :: 0 <= i < n ==> r[i].voltage == RowVoltage(dV, i) && r[i].current == Sampled(c, m, dV)(i)
  {
    seq(n, i requires 0 <= i < n => Row(RowVoltage(dV, i), CurrentAt(c, m, Num(RowVoltage(dV, i)))))
  }

  /** The export of model `c`: the header, then the rows up to and including
      the first negative current, cut off after `fuel` rows (the source's loop
      `for i in 0..` has no bound of its own). */
  function Export(c: Coeffs, m: Math, dV: real, fuel: nat): Csv {
    Csv(Header, Rows(c, m, dV, Search.RowsWritten(Sampled(c, m, dV), 0, fuel)))
  }

  /** A negative current on row `j`, after non-negative ones only, makes row
      `j` the last row of the export. */
  lemma ExportEndsAtFirstNegative(c: Coeffs, m: Math, dV: real, j: nat, fuel: nat)
    requires j < fuel
    requires Lt(Sampled(c, m, dV)(j), Zero)
    requires forall t :: 0 <= t < j ==> !Lt(Sampled(c, m, dV)(t), Zero)
    ensures |Export(c, m, dV, fuel).rows| == j + 1
    ensures Lt(Export(c, m, dV, fuel).rows[j].current, Zero)
  {
    Search.RowsStopAtFirstNegative(Sampled(c, m, dV), 0, j, fuel);
  }

  /** A model with a NaN in it never gives a negative current (NaN < 0 is
      false): the source's export loop would never end; here it uses up all
      its rows. */
  lemma NaNModelExportNeverEnds(c: Coeffs, m: Math, dV: real, fuel: nat)
    requires AnyNaN(c)
    ensures |Export(c, m, dV, fuel).rows| == fuel
  {
    var current := Sampled(c, m, dV);
    forall t | 0 <= t < fuel
      ensures !Lt(current(t), Zero)
    {
      NaNModelIsNaNEverywhere(c, m, RowVoltage(dV, t));
    }
    Search.RowsRunToLimit(current, 0, fuel);
  }

  class ViyLineApp {
    const ivCurve: Curve
    var showExportWindow: bool
    var exportdV: real
    var outputCsv: Csv

    /** `ViyLineApp::new`: the default curve (no points, k = A = B = 0),
        export every 0.5 V, nothing exported yet. */
    constructor ()
      ensures fresh(ivCurve) && ivCurve.points == [] && ivCurve.Coefficients() == BatchCleared
      ensures !showExportWindow && exportdV == 0.5 && outputCsv == Csv("", [])
    {
      ivCurve := new Curve();
      showExportWindow := false;
      exportdV := 0.5;
      outputCsv := Csv("", []);
    }

    /** The "Export" button shows or hides the export window. */
    method ToggleExportWindow()
      modifies this`showExportWindow
      ensures showExportWindow == !old(showExportWindow)
    {
      showExportWindow := !showExportWindow;
    }

    /** The frame's fitted copy of the curve, then "Export CSV": the header,
        then one row per `exportdV` volts, breaking right after the first
        negative current; the loop is cut off after `fuel` rows. `stopped`
        says whether the break fired. The stored curve is not touched. */
    method ExportCsv(m: Math, fuel: nat) returns (stopped: bool)
      modifies this`outputCsv
      ensures var c := Fit(ivCurve.points, ivCurve.Coefficients(), m);
        && outputCsv == Export(c, m, exportdV, fuel)
        && (stopped <==> outputCsv.rows != [] && Lt(outputCsv.rows[|outputCsv.rows| - 1].current, Zero))
    {
      var curve := new Curve.Clone(ivCurve);
      curve.CalculateCoefficients(m);
      stopped := WriteRows(curve, m, fuel);
    }

    /** The export loop over the rows of `curve`. */
    method WriteRows(curve: Curve, m: Math, fuel: nat) returns (stopped: bool)
      modifies this`outputCsv
      ensures outputCsv == Export(curve.Coefficients(), m, exportdV, fuel)
      ensures stopped <==> outputCsv.rows != [] && Lt(outputCsv.rows[|outputCsv.rows| - 1].current, Zero)
    {
      ghost var c := curve.Coefficients();
      ghost var current := Sampled(c, m, exportdV);
      outputCsv := Csv(Header, []);
      stopped := false;
      var i: nat := 0;
      while i < fuel
        invariant i <= fuel && !stopped
        invariant outputCsv == Csv(Header, Rows(c, m, exportdV, i))
        invariant i > 0 ==> !Lt(current(i - 1), Zero)
        invariant Search.RowsWritten(current, 0, fuel) == Search.RowsWritten(current, i, fuel)
        decreases fuel - i
      {
        var v := RowVoltage(exportdV, i);
        var sample := curve.InterpolatedValueAt(m, Num(v));
        assert sample == current(i);
        RowsGrow(c, m, exportdV, i);
        outputCsv := outputCsv.(rows := outputCsv.rows + [Row(v, sample)]);
        if Lt(sample, Zero) {
          stopped := true;
          break;
        }
        i := i + 1;
      }
    }
  }

  lemma RowsGrow(c: Coeffs, m: Math, dV: real, n: nat)
    ensures Rows(c, m, dV, n + 1) == Rows(c, m, dV, n) + [Row(RowVoltage(dV, n), Sampled(c, m, dV)(n))]
  {
  }
}
