/**
 * The export window of PocketSolar (PocketSolar/Window.rs): the "Export"
 * button and the two export buttons, which rebuild the CSV text from the
 * analytic curve of the streaming model, from the raw measurements, or from
 * both, analytic rows first.
 */
module Window {
  import opened Float
  import opened Regression
  import Search
  import SolarCurve

  /** One exported row before formatting: 1-based index, voltage, current and
      power. */
  datatype Row = Row(index: nat, voltage: F64, current: F64, power: F64)

  datatype Csv = Csv(header: string, rows: seq<Row>)

  const Header: string := "  i,     V,      I,        P\n"

  /** The first `k` analytic rows of model `c`: row `i` is at `dV * i` volts
      and writes |I| and V*|I|. */
  function AnalyticRows(c: Coeffs, m: Math, dV: F64, k: nat): (r: seq<Row>)
    ensures |r| == k
    ensures forall i :: 0 <= i < k ==>
      var current := Abs(ExportCurrent(c, m, dV)(i));
      r[i] == Row(i + 1, ExportVoltage(dV, i), current, Mul(ExportVoltage(dV, i), current))
  {
    seq(k, i requires 0 <= i < k =>
      var current := Abs(CurrentAt(c, m, ExportVoltage(dV, i)));
      Row(i + 1, ExportVoltage(dV, i), current, Mul(ExportVoltage(dV, i), current)))
  }

  lemma AnalyticRowsGrow(c: Coeffs, m: Math, dV: F64, k: nat)
    ensures var current := Abs(ExportCurrent(c, m, dV)(k));
      AnalyticRows(c, m, dV, k + 1)
      == AnalyticRows(c, m, dV, k) + [Row(k + 1, ExportVoltage(dV, k), current, Mul(ExportVoltage(dV, k), current))]
  {
  }

  /** The analytic part of an export of `n` points: rows up to `n`, or up to
      and including the first one whose current is negative. */
  function Analytic(c: Coeffs, m: Math, n: int): seq<Row> {
    var dV := ExportStep(c, m, n);
    var limit := if n < 0 then 0 else n;
    AnalyticRows(c, m, dV, Search.RowsWritten(ExportCurrent(c, m, dV), 0, limit))
  }

  /** Measurement `p` as raw row `i` (0-based): its voltage, its current and
      their product. */
  function RawRow(i: nat, p: SolarCurve.Measurement): Row {
    Row(i + 1, Num(p.voltage), Num(p.current), Num(p.voltage * p.current))
  }

  /** The raw part: one row per measurement, in window order. */
  function RawRows(points: seq<SolarCurve.Measurement>): (r: seq<Row>)
    ensures |r| == |points|
    ensures forall i :: 0 <= i < |points| ==> r[i] == RawRow(i, points[i])
  {
    seq(|points|, i requires 0 <= i < |points| => RawRow(i, points[i]))
  }

  /** What the export buttons leave in the text box: nothing new when neither
      was clicked; otherwise the header, the analytic rows if asked for, then
      the raw rows if asked for. */
  function Export(previous: Csv, analytic: bool, raw: bool, points: seq<SolarCurve.Measurement>,
                  c: Coeffs, m: Math, n: int): Csv
  {
    if !(analytic || raw) then previous
    else Csv(Header, (if analytic then Analytic(c, m, n) else []) + (if raw then RawRows(points) else []))
  }

  /** The analytic export writes at most `n` rows, and a negative current on a
      row that follows non-negative ones only ends it there. */
  lemma AnalyticStopsAtFirstNegative(c: Coeffs, m: Math, n: int, j: nat)
    requires j < n
    requires Lt(ExportCurrent(c, m, ExportStep(c, m, n))(j), Zero)
    requires forall t :: 0 <= t < j ==> !Lt(ExportCurrent(c, m, ExportStep(c, m, n))(t), Zero)
    ensures |Analytic(c, m, n)| == j + 1
  {
    Search.RowsStopAtFirstNegative(ExportCurrent(c, m, ExportStep(c, m, n)), 0, j, n);
  }

  /** A model with a NaN in it has no negative current: all `n` analytic rows
      are written. */
  lemma NaNModelWritesEveryAnalyticRow(c: Coeffs, m: Math, n: nat)
    requires AnyNaN(c)
    ensures |Analytic(c, m, n)| == n
  {
    var dV := ExportStep(c, m, n);
    var current := ExportCurrent(c, m, dV);
    forall t | 0 <= t < n
      ensures !Lt(current(t), Zero)
    {
      assert current(t) == CurrentAt(c, m, ExportVoltage(dV, t));
    }
    Search.RowsRunToLimit(current, 0, n);
  }

  /** With both buttons clicked, the analytic rows come first and the raw rows
      follow, one per measurement, numbered again from 1. */
  lemma BothExportsAnalyticFirst(previous: Csv, points: seq<SolarCurve.Measurement>, c: Coeffs, m: Math, n: int)
    ensures var out := Export(previous, true, true, points, c, m, n);
      var k := |Analytic(c, m, n)|;
      && out.header == Header
      && |out.rows| == k + |points|
      && out.rows[..k] == Analytic(c, m, n)
      && out.rows[k..] == RawRows(points)
  {
    var out := Export(previous, true, true, points, c, m, n);
    assert out.rows[..|Analytic(c, m, n)|] == Analytic(c, m, n);
    assert out.rows[|Analytic(c, m, n)|..] == RawRows(points);
  }

  class PocketSolarApp {
    const solarPanelCurve: SolarCurve.SolarCurve
    var showExportWindow: bool
    var exportNOfPoints: int
    var outputCsv: Csv

    /** The application struct is not part of this model, so its defaults
        are unknown: the curve and the row count are parameters. */
    constructor (curve: SolarCurve.SolarCurve, n: int)
      ensures solarPanelCurve == curve && exportNOfPoints == n
      ensures !showExportWindow && outputCsv == Csv("", [])
    {
      solarPanelCurve := curve;
      exportNOfPoints := n;
      showExportWindow := false;
      outputCsv := Csv("", []);
    }

    /** "Export" is offered only while the window has points; a click shows or
        hides the export window. */
    method ExportButton(clicked: bool)
      modifies this`showExportWindow
      ensures showExportWindow
           == (if solarPanelCurve.points != [] && clicked then !old(showExportWindow) else old(showExportWindow))
    {
      if |solarPanelCurve.points| > 0 {
        if clicked {
          showExportWindow := !showExportWindow;
        }
      }
    }

    /** The "Analytic Curve" and "Raw Measurements" buttons, clicked or not. */
    method ExportButtons(analytic: bool, raw: bool, m: Math)
      modifies this`outputCsv
      ensures outputCsv == Export(old(outputCsv), analytic, raw, solarPanelCurve.points,
                                  solarPanelCurve.Coefficients(), m, exportNOfPoints)
    {
      if raw || analytic {
        outputCsv := Csv(Header, []);
        if analytic {
          WriteAnalytic(m);
        }
        ghost var before := outputCsv.rows;
        if raw {
          WriteRaw();
        }
        assert before == (if analytic then Analytic(solarPanelCurve.Coefficients(), m, exportNOfPoints) else []);
      }
    }

    /** `for i in 0..exportNOfPoints`, breaking right after a negative current. */
    method WriteAnalytic(m: Math)
      modifies this`outputCsv
      ensures outputCsv == Csv(old(outputCsv.header),
                               old(outputCsv.rows) + Analytic(solarPanelCurve.Coefficients(), m, exportNOfPoints))
    {
      ghost var c := solarPanelCurve.Coefficients();
      var voc := Div(Ln(m, Div(solarPanelCurve.A, solarPanelCurve.B)), solarPanelCurve.C);
      var dV := Div(voc, Num(exportNOfPoints as real - 1.0));
      assert dV == ExportStep(c, m, exportNOfPoints);
      ghost var current := ExportCurrent(c, m, dV);
      ghost var limit: nat := if exportNOfPoints < 0 then 0 else exportNOfPoints;
      ghost var start := outputCsv.rows;
      var i: nat := 0;
      while i < exportNOfPoints
        invariant i <= limit
        invariant outputCsv == Csv(old(outputCsv.header), start + AnalyticRows(c, m, dV, i))
        invariant Search.RowsWritten(current, 0, limit) == Search.RowsWritten(current, i, limit)
        decreases exportNOfPoints - i
      {
        var v := ExportVoltage(dV, i);
        var sample := solarPanelCurve.CurrentAtVoltage(m, v);
        assert sample == current(i);
        AnalyticRowsGrow(c, m, dV, i);
        var row := Row(i + 1, v, Abs(sample), Mul(v, Abs(sample)));
        SeqAppend(start, AnalyticRows(c, m, dV, i), row);
        outputCsv := outputCsv.(rows := outputCsv.rows + [row]);
        if Lt(sample, Zero) {
          break;
        }
        i := i + 1;
      }
    }

    /** `for (i, point) in points.iter().enumerate()`. */
    method WriteRaw()
      modifies this`outputCsv
      ensures outputCsv == Csv(old(outputCsv.header), old(outputCsv.rows) + RawRows(solarPanelCurve.points))
    {
      ghost var start := outputCsv.rows;
      var points := solarPanelCurve.points;
      for i := 0 to |points|
        invariant outputCsv == Csv(old(outputCsv.header), start + RawRows(points[..i]))
      {
        var point := points[i];
        var row := RawRow(i, point);
        assert RawRows(points[..i + 1]) == RawRows(points[..i]) + [row];
        SeqAppend(start, RawRows(points[..i]), row);
        outputCsv := outputCsv.(rows := outputCsv.rows + [row]);
      }
      assert points[..|points|] == points;
    }
  }

  lemma SeqAppend<T>(a: seq<T>, b: seq<T>, x: T)
    ensures (a + b) + [x] == a + (b + [x])
  {
  }
}
