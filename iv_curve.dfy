/**
 * The batch curve of PocketSolar (PocketSolar/IVCurve.rs): points added one
 * at a time, an alternating fit of I(V) = A - B*exp(C*V) over a configurable
 * number of passes, and the MPP search without an upper bound; plus the
 * application's `updateSolarPanelCurve`.
 */
module IVCurve {
  import opened Float
  import opened Regression
  import Search

  datatype IVPoint = IVPoint(v: real, i: real)

  function Voltages(points: seq<IVPoint>): (r: seq<real>)
    ensures |r| == |points| && forall k :: 0 <= k < |points| ==> r[k] == points[k].v
  {
    seq(|points|, k requires 0 <= k < |points| => points[k].v)
  }

  function Currents(points: seq<IVPoint>): (r: seq<real>)
    ensures |r| == |points| && forall k :: 0 <= k < |points| ==> r[k] == points[k].i
  {
    seq(|points|, k requires 0 <= k < |points| => points[k].i)
  }

  /** `for _ in 1..=steps` runs max(steps, 0) times. */
  function PassCount(steps: int): (n: nat)
    ensures steps >= 0 ==> n == steps
    ensures steps < 0 ==> n == 0
  {
    if steps < 0 then 0 else steps
  }

  /** `calculateCoefficients(steps)` on a curve with these points and this model. */
  function Fit(points: seq<IVPoint>, c: Coeffs, steps: int, m: Math): (r: Coeffs)
    ensures points == [] ==> r == c
  {
    BatchFit(Voltages(points), Currents(points), c, PassCount(steps), m)
  }

  /** A non-empty curve fitted with a zero or negative step count only gets its
      B seeded: the loop body never runs. */
  lemma NoStepsOnlySeeds(points: seq<IVPoint>, c: Coeffs, steps: int, m: Math)
    requires points != [] && steps <= 0
    ensures Fit(points, c, steps, m) == SeedB(c)
  {
    BatchFitWithoutPasses(Voltages(points), Currents(points), c, m);
  }

  /** With `recalculateRegressionOnCoefficientChanges` set, the fit starts from
      the cleared model A = B = C = 0, which behaves like B = 0.5 with any A
      and C: the first pass overwrites both. */
  lemma ClearedFitStartsAtHalf(points: seq<IVPoint>, a: F64, c: F64, steps: int, m: Math)
    requires points != [] && steps >= 1
    ensures Fit(points, BatchCleared, steps, m) == Fit(points, Coeffs(a, Num(0.5), c), steps, m)
  {
    FitAfterClearStartsAtHalf(Voltages(points), Currents(points), a, c, PassCount(steps), m);
  }

  class IVCurve {
    var points: seq<IVPoint>
    var C: F64
    var A: F64
    var B: F64
    var MPPVoltage: real

    /** The derived default: no points, everything zero. */
    constructor ()
      ensures points == [] && A == Zero && B == Zero && C == Zero && MPPVoltage == 0.0
    {
      points := [];
      C, A, B := Zero, Zero, Zero;
      MPPVoltage := 0.0;
    }

    function Coefficients(): Coeffs
      reads this`A, this`B, this`C
    {
      Coeffs(A, B, C)
    }

    /** I(V) = A - B*exp(C*V) of the current model. */
    function CurrentAtVoltage(m: Math, voltage: F64): (r: F64)
      reads this`A, this`B, this`C
    {
      CurrentAt(Coefficients(), m, voltage)
    }

    /** P(V) = V*I(V) of the current model. */
    function PowerAtVoltage(m: Math, voltage: real): (r: F64)
      reads this`A, this`B, this`C
      ensures r == PowerCurve(Coefficients(), m)(voltage)
      ensures AnyNaN(Coefficients()) ==> r.NaN?
    {
      Mul(Num(voltage), CurrentAtVoltage(m, Num(voltage)))
    }

    /** `minMaxY`: the ends of a sorted copy of the currents. */
    function MinMaxY(): (r: Option<(real, real)>)
      reads this`points
      ensures r.None? <==> points == []
      ensures r.Some? ==> r.value.0 in Currents(points) && r.value.1 in Currents(points)
      ensures r.Some? ==> forall k :: 0 <= k < |points| ==> r.value.0 <= points[k].i <= r.value.1
    {
      MinMaxBySort(Currents(points))
    }

    /** `calculateCoefficients(steps)`; an empty curve is left alone. */
    method CalculateCoefficients(steps: int, m: Math)
      modifies this`A, this`B, this`C
      ensures Coefficients() == Fit(points, old(Coefficients()), steps, m)
    {
      if |points| > 0 {
        if B == Num(0.0) {
          B := Num(0.5);
        }
        var maxY := MinMaxY().value.1;
        assert Coefficients() == SeedB(old(Coefficients()));
        RunPasses(maxY, PassCount(steps), m);
      }
    }

    /** The fit loop: `n` passes from the current model. */
    method RunPasses(maxY: real, n: nat, m: Math)
      modifies this`A, this`B, this`C
      ensures Coefficients() == BatchPasses(Voltages(points), Currents(points), maxY, old(Coefficients()), n, m)
    {
      for pass := 0 to n
        invariant Coefficients() == BatchPasses(Voltages(points), Currents(points), maxY, old(Coefficients()), pass, m)
      {
        FitPass(maxY, m);
      }
    }

    /** The body of the fit loop: A := maxY + B, then C and B from the
        regression of ln(A - I) on V. */
    method FitPass(maxY: real, m: Math)
      modifies this`A, this`B, this`C
      ensures Coefficients() == BatchPass(Voltages(points), Currents(points), maxY, old(Coefficients()), m)
    {
      A := Add(Num(maxY), B);
      var x := Voltages(points);
      var y := LogGaps(Currents(points), A, m);
      var line := LeastSquares(x, y);
      C := line.slope;
      B := Exp(m, line.intercept);
    }

    /** `calculateMPP`: climb from 0 V in 0.01 V steps while the power strictly
        rises. The source's loop has no bound; here it is cut off after `fuel`
        steps, and `finished` says whether it had stopped by itself. */
    method CalculateMPP(m: Math, fuel: nat) returns (finished: bool)
      modifies this`MPPVoltage
      ensures MPPVoltage == Search.Grid(Search.Climb(PowerCurve(Coefficients(), m), 0, fuel))
      ensures finished <==> !Search.Rises(PowerCurve(Coefficients(), m), Search.Climb(PowerCurve(Coefficients(), m), 0, fuel))
    {
      MPPVoltage, finished := Search.UnguardedSearch(PowerCurve(Coefficients(), m), fuel);
    }

    /** `clearRegression`: A, B, C := 0, 0, 0. */
    method ClearRegression()
      modifies this`A, this`B, this`C
      ensures Coefficients() == BatchCleared
    {
      A := Zero;
      B := Zero;
      C := Zero;
    }

    /** `clear`: no points and a zeroed model. */
    method Clear()
      modifies this`points, this`A, this`B, this`C
      ensures points == [] && Coefficients() == BatchCleared
    {
      points := [];
      ClearRegression();
    }

    /** `addPoint`: one point at the end. */
    method AddPoint(x: real, y: real)
      modifies this`points
      ensures points == old(points) + [IVPoint(x, y)]
    {
      points := points + [IVPoint(x, y)];
    }
  }

  /** A model whose current never leaves A - B*exp(0) = 1 A (A = 1, B = 0,
      C = 0, with exp(0) = 1) has power rising by 0.01 W at every step: the
      unguarded MPP search never returns on it. */
  lemma ConstantCurrentNeverSettles(m: Math, fuel: nat)
    requires m.exp(0.0) == Num(1.0)
    ensures Search.Climb(PowerCurve(Coeffs(Num(1.0), Zero, Zero), m), 0, fuel) == fuel
  {
    var p := PowerCurve(Coeffs(Num(1.0), Zero, Zero), m);
    forall j: nat ensures Search.Rises(p, j) {
      assert p(Search.Grid(j)) == Num(Search.Grid(j));
      assert p(Search.Grid(j + 1)) == Num(Search.Grid(j + 1));
    }
    Search.ClimbNeverStopsOnRisingPower(p, fuel);
  }

  /** A model with a NaN in it never passes the `>` test: the unguarded search
      returns at 0 V at once. */
  lemma NaNModelSettlesAtZero(c: Coeffs, m: Math, fuel: nat)
    requires AnyNaN(c)
    ensures Search.Climb(PowerCurve(c, m), 0, fuel) == 0
    ensures !Search.Rises(PowerCurve(c, m), 0)
  {
    NaNModelIsNaNEverywhere(c, m, Search.Grid(0));
  }

  /** The part of the PocketSolar application that drives this curve. */
  class PocketSolarApp {
    const solarPanelCurve: IVCurve
    var regressionSteps: int
    var recalculateRegressionOnCoefficientChanges: bool

    /** The application struct is not part of this model, so its defaults
        are unknown: the curve and both settings are parameters. */
    constructor (curve: IVCurve, steps: int, recalculate: bool)
      ensures solarPanelCurve == curve
      ensures regressionSteps == steps && recalculateRegressionOnCoefficientChanges == recalculate
    {
      solarPanelCurve := curve;
      regressionSteps := steps;
      recalculateRegressionOnCoefficientChanges := recalculate;
    }

    /** `updateSolarPanelCurve`: clear the model only when asked to, fit with
        `regressionSteps`, then search the MPP (cut off after `fuel` steps). */
    method UpdateSolarPanelCurve(m: Math, fuel: nat) returns (finished: bool)
      modifies solarPanelCurve`A, solarPanelCurve`B, solarPanelCurve`C, solarPanelCurve`MPPVoltage
      ensures solarPanelCurve.Coefficients() == Fit(solarPanelCurve.points,
        if recalculateRegressionOnCoefficientChanges then BatchCleared else old(solarPanelCurve.Coefficients()),
        regressionSteps, m)
      ensures var power := PowerCurve(solarPanelCurve.Coefficients(), m);
        && solarPanelCurve.MPPVoltage == Search.Grid(Search.Climb(power, 0, fuel))
        && (finished <==> !Search.Rises(power, Search.Climb(power, 0, fuel)))
    {
      if recalculateRegressionOnCoefficientChanges {
        solarPanelCurve.ClearRegression();
      }
      solarPanelCurve.CalculateCoefficients(regressionSteps, m);
      finished := solarPanelCurve.CalculateMPP(m, fuel);
    }
  }
}
