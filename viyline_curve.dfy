/**
 * The ViyLine curve (ViyLine/Curve.rs): (x, y) points, the batch fit with a
 * fixed 49 passes, the model value at any x, and the sort-a-copy extremes of y.
 */
module ViyLineCurve {
  import opened Float
  import opened Regression

  datatype Point = Point(x: real, y: real)

  /** `for _ in 1..50` runs 49 passes. */
  const FitPasses: nat := 49

  function Xs(points: seq<Point>): (r: seq<real>)
    ensures |r| == |points| && forall k :: 0 <= k < |points| ==> r[k] == points[k].x
  {
    seq(|points|, k requires 0 <= k < |points| => points[k].x)
  }

  function Ys(points: seq<Point>): (r: seq<real>)
    ensures |r| == |points| && forall k :: 0 <= k < |points| ==> r[k] == points[k].y
  {
    seq(|points|, k requires 0 <= k < |points| => points[k].y)
  }

  /** `minMaxY`: None on no points, else the smallest and largest y, taken as
      the ends of a sorted copy (the points themselves keep their order). */
  function ExtremesOfY(points: seq<Point>): (r: Option<(real, real)>)
    ensures r.None? <==> points == []
    ensures r.Some? ==> r.value.0 in Ys(points) && r.value.1 in Ys(points)
    ensures r.Some? ==> forall k :: 0 <= k < |points| ==> r.value.0 <= points[k].y <= r.value.1
  {
    MinMaxBySort(Ys(points))
  }

  /** `calculateCoefficients` on these points from this model. */
  function Fit(points: seq<Point>, c: Coeffs, m: Math): (r: Coeffs)
    ensures points == [] ==> r == c
  {
    BatchFit(Xs(points), Ys(points), c, FitPasses, m)
  }

  /** The fit ends with a pass that sets A to the largest y plus the B of the
      48 passes before it, started from the seeded B. */
  lemma FitEndsWithMaxYPlusB(points: seq<Point>, c: Coeffs, m: Math)
    requires points != []
    ensures Fit(points, c, m).A
         == Add(Num(ExtremesOfY(points).value.1),
                BatchPasses(Xs(points), Ys(points), ExtremesOfY(points).value.1, SeedB(c), FitPasses - 1, m).B)
  {
    BatchPassesLastA(Xs(points), Ys(points), ExtremesOfY(points).value.1, SeedB(c), FitPasses, m);
  }

  /** A fit after `clear` (A = B = C = 0) is the fit from B = 0.5, whatever
      A and C it starts from. */
  lemma ClearedFitStartsAtHalf(points: seq<Point>, a: F64, c: F64, m: Math)
    requires points != []
    ensures Fit(points, BatchCleared, m) == Fit(points, Coeffs(a, Num(0.5), c), m)
  {
    FitAfterClearStartsAtHalf(Xs(points), Ys(points), a, c, FitPasses, m);
  }

  class Curve {
    var points: seq<Point>
    var C: F64
    var A: F64
    var B: F64

    /** The derived default: no points, A = B = C = 0. */
    constructor ()
      ensures points == [] && Coefficients() == BatchCleared
    {
      points := [];
      C, A, B := Zero, Zero, Zero;
    }

    function Coefficients(): Coeffs
      reads this`A, this`B, this`C
    {
      Coeffs(A, B, C)
    }

    /** `interpolatedValueAt(x)` = A - B*exp(C*x). */
    function InterpolatedValueAt(m: Math, x: F64): (r: F64)
      reads this`A, this`B, this`C
    {
      CurrentAt(Coefficients(), m, x)
    }

    function MinMaxY(): (r: Option<(real, real)>)
      reads this`points
      ensures r.None? <==> points == []
      ensures r.Some? ==> r.value.0 in Ys(points) && r.value.1 in Ys(points)
      ensures r.Some? ==> forall k :: 0 <= k < |points| ==> r.value.0 <= points[k].y <= r.value.1
    {
      ExtremesOfY(points)
    }

    /** `calculateCoefficients`: nothing on no points; otherwise seed B and run
        the 49 passes. */
    method CalculateCoefficients(m: Math)
      modifies this`A, this`B, this`C
      ensures Coefficients() == Fit(points, old(Coefficients()), m)
    {
      if |points| > 0 {
        if B == Num(0.0) {
          B := Num(0.5);
        }
        var maxY := MinMaxY().value.1;
        assert Coefficients() == SeedB(old(Coefficients()));
        RunPasses(maxY, FitPasses, m);
      }
    }

    /** The fit loop: `n` passes from the current model. */
    method RunPasses(maxY: real, n: nat, m: Math)
      modifies this`A, this`B, this`C
      ensures Coefficients() == BatchPasses(Xs(points), Ys(points), maxY, old(Coefficients()), n, m)
    {
      for pass := 0 to n
        invariant Coefficients() == BatchPasses(Xs(points), Ys(points), maxY, old(Coefficients()), pass, m)
      {
        FitPass(maxY, m);
      }
    }

    /** One pass: A := maxY + B, then C and B from the regression of
        ln(A - y) on x. */
    method FitPass(maxY: real, m: Math)
      modifies this`A, this`B, this`C
      ensures Coefficients() == BatchPass(Xs(points), Ys(points), maxY, old(Coefficients()), m)
    {
      A := Add(Num(maxY), B);
      var line := LeastSquares(Xs(points), LogGaps(Ys(points), A, m));
      C := line.slope;
      B := Exp(m, line.intercept);
    }

    /** `clear`: no points, A = B = C = 0. */
    method Clear()
      modifies this`points, this`A, this`B, this`C
      ensures points == [] && Coefficients() == BatchCleared
    {
      points := [];
      A := Zero;
      B := Zero;
      C := Zero;
    }

    /** `addPoint`: one point at the end. */
    method AddPoint(x: real, y: real)
      modifies this`points
      ensures points == old(points) + [Point(x, y)]
    {
      points := points + [Point(x, y)];
    }
  }
}
