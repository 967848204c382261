/**
 * What the four curve variants share: the model I(V) = A - B*exp(C*V), the
 * least-squares line through (x, y) pairs, the pass of the alternating fit used
 * by the three variants without stabilisation heuristics, the evenly spaced
 * voltages the export windows sample a model at, and the "sort a copy, take its
 * ends" minimum/maximum.
 */
module Regression {
  import opened Float
  import Search

  datatype Coeffs = Coeffs(A: F64, B: F64, C: F64)

  /** A, B and C after `clearRegression` in the streaming variant. */
  const StreamingCleared: Coeffs := Coeffs(Num(0.0), Num(1.0), Num(0.0))

  /** A, B and C after `clearRegression`/`clear` in the batch variants. */
  const BatchCleared: Coeffs := Coeffs(Num(0.0), Num(0.0), Num(0.0))

  predicate AnyNaN(c: Coeffs) {
    c.A.NaN? || c.B.NaN? || c.C.NaN?
  }

  /** I(V) = A - B*exp(C*V) at voltage `v`: NaN when the model or the voltage
      is NaN, and A - B at 0 V when the library has exp(0) = 1. */
  function CurrentAt(c: Coeffs, m: Math, v: F64): (r: F64)
    ensures AnyNaN(c) || v.NaN? ==> r.NaN?
    ensures v == Num(0.0) && c.C.Num? && m.exp(0.0) == Num(1.0) ==> r == Sub(c.A, c.B)
  {
    Sub(c.A, Mul(c.B, Exp(m, Mul(c.C, v))))
  }

  /** P(V) = V*I(V). */
  function PowerAt(c: Coeffs, m: Math, v: real): F64 {
    Mul(Num(v), CurrentAt(c, m, Num(v)))
  }

  /** The power curve of a model, as the function the MPP search climbs. */
  function PowerCurve(c: Coeffs, m: Math): real -> F64 {
    v => PowerAt(c, m, v)
  }

  /** The open-circuit voltage ln(A/B)/C, where A - B*exp(C*V) = 0. */
  function OpenCircuitVoltage(c: Coeffs, m: Math): (r: F64)
    ensures AnyNaN(c) ==> r.NaN?
  {
    Div(Ln(m, Div(c.A, c.B)), c.C)
  }

  /** The voltage step of an export of `n` rows: the open-circuit voltage split
      into n - 1 intervals. */
  function ExportStep(c: Coeffs, m: Math, n: int): F64 {
    Div(OpenCircuitVoltage(c, m), Num(n as real - 1.0))
  }

  /** Row `i` of an export is at `dV * i` volts. */
  function ExportVoltage(dV: F64, i: nat): F64 {
    Mul(dV, Num(i as real))
  }

  /** The signed current of model `c` on each row of an export. */
  function ExportCurrent(c: Coeffs, m: Math, dV: F64): nat -> F64 {
    (i: nat) => CurrentAt(c, m, ExportVoltage(dV, i))
  }

  /** A NaN anywhere in the model makes every current and every power NaN. */
  lemma NaNModelIsNaNEverywhere(c: Coeffs, m: Math, v: real)
    requires AnyNaN(c)
    ensures CurrentAt(c, m, Num(v)).NaN? && PowerAt(c, m, v).NaN?
  {
  }

  /** At zero volts the model gives A - B, provided the library has exp(0) = 1. */
  lemma CurrentAtZeroVolts(c: Coeffs, m: Math)
    requires m.exp(0.0) == Num(1.0) && c.C.Num?
    ensures CurrentAt(c, m, Num(0.0)) == Sub(c.A, c.B)
  {
  }

  /** The streaming model right after `clearRegression` (A = 0, B = 1, C = 0)
      draws -1 A at every voltage, so its power at V is -V, given exp(0) = 1. */
  lemma ClearedStreamingPower(m: Math, v: real)
    requires m.exp(0.0) == Num(1.0)
    ensures CurrentAt(StreamingCleared, m, Num(v)) == Num(-1.0)
    ensures PowerAt(StreamingCleared, m, v) == Num(-v)
  {
    FlatModelCurrent(StreamingCleared, m, v);
  }

  /** A model with C = 0 draws A - B at every voltage, given exp(0) = 1. */
  lemma FlatModelCurrent(c: Coeffs, m: Math, v: real)
    requires c.A.Num? && c.B.Num? && c.C == Zero && m.exp(0.0) == Num(1.0)
    ensures CurrentAt(c, m, Num(v)) == Num(c.A.val - c.B.val)
  {
    assert Mul(c.C, Num(v)) == Zero;
  }

  /** With exp(0) = 1, the cleared model I(V) = 0 - 1*exp(0) = -1 has power
      0 W at 0 V and -0.01 W one step later: it falls from the start. */
  lemma ClearedModelPowerFalls(m: Math)
    requires m.exp(0.0) == Num(1.0)
    ensures !Search.Rises(PowerCurve(StreamingCleared, m), 0)
  {
    FlatModelPowerFalls(StreamingCleared, m, 0);
  }

  /** With C = 0 and A < B the current A - B is negative and constant, so the
      power V*(A - B) falls at every step of the search grid. */
  lemma FlatModelPowerFalls(c: Coeffs, m: Math, k: nat)
    requires c.A.Num? && c.B.Num? && c.C == Zero && m.exp(0.0) == Num(1.0)
    requires c.A.val < c.B.val
    ensures !Search.Rises(PowerCurve(c, m), k)
  {
    var d := c.A.val - c.B.val;
    FlatModelCurrent(c, m, Search.Grid(k));
    FlatModelCurrent(c, m, Search.Grid(k + 1));
    assert Search.Grid(k + 1) * d < Search.Grid(k) * d by {
      assert Search.Grid(k + 1) == Search.Grid(k) + Search.Step;
    }
  }

  /** ... so the guarded MPP search of the streaming curve stays at 0 V on the
      cleared model. */
  lemma ClearedModelHasMppAtZero(m: Math)
    requires m.exp(0.0) == Num(1.0)
    ensures Search.GuardedClimb(PowerCurve(StreamingCleared, m), 0) == 0
  {
    ClearedModelPowerFalls(m);
    Search.GuardedClimbStays(PowerCurve(StreamingCleared, m), 0);
  }

  /** A model with a NaN in it never passes the `>` test, so the guarded MPP
      search stays at 0 V. */
  lemma NaNModelHasMppAtZero(c: Coeffs, m: Math)
    requires AnyNaN(c)
    ensures Search.GuardedClimb(PowerCurve(c, m), 0) == 0
  {
    NaNModelIsNaNEverywhere(c, m, Search.Grid(0));
    Search.GuardedClimbStays(PowerCurve(c, m), 0);
  }

  // ---------------------------------------------------------------------------
  // Sums and the least-squares line

  /** Rust's `iter().sum()` over doubles: a left fold starting from 0.0. */
  function Sum(s: seq<F64>): F64
    decreases |s|
  {
    if s == [] then Zero else Add(Sum(s[..|s| - 1]), s[|s| - 1])
  }

  function Nums(xs: seq<real>): (r: seq<F64>)
    ensures |r| == |xs|
  {
    seq(|xs|, i requires 0 <= i < |xs| => Num(xs[i]))
  }

  function Products(xs: seq<F64>, ys: seq<F64>): (r: seq<F64>)
    requires |xs| == |ys|
    ensures |r| == |xs|
  {
    seq(|xs|, i requires 0 <= i < |xs| => Mul(xs[i], ys[i]))
  }

  datatype Line = Line(slope: F64, intercept: F64)

  /** Ordinary least squares through the points (xs[i], ys[i]):
      slope = (n*Sxy - Sx*Sy) / (n*Sxx - Sx^2), intercept = (Sy - slope*Sx) / n. */
  function LeastSquares(xs: seq<real>, ys: seq<F64>): Line
    requires |xs| == |ys|
  {
    var x := Nums(xs);
    var n := Num(|xs| as real);
    var sumX := Sum(x);
    var sumY := Sum(ys);
    var sumXY := Sum(Products(x, ys));
    var sumXSq := Sum(Products(x, x));
    var a := Div(Sub(Mul(n, sumXY), Mul(sumX, sumY)), Sub(Mul(n, sumXSq), Mul(sumX, sumX)));
    var b := Div(Sub(sumY, Mul(a, sumX)), n);
    Line(a, b)
  }

  /** Through a single point the regression has no slope: 0/0 gives NaN. */
  lemma SinglePointHasNoSlope(x: real, y: F64)
    ensures LeastSquares([x], [y]).slope.NaN?
  {
    assert Nums([x]) == [Num(x)];
    assert Sum([Num(x)]) == Num(x) by { assert [Num(x)][..0] == []; }
    var p := Products([Num(x)], [y]);
    assert p == [Mul(Num(x), y)];
    assert p[..0] == [];
    var q := Products([Num(x)], [Num(x)]);
    assert |q| == 1 && q[0] == Num(x * x);
    assert q[..0] == [];
  }

  // ---------------------------------------------------------------------------
  // The alternating fit of the batch variants

  /** `if self.B == 0.0 {self.B = 0.5;}`: an unset B starts at 0.5. */
  function SeedB(c: Coeffs): (r: Coeffs)
    ensures r.A == c.A && r.C == c.C
    ensures r.B == (if c.B == Num(0.0) then Num(0.5) else c.B)
  {
    if c.B == Num(0.0) then c.(B := Num(0.5)) else c
  }

  /** The linearised currents ln(A - I) of every point. */
  function LogGaps(currents: seq<real>, a: F64, m: Math): (r: seq<F64>)
    ensures |r| == |currents|
  {
    seq(|currents|, i requires 0 <= i < |currents| => Ln(m, Sub(a, Num(currents[i]))))
  }

  /** One pass of the batch fit: A := maxY + B, then B and C from the
      regression of ln(A - I) on V. */
  function BatchPass(voltages: seq<real>, currents: seq<real>, maxY: real, c: Coeffs, m: Math): Coeffs
    requires |voltages| == |currents|
  {
    var a := Add(Num(maxY), c.B);
    var l := LeastSquares(voltages, LogGaps(currents, a, m));
    Coeffs(a, Exp(m, l.intercept), l.slope)
  }

  /** `n` passes of the batch fit, starting from `c`. (The currents are part
      of the measure only so that a fixed pass count is not unrolled by the
      verifier's literal unfolding.) */
  function BatchPasses(voltages: seq<real>, currents: seq<real>, maxY: real, c: Coeffs, n: nat, m: Math): Coeffs
    requires |voltages| == |currents|
    decreases n, currents
  {
    if n == 0 then c else BatchPass(voltages, currents, maxY, BatchPasses(voltages, currents, maxY, c, n - 1, m), m)
  }

  /** Every pass starts by setting A to maxY plus the B left by the pass before. */
  lemma BatchPassesLastA(voltages: seq<real>, currents: seq<real>, maxY: real, c: Coeffs, n: nat, m: Math)
    requires |voltages| == |currents| && n >= 1
    ensures BatchPasses(voltages, currents, maxY, c, n, m).A
         == Add(Num(maxY), BatchPasses(voltages, currents, maxY, c, n - 1, m).B)
  {
  }

  /** The batch fit overwrites A and C before it reads them: after at least one
      pass, the result depends on the starting B only. */
  lemma {:induction false} BatchPassesForgetAC(voltages: seq<real>, currents: seq<real>, maxY: real,
                                               c: Coeffs, d: Coeffs, n: nat, m: Math)
    requires |voltages| == |currents| && n >= 1 && c.B == d.B
    ensures BatchPasses(voltages, currents, maxY, c, n, m) == BatchPasses(voltages, currents, maxY, d, n, m)
    decreases n
  {
    if n > 1 {
      BatchPassesForgetAC(voltages, currents, maxY, c, d, n - 1, m);
    }
  }

  /** `calculateCoefficients` of the batch variants: nothing on an empty curve;
      otherwise seed B, take maxY as the largest current, and run `passes`
      passes. */
  function BatchFit(voltages: seq<real>, currents: seq<real>, c: Coeffs, passes: nat, m: Math): (r: Coeffs)
    requires |voltages| == |currents|
    ensures currents == [] ==> r == c
  {
    if currents == [] then c
    else BatchPasses(voltages, currents, MinMaxBySort(currents).value.1, SeedB(c), passes, m)
  }

  /** With no passes a non-empty curve still gets its B seeded, and nothing else
      happens. */
  lemma BatchFitWithoutPasses(voltages: seq<real>, currents: seq<real>, c: Coeffs, m: Math)
    requires |voltages| == |currents| && currents != []
    ensures BatchFit(voltages, currents, c, 0, m) == SeedB(c)
  {
  }

  /** The last pass of a fit sets A to the largest current plus the B that the
      pass before left (or the seeded B, for a single pass). */
  lemma BatchFitLastA(voltages: seq<real>, currents: seq<real>, c: Coeffs, passes: nat, m: Math)
    requires |voltages| == |currents| && currents != [] && passes >= 1
    ensures var r := BatchFit(voltages, currents, c, passes, m);
      exists k :: 0 <= k < |currents| && r.A == Add(Num(currents[k]), BatchPasses(voltages, currents, currents[k], SeedB(c), passes - 1, m).B)
    ensures forall k :: 0 <= k < |currents| ==> currents[k] <= MinMaxBySort(currents).value.1
  {
    var maxY := MinMaxBySort(currents).value.1;
    var k :| 0 <= k < |currents| && currents[k] == maxY;
    BatchPassesLastA(voltages, currents, maxY, SeedB(c), passes, m);
  }

  /** On a non-empty curve, a fit right after `clearRegression` (A = B = C = 0)
      is the fit from B = 0.5, whatever A and C it starts with, as long as it
      runs at least one pass. */
  lemma FitAfterClearStartsAtHalf(voltages: seq<real>, currents: seq<real>, a: F64, c: F64, passes: nat, m: Math)
    requires |voltages| == |currents| && currents != [] && passes >= 1
    ensures BatchFit(voltages, currents, BatchCleared, passes, m)
         == BatchFit(voltages, currents, Coeffs(a, Num(0.5), c), passes, m)
  {
    assert SeedB(BatchCleared).B == Num(0.5) == SeedB(Coeffs(a, Num(0.5), c)).B;
    BatchPassesForgetAC(voltages, currents, MinMaxBySort(currents).value.1,
                        SeedB(BatchCleared), SeedB(Coeffs(a, Num(0.5), c)), passes, m);
  }

  // ---------------------------------------------------------------------------
  // Minimum and maximum by sorting a copy

  predicate Ascending(s: seq<real>) {
    forall i, j :: 0 <= i < j < |s| ==> s[i] <= s[j]
  }

  function Insert(x: real, s: seq<real>): seq<real>
    decreases |s|
  {
    if s == [] then [x]
    else if x <= s[0] then [x] + s
    else [s[0]] + Insert(x, s[1..])
  }

  lemma {:induction false} InsertKeepsValues(x: real, s: seq<real>)
    ensures multiset(Insert(x, s)) == multiset(s) + multiset{x}
    decreases |s|
  {
    if s != [] {
      assert s == [s[0]] + s[1..];
      if x > s[0] {
        InsertKeepsValues(x, s[1..]);
      }
    }
  }

  /** A value no larger than every element of an ascending sequence can go in front. */
  lemma ConsAscending(x: real, t: seq<real>)
    requires Ascending(t)
    requires forall k :: 0 <= k < |t| ==> x <= t[k]
    ensures Ascending([x] + t)
  {
    var r := [x] + t;
    forall i, j | 0 <= i < j < |r| ensures r[i] <= r[j] {
      assert r[j] == t[j - 1];
      if i > 0 {
        assert r[i] == t[i - 1];
      }
    }
  }

  lemma AscendingTail(s: seq<real>)
    requires Ascending(s) && s != []
    ensures Ascending(s[1..])
  {
    var tail := s[1..];
    forall i, j | 0 <= i < j < |tail| ensures tail[i] <= tail[j] {
      assert tail[i] == s[i + 1] && tail[j] == s[j + 1];
    }
  }

  /** Every element of `Insert(x, t)` is `x` or an element of `t`. */
  lemma InsertBelow(lo: real, x: real, t: seq<real>)
    requires lo <= x
    requires forall k :: 0 <= k < |t| ==> lo <= t[k]
    ensures forall k :: 0 <= k < |Insert(x, t)| ==> lo <= Insert(x, t)[k]
  {
    InsertKeepsValues(x, t);
    var r := Insert(x, t);
    forall k | 0 <= k < |r| ensures lo <= r[k] {
      assert r[k] in multiset(r);
      if r[k] != x {
        assert r[k] in multiset(t);
        var j :| 0 <= j < |t| && t[j] == r[k];
      }
    }
  }

  lemma {:induction false} InsertKeepsOrder(x: real, s: seq<real>)
    requires Ascending(s)
    ensures Ascending(Insert(x, s))
    decreases |s|
  {
    if s == [] {
    } else if x <= s[0] {
      ConsAscending(x, s);
    } else {
      AscendingTail(s);
      InsertKeepsOrder(x, s[1..]);
      InsertBelow(s[0], x, s[1..]);
      ConsAscending(s[0], Insert(x, s[1..]));
    }
  }

  /** The ascending copy that `sort_by(partial_cmp)` produces. */
  function SortedCopy(s: seq<real>): (r: seq<real>)
    ensures Ascending(r) && multiset(r) == multiset(s)
    decreases |s|
  {
    if s == [] then []
    else
      assert s == [s[0]] + s[1..];
      InsertKeepsOrder(s[0], SortedCopy(s[1..]));
      InsertKeepsValues(s[0], SortedCopy(s[1..]));
      Insert(s[0], SortedCopy(s[1..]))
  }

  /** The ends of an ascending permutation of `ys` are the extremes of `ys`. */
  lemma SortedEnds(s: seq<real>, ys: seq<real>)
    requires Ascending(s) && multiset(s) == multiset(ys) && |ys| > 0
    ensures |s| == |ys|
    ensures s[0] in ys && s[|s| - 1] in ys
    ensures forall i :: 0 <= i < |ys| ==> s[0] <= ys[i] <= s[|s| - 1]
  {
    assert |s| == |multiset(s)| == |ys|;
    assert s[0] in multiset(ys) && s[|s| - 1] in multiset(ys);
    forall i | 0 <= i < |ys| ensures s[0] <= ys[i] <= s[|s| - 1] {
      assert ys[i] in multiset(s);
      var j :| 0 <= j < |s| && s[j] == ys[i];
    }
  }

  /** `minMaxY` of the batch variants: sort a copy of the values and return its
      first and last elements; None for no values. */
  function MinMaxBySort(ys: seq<real>): (r: Option<(real, real)>)
    ensures r.None? <==> |ys| == 0
    ensures r.Some? ==> r.value.0 in ys && r.value.1 in ys
    ensures r.Some? ==> forall i :: 0 <= i < |ys| ==> r.value.0 <= ys[i] <= r.value.1
  {
    if |ys| == 0 then None
    else
      var s := SortedCopy(ys);
      SortedEnds(s, ys);
      Some((s[0], s[|s| - 1]))
  }
}
