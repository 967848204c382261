/**
 * The streaming acquisition engine (PocketSolar/SolarCurve.rs): a bounded
 * window of calibrated measurements fed one serial text line at a time, the
 * stabilised alternating fit of I(V) = A - B*exp(C*V) that runs after every
 * accepted line, and the guarded MPP search.
 */
module SolarCurve {
  import opened Float
  import opened Regression
  import Text
  import Search

  datatype Measurement = Measurement(voltage: real, current: real, dutyCycle: real)

  /** Volts per ADC count: the 5 V reference over 1023 counts. */
  const Reference: real := 5.0 / 1023.0

  /** A line whose raw voltage plus raw current is below this is noise. */
  const NoiseFloor: real := 0.2

  /** Default window size. */
  const DefaultMaxPoints: nat := 100

  // ---------------------------------------------------------------------------
  // One serial line: "voltage,current,dutyCycle"

  /** `piece.parse::<f64>().unwrap_or(0.0)`. */
  function ParseOrZero(parse: string -> Option<real>, piece: string): real {
    match parse(piece) case Some(v) => v case None => 0.0
  }

  /** The numbers of a line: trimmed, split on ',', each piece parsed, and a
      piece that does not parse read as 0.0. `parse` is Rust's `str::parse::<f64>`. */
  function Fields(line: string, parse: string -> Option<real>): (r: seq<real>)
    ensures |r| == Text.Count(Text.Trim(line), ',') + 1
  {
    var pieces := Text.Split(Text.Trim(line), ',');
    seq(|pieces|, i requires 0 <= i < |pieces| => ParseOrZero(parse, pieces[i]))
  }

  datatype Verdict =
    | WrongFieldCount
    | Noise
    | Reading(voltage: real, current: real, dutyCycle: real)

  /** What the acquisition loop makes of one line, before the window is touched. */
  function Classify(line: string, parse: string -> Option<real>): (r: Verdict)
    ensures r.WrongFieldCount? <==> Text.Count(Text.Trim(line), ',') != 2
    ensures r.Noise? ==> Fields(line, parse)[0] + Fields(line, parse)[1] < NoiseFloor
    ensures r.Reading? ==> Fields(line, parse) == [r.voltage, r.current, r.dutyCycle]
    ensures r.Reading? ==> r.voltage + r.current >= NoiseFloor
  {
    var p := Fields(line, parse);
    if |p| != 3 then WrongFieldCount
    else if p[0] + p[1] < NoiseFloor then Noise
    else Reading(p[0], p[1], p[2])
  }

  /** A line written as "v,i,d" (no commas inside the pieces, no white space at
      its two ends) is read back as the three parsed pieces. */
  lemma ReadsBackRecord(v: string, i: string, d: string, parse: string -> Option<real>)
    requires ',' !in v && ',' !in i && ',' !in d
    requires v != [] && !Text.IsWhitespace(v[0])
    requires d != [] && !Text.IsWhitespace(d[|d| - 1])
    ensures var line := v + "," + i + "," + d;
      Fields(line, parse) == [ParseOrZero(parse, v), ParseOrZero(parse, i), ParseOrZero(parse, d)]
  {
    var line := v + "," + i + "," + d;
    Text.JoinThree(v, i, d, ',');
    assert line[0] == v[0] && line[|line| - 1] == d[|d| - 1];
    Text.TrimNoop(line);
    Text.SplitJoin([v, i, d], ',');
  }

  /** The calibrated measurement of a raw reading. */
  function Calibrate(raw: Verdict, Kv: real, Ki: real): Measurement
    requires raw.Reading?
  {
    Measurement(raw.voltage * Reference * Kv, raw.current * Reference * Ki, raw.dutyCycle)
  }

  /** The window after appending to it: the newest `maxPoints` elements. */
  function Evicted(s: seq<Measurement>, maxPoints: nat): (r: seq<Measurement>)
    ensures |r| == if |s| <= maxPoints then |s| else maxPoints
    ensures r == s[|s| - |r|..]
  {
    if |s| <= maxPoints then s else s[|s| - maxPoints..]
  }

  /** Appending then evicting keeps the order of the survivors, keeps the newest
      measurement last when the window has room for one, and keeps everything
      when the window is not full. */
  lemma PushThenEvict(old_: seq<Measurement>, x: Measurement, maxPoints: nat)
    ensures var w := Evicted(old_ + [x], maxPoints);
      && |w| <= maxPoints
      && (maxPoints >= 1 ==> w != [] && w[|w| - 1] == x)
      && (|old_| < maxPoints ==> w == old_ + [x])
      && (1 <= maxPoints <= |old_| ==> w == old_[|old_| + 1 - maxPoints..] + [x])
  {
    var w := Evicted(old_ + [x], maxPoints);
    if 1 <= maxPoints <= |old_| {
      assert (old_ + [x])[|old_| + 1 - maxPoints..] == old_[|old_| + 1 - maxPoints..] + [x];
    }
  }

  /** Evicting the oldest of `maxPoints + k` entries leaves exactly the last
      `maxPoints`, in their original order. */
  lemma EvictionDropsOldest(s: seq<Measurement>, maxPoints: nat, k: nat)
    requires |s| == maxPoints + k
    ensures Evicted(s, maxPoints) == s[k..]
    ensures forall j :: 0 <= j < maxPoints ==> Evicted(s, maxPoints)[j] == s[k + j]
  {
  }

  /** Dropping the oldest element of an overfull window does not change what
      eviction keeps. */
  lemma EvictFront(s: seq<Measurement>, maxPoints: nat)
    requires |s| > maxPoints
    ensures Evicted(s[1..], maxPoints) == Evicted(s, maxPoints)
  {
    assert s[1..][|s| - 1 - maxPoints..] == s[|s| - maxPoints..];
  }

  // ---------------------------------------------------------------------------
  // Views of the window

  function Voltages(points: seq<Measurement>): (r: seq<real>)
    ensures |r| == |points| && forall k :: 0 <= k < |points| ==> r[k] == points[k].voltage
  {
    seq(|points|, k requires 0 <= k < |points| => points[k].voltage)
  }

  function Currents(points: seq<Measurement>): (r: seq<real>)
    ensures |r| == |points| && forall k :: 0 <= k < |points| ==> r[k] == points[k].current
  {
    seq(|points|, k requires 0 <= k < |points| => points[k].current)
  }

  /** The running maximum seeded with 0.0 that `minMaxX`/`minMaxY` compute. */
  function SeededMax(vs: seq<real>): (r: real)
    ensures 0.0 <= r
    ensures forall k :: 0 <= k < |vs| ==> vs[k] <= r
    ensures r == 0.0 || r in vs
    decreases |vs|
  {
    if vs == [] then 0.0
    else
      var prev := SeededMax(vs[..|vs| - 1]);
      assert forall k :: 0 <= k < |vs| - 1 ==> vs[..|vs| - 1][k] == vs[k];
      if vs[|vs| - 1] > prev then vs[|vs| - 1] else prev
  }

  /** The running minimum seeded with 0.0. */
  function SeededMin(vs: seq<real>): (r: real)
    ensures r <= 0.0
    ensures forall k :: 0 <= k < |vs| ==> r <= vs[k]
    ensures r == 0.0 || r in vs
    decreases |vs|
  {
    if vs == [] then 0.0
    else
      var prev := SeededMin(vs[..|vs| - 1]);
      assert forall k :: 0 <= k < |vs| - 1 ==> vs[..|vs| - 1][k] == vs[k];
      if vs[|vs| - 1] < prev then vs[|vs| - 1] else prev
  }

  /** One more value updates the running extremes as the loops of
      `minMaxX`/`minMaxY` do. */
  lemma SeededStep(vs: seq<real>, k: nat)
    requires k < |vs|
    ensures SeededMax(vs[..k + 1]) == (if vs[k] > SeededMax(vs[..k]) then vs[k] else SeededMax(vs[..k]))
    ensures SeededMin(vs[..k + 1]) == (if vs[k] < SeededMin(vs[..k]) then vs[k] else SeededMin(vs[..k]))
  {
    assert vs[..k + 1][..k] == vs[..k];
  }

  /** The currents of the points whose voltage is below `bound`, in window order. */
  function CurrentsBelow(points: seq<Measurement>, bound: real): (r: seq<real>)
    ensures |r| <= |points|
    decreases |points|
  {
    if points == [] then []
    else
      var rest := CurrentsBelow(points[1..], bound);
      assert forall k :: 0 <= k < |points| - 1 ==> points[1..][k] == points[k + 1];
      if points[0].voltage < bound then [points[0].current] + rest else rest
  }

  /** `CurrentsBelow` keeps exactly the currents of the low-voltage points:
      each one it returns belongs to such a point, and each such point's
      current is among them. */
  lemma {:induction false} CurrentsBelowExact(points: seq<Measurement>, bound: real)
    ensures forall y :: y in CurrentsBelow(points, bound) ==>
      exists k :: 0 <= k < |points| && points[k].voltage < bound && points[k].current == y
    ensures forall k :: 0 <= k < |points| && points[k].voltage < bound ==>
      points[k].current in CurrentsBelow(points, bound)
    decreases |points|
  {
    if points != [] {
      CurrentsBelowExact(points[1..], bound);
      forall k | 1 <= k < |points| ensures points[1..][k - 1] == points[k] { }
    }
  }

  /** What the source calls `maxY`: the MEAN current of the points below 20% of
      the highest voltage (0/0, that is NaN, when there are none). */
  function BaselineCurrent(points: seq<Measurement>): F64 {
    MeanCurrentBelow(points, SeededMax(Voltages(points)) * 0.2)
  }

  /** The mean current of the points below `bound` volts. */
  function MeanCurrentBelow(points: seq<Measurement>, bound: real): F64 {
    var below := CurrentsBelow(points, bound);
    Div(Sum(Nums(below)), Num(|below| as real))
  }

  /** "maxY" is an average, not a maximum: for (0 V, a), (0 V, b), (10 V, 0 A)
      with 0 <= a < b it is (a + b) / 2, below the largest current b. */
  lemma BaselineIsAMean(a: real, b: real)
    requires 0.0 <= a < b
    ensures var w := [Measurement(0.0, a, 0.0), Measurement(0.0, b, 0.0), Measurement(10.0, 0.0, 0.0)];
      && BaselineCurrent(w) == Num((a + b) / 2.0)
      && SeededMax(Currents(w)) == b
      && (a + b) / 2.0 < b
  {
    var w := [Measurement(0.0, a, 0.0), Measurement(0.0, b, 0.0), Measurement(10.0, 0.0, 0.0)];
    assert SeededMax(Voltages(w)) == 10.0 by {
      var vs := Voltages(w);
      assert vs == [0.0, 0.0, 10.0];
      assert vs[..2] == [0.0, 0.0] && vs[..2][..1] == [0.0] && vs[..2][..1][..0] == [];
    }
    assert CurrentsBelow(w, 10.0 * 0.2) == [a, b] by {
      assert w[1..] == [Measurement(0.0, b, 0.0), Measurement(10.0, 0.0, 0.0)];
      assert w[1..][1..] == [Measurement(10.0, 0.0, 0.0)] && w[1..][1..][1..] == [];
      assert CurrentsBelow(w[1..][1..], 10.0 * 0.2) == [];
      assert CurrentsBelow(w[1..], 10.0 * 0.2) == [b];
    }
    assert Sum(Nums([a, b])) == Num(a + b) by {
      var n := Nums([a, b]);
      assert n == [Num(a), Num(b)];
      assert n[..1] == [Num(a)] && n[..1][..0] == [];
      assert Sum(n[..1]) == Num(a);
    }
    assert SeededMax(Currents(w)) == b by {
      var cs := Currents(w);
      assert cs == [a, b, 0.0];
      assert cs[..2] == [a, b] && cs[..2][..1] == [a] && cs[..2][..1][..0] == [];
    }
  }

  /** A window whose voltages are all positive has no point below a fifth of
      the largest one when it holds a single point: "maxY" is NaN then. */
  lemma LonePointHasNoBaseline(p: Measurement)
    requires p.voltage > 0.0
    ensures BaselineCurrent([p]).NaN?
  {
    assert Voltages([p]) == [p.voltage];
    assert [p.voltage][..0] == [];
    assert SeededMax([p.voltage]) == p.voltage;
    assert CurrentsBelow([p], p.voltage * 0.2) == [];
  }

  // ---------------------------------------------------------------------------
  // The stabilised fit

  /** The linearised currents ln|A - I| of every point. */
  function AbsLogGaps(points: seq<Measurement>, a: F64, m: Math): (r: seq<F64>)
    ensures |r| == |points|
  {
    seq(|points|, k requires 0 <= k < |points| => Ln(m, Abs(Sub(a, Num(points[k].current)))))
  }

  /** One pass of the four: shrink B when I(0) overshoots the baseline by
      more than 5%, set A := baseline + B, regress ln|A - I| on V, damp B by
      0.40, and rescale C by 0.96 times the ratio of the model's open-circuit
      voltage to the largest measured voltage. */
  function SolarPass(points: seq<Measurement>, maxY: F64, maxVoltage: real, c: Coeffs, m: Math): Coeffs {
    Refit(points, maxY, maxVoltage, ShrinkB(c, maxY, m), m)
  }

  /** The first step of a pass: B shrinks by 20% when the model's current at
      0 V is more than 5% above the baseline. */
  function ShrinkB(c: Coeffs, maxY: F64, m: Math): Coeffs {
    if Gt(CurrentAt(c, m, Num(0.0)), Mul(maxY, Num(1.05))) then c.(B := Mul(c.B, Num(0.8))) else c
  }

  /** The rest of a pass: A, then B and C from the regression. */
  function Refit(points: seq<Measurement>, maxY: F64, maxVoltage: real, c: Coeffs, m: Math): Coeffs {
    var a := Add(maxY, c.B);
    var l := LeastSquares(Voltages(points), AbsLogGaps(points, a, m));
    var b := Mul(Exp(m, l.intercept), Num(0.40));
    var maxVoltageAnalytic := Div(Sub(Ln(m, a), Ln(m, b)), l.slope);
    Coeffs(a, b, Mul(l.slope, Mul(Div(maxVoltageAnalytic, Num(maxVoltage)), Num(0.96))))
  }

  /** `n` stabilised passes from `c` (the points are in the measure so that
      the fixed four passes are not unrolled by literal unfolding). */
  function SolarPasses(points: seq<Measurement>, maxY: F64, maxVoltage: real, c: Coeffs, n: nat, m: Math): Coeffs
    decreases n, points
  {
    if n == 0 then c else SolarPass(points, maxY, maxVoltage, SolarPasses(points, maxY, maxVoltage, c, n - 1, m), m)
  }

  /** Number of passes per fit. */
  const Passes: nat := 4

  /** `calculateCoefficients`: four passes from the current model, or nothing
      at all on an empty window. */
  function SolarFit(points: seq<Measurement>, c: Coeffs, m: Math): (r: Coeffs)
    ensures points == [] ==> r == c
  {
    if points == [] then c
    else SolarPasses(points, BaselineCurrent(points), SeededMax(Voltages(points)), c, Passes, m)
  }

  /** Each pass sets A to the baseline plus the (possibly shrunk) B of the model
      it starts from. */
  lemma SolarPassSetsA(points: seq<Measurement>, maxY: F64, maxVoltage: real, c: Coeffs, m: Math)
    ensures var r := SolarPass(points, maxY, maxVoltage, c, m);
      r.A == Add(maxY, c.B) || r.A == Add(maxY, Mul(c.B, Num(0.8)))
  {
  }

  /** A fit of a single point at a positive voltage produces a NaN model. */
  lemma LonePointFitIsNaN(p: Measurement, c: Coeffs, m: Math)
    requires p.voltage > 0.0
    ensures SolarFit([p], c, m).A.NaN?
  {
    LonePointHasNoBaseline(p);
  }

  /** `update`'s first step: a model with a NaN in it is reset first. */
  function Restart(c: Coeffs): (r: Coeffs)
    ensures !AnyNaN(r)
    ensures !AnyNaN(c) ==> r == c
  {
    if AnyNaN(c) then StreamingCleared else c
  }

  // ---------------------------------------------------------------------------
  // The curve object

  class SolarCurve {
    var maxPoints: nat
    var points: seq<Measurement>
    var Ki: real
    var Kv: real
    var C: F64
    var A: F64
    var B: F64
    var MPPVoltage: real

    /** The defaults of the struct: room for 100 points, unit gains, B = 1. */
    constructor ()
      ensures maxPoints == DefaultMaxPoints && points == []
      ensures Ki == 1.0 && Kv == 1.0
      ensures A == Zero && B == Num(1.0) && C == Zero && MPPVoltage == 0.0
    {
      maxPoints := DefaultMaxPoints;
      points := [];
      Ki, Kv := 1.0, 1.0;
      C, A, B := Zero, Zero, Num(1.0);
      MPPVoltage := 0.0;
    }

    function Coefficients(): Coeffs
      reads this`A, this`B, this`C
    {
      Coeffs(A, B, C)
    }

    /** I(V) = A - B*exp(C*V) of the current model. */
    function CurrentAtVoltage(m: Math, voltage: F64): (r: F64)
      reads this`A, this`B, this`C
    {
      CurrentAt(Coefficients(), m, voltage)
    }

    /** P(V) = V*I(V) of the current model. */
    function PowerAtVoltage(m: Math, voltage: real): (r: F64)
      reads this`A, this`B, this`C
      ensures r == PowerCurve(Coefficients(), m)(voltage)
      ensures AnyNaN(Coefficients()) ==> r.NaN?
      ensures CurrentAtVoltage(m, Num(voltage)).Num? ==> r == Num(voltage * CurrentAtVoltage(m, Num(voltage)).val)
    {
      var current := CurrentAtVoltage(m, Num(voltage));
      assert current.Num? ==> Mul(Num(voltage), current) == Num(voltage * current.val);
      Mul(Num(voltage), current)
    }

    /** `minMaxX`: None on an empty window, else the voltage range seeded with
        [0, 0]. */
    method MinMaxX() returns (r: Option<(real, real)>)
      ensures r.None? <==> points == []
      ensures r.Some? ==> r.value == (SeededMin(Voltages(points)), SeededMax(Voltages(points)))
    {
      if |points| == 0 {
        return None;
      }
      var min, max := 0.0, 0.0;
      var k := 0;
      while k < |points|
        invariant k <= |points|
        invariant min == SeededMin(Voltages(points)[..k])
        invariant max == SeededMax(Voltages(points)[..k])
      {
        SeededStep(Voltages(points), k);
        if points[k].voltage > max { max := points[k].voltage; }
        if points[k].voltage < min { min := points[k].voltage; }
        k := k + 1;
      }
      assert Voltages(points)[..|points|] == Voltages(points);
      return Some((min, max));
    }

    /** `minMaxY`: None on an empty window, else the current range seeded with
        [0, 0]. */
    method MinMaxY() returns (r: Option<(real, real)>)
      ensures r.None? <==> points == []
      ensures r.Some? ==> r.value == (SeededMin(Currents(points)), SeededMax(Currents(points)))
    {
      if |points| == 0 {
        return None;
      }
      var min, max := 0.0, 0.0;
      var k := 0;
      while k < |points|
        invariant k <= |points|
        invariant min == SeededMin(Currents(points)[..k])
        invariant max == SeededMax(Currents(points)[..k])
      {
        SeededStep(Currents(points), k);
        if points[k].current > max { max := points[k].current; }
        if points[k].current < min { min := points[k].current; }
        k := k + 1;
      }
      assert Currents(points)[..|points|] == Currents(points);
      return Some((min, max));
    }

    /** `calculateCoefficients`: the four-pass stabilised fit; an empty window
        leaves A, B and C as they are. */
    method CalculateCoefficients(m: Math)
      modifies this`A, this`B, this`C
      ensures Coefficients() == SolarFit(points, old(Coefficients()), m)
    {
      if |points| > 0 {
        var maxVoltage, maxY := Baseline();
        RunPasses(maxY, maxVoltage, Passes, m);
      }
    }

    /** The fit loop: `n` stabilised passes from the current model. */
    method RunPasses(maxY: F64, maxVoltage: real, n: nat, m: Math)
      modifies this`A, this`B, this`C
      ensures Coefficients() == SolarPasses(points, maxY, maxVoltage, old(Coefficients()), n, m)
    {
      var pass := 0;
      while pass < n
        invariant pass <= n
        invariant Coefficients() == SolarPasses(points, maxY, maxVoltage, old(Coefficients()), pass, m)
      {
        StabilisedPass(maxY, maxVoltage, m);
        pass := pass + 1;
      }
    }

    /** The first half of `calculateCoefficients`: the highest voltage of the
        window, and the mean current of the points below a fifth of it. */
    method Baseline() returns (maxVoltage: real, maxY: F64)
      requires points != []
      ensures maxVoltage == SeededMax(Voltages(points))
      ensures maxY == MeanCurrentBelow(points, maxVoltage * 0.2)
    {
      var range := MinMaxX();
      maxVoltage := range.value.1;
      var pointsBelowPercent := CurrentsBelow(points, maxVoltage * 0.2);
      maxY := Div(Sum(Nums(pointsBelowPercent)), Num(|pointsBelowPercent| as real));
    }

    /** The body of the four-pass loop of `calculateCoefficients`. */
    method StabilisedPass(maxY: F64, maxVoltage: real, m: Math)
      modifies this`A, this`B, this`C
      ensures Coefficients() == SolarPass(points, maxY, maxVoltage, old(Coefficients()), m)
    {
      if Gt(CurrentAtVoltage(m, Num(0.0)), Mul(maxY, Num(1.05))) {
        B := Mul(B, Num(0.8));
      }
      RefitStep(maxY, maxVoltage, m);
    }

    /** The rest of the loop body: A := maxY + B, the regression of
        ln|A - I| on V, and the damped B and rescaled C. */
    method RefitStep(maxY: F64, maxVoltage: real, m: Math)
      modifies this`A, this`B, this`C
      ensures Coefficients() == Refit(points, maxY, maxVoltage, old(Coefficients()), m)
    {
      A := Add(maxY, B);
      var x := Voltages(points);
      var y := AbsLogGaps(points, A, m);
      var line := LeastSquares(x, y);
      C := line.slope;
      B := Mul(Exp(m, line.intercept), Num(0.40));
      var maxVoltageAnalytic := Div(Sub(Ln(m, A), Ln(m, B)), C);
      C := Mul(C, Mul(Div(maxVoltageAnalytic, Num(maxVoltage)), Num(0.96)));
    }

    /** `calculateMPP`: climb from 0 V in 0.01 V steps while the power
        strictly rises, giving up once past 1000 V. */
    method CalculateMPP(m: Math)
      modifies this`MPPVoltage
      ensures MPPVoltage == Search.Grid(Search.GuardedClimb(PowerCurve(Coefficients(), m), 0))
    {
      MPPVoltage := Search.GuardedSearch(PowerCurve(Coefficients(), m));
    }

    /** `update`: reset a model with a NaN in it, fit, then search the MPP. */
    method Update(m: Math)
      modifies this`A, this`B, this`C, this`MPPVoltage
      ensures Coefficients() == SolarFit(points, Restart(old(Coefficients())), m)
      ensures MPPVoltage == Search.Grid(Search.GuardedClimb(PowerCurve(Coefficients(), m), 0))
    {
      if A.NaN? || B.NaN? || C.NaN? {
        ClearRegression();
      }
      CalculateCoefficients(m);
      CalculateMPP(m);
    }

    /** `clearRegression`: A, B, C := 0, 1, 0. */
    method ClearRegression()
      modifies this`A, this`B, this`C
      ensures Coefficients() == StreamingCleared
    {
      A := Zero;
      B := Num(1.0);
      C := Zero;
    }

    /** `clear`: an empty window and the cleared model. */
    method Clear()
      modifies this`points, this`A, this`B, this`C
      ensures points == [] && Coefficients() == StreamingCleared
    {
      points := [];
      ClearRegression();
    }

    /** The body of the acquisition loop for one received line: parse it,
        drop it if malformed or noise, else calibrate, append, evict from the
        front down to `maxPoints`, and update the model. */
    method IngestLine(line: string, parse: string -> Option<real>, m: Math) returns (verdict: Verdict)
      modifies this`points, this`A, this`B, this`C, this`MPPVoltage
      ensures verdict == Classify(line, parse)
      ensures !verdict.Reading? ==>
        points == old(points) && Coefficients() == old(Coefficients()) && MPPVoltage == old(MPPVoltage)
      ensures verdict.Reading? ==>
        && points == Evicted(old(points) + [Calibrate(verdict, Kv, Ki)], maxPoints)
        && Coefficients() == SolarFit(points, Restart(old(Coefficients())), m)
        && MPPVoltage == Search.Grid(Search.GuardedClimb(PowerCurve(Coefficients(), m), 0))
    {
      var parts := Fields(line, parse);
      if |parts| != 3 {
        return WrongFieldCount;
      }
      if parts[0] + parts[1] < NoiseFloor {
        return Noise;
      }
      verdict := Reading(parts[0], parts[1], parts[2]);
      assert verdict == Classify(line, parse);
      Accept(Calibrate(verdict, Kv, Ki), m);
    }

    /** An accepted reading, already calibrated: push it into the window and
        update the model. */
    method Accept(measurement: Measurement, m: Math)
      modifies this`points, this`A, this`B, this`C, this`MPPVoltage
      ensures points == Evicted(old(points) + [measurement], maxPoints)
      ensures Coefficients() == SolarFit(points, Restart(old(Coefficients())), m)
      ensures MPPVoltage == Search.Grid(Search.GuardedClimb(PowerCurve(Coefficients(), m), 0))
    {
      Push(measurement);
      Update(m);
    }

    /** Append a measurement, then drop the oldest ones until at most
        `maxPoints` remain. */
    method Push(measurement: Measurement)
      modifies this`points
      ensures points == Evicted(old(points) + [measurement], maxPoints)
    {
      points := points + [measurement];
      while |points| > maxPoints
        invariant Evicted(points, maxPoints) == Evicted(old(points) + [measurement], maxPoints)
        decreases |points|
      {
        EvictFront(points, maxPoints);
        points := points[1..];
      }
    }
  }
}
