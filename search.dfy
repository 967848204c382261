/**
 * The two loops over evenly spaced voltages that the program runs on a fitted
 * model: the forward line search for the maximum power point, and the export
 * loops that write rows until the current turns negative.
 */
module Search {
  import opened Float

  /** MPP search step, in volts. */
  const Step: real := 0.01

  /** The guarded search gives up once the voltage passes this bound. */
  const Ceiling: real := 1000.0

  /** The last step count whose voltage is still at most `Ceiling`. */
  const LastStepBelowCeiling: nat := 100000

  /** The voltage after `k` steps from 0. Exact: rounding of the repeated
      `+= 0.01` in doubles is not modelled. */
  function Grid(k: nat): real {
    k as real * Step
  }

  /** The search climbs from step `k` to `k + 1` only when the power strictly rises. */
  predicate Rises(power: real -> F64, k: nat) {
    Gt(power(Grid(k + 1)), power(Grid(k)))
  }

  /** Steps taken by the guarded search (`while P(V+d) > P(V) { V += d; if V > 1000 {break} }`)
      from step `k`. */
  function GuardedClimb(power: real -> F64, k: nat): (r: nat)
    requires k <= LastStepBelowCeiling
    ensures k <= r <= LastStepBelowCeiling + 1
    ensures forall j :: k <= j < r ==> Rises(power, j)
    ensures r <= LastStepBelowCeiling ==> !Rises(power, r)
    decreases LastStepBelowCeiling - k
  {
    if !Rises(power, k) then k
    else if k + 1 > LastStepBelowCeiling then k + 1
    else GuardedClimb(power, k + 1)
  }

  /** The guarded search does not leave a step at which the power does not rise. */
  lemma GuardedClimbStays(power: real -> F64, k: nat)
    requires k <= LastStepBelowCeiling && !Rises(power, k)
    ensures GuardedClimb(power, k) == k
  {
  }

  /** The guarded search always ends at a voltage between 0 and 1000 + 0.01
      that is a whole number of steps; below the ceiling it ends where the
      power stops rising. */
  lemma GuardedSearchOutcome(power: real -> F64)
    ensures var v := Grid(GuardedClimb(power, 0));
      && 0.0 <= v <= Ceiling + Step
      && (v <= Ceiling ==> !Gt(power(v + Step), power(v)))
  {
    var r := GuardedClimb(power, 0);
    assert Grid(r + 1) == Grid(r) + Step;
  }

  /** The guarded search loop: from 0 V, step while the power strictly rises,
      and give up once past the ceiling. */
  method GuardedSearch(power: real -> F64) returns (v: real)
    ensures v == Grid(GuardedClimb(power, 0))
  {
    v := 0.0;
    var delta := Step;
    ghost var k: nat := 0;
    while Gt(power(v + delta), power(v))
      invariant k <= LastStepBelowCeiling
      invariant v == Grid(k)
      invariant GuardedClimb(power, 0) == GuardedClimb(power, k)
      decreases LastStepBelowCeiling - k
    {
      assert Grid(k) + delta == Grid(k + 1);
      v := v + delta;
      k := k + 1;
      if v > Ceiling {
        break;
      }
    }
  }

  /** Steps taken by the unguarded search (`while P(V+d) > P(V) { V += d; }`)
      from step `k`, cut off after `fuel` steps. The source has no such bound. */
  function Climb(power: real -> F64, k: nat, fuel: nat): (r: nat)
    ensures k <= r <= k + fuel
    ensures forall j :: k <= j < r ==> Rises(power, j)
    ensures r < k + fuel ==> !Rises(power, r)
    decreases fuel
  {
    if fuel == 0 || !Rises(power, k) then k else Climb(power, k + 1, fuel - 1)
  }

  /** The unguarded search loop (`while P(V+d) > P(V) { V += d; }`), cut off
      after `fuel` steps; `finished` says whether the power had stopped rising
      where it ended, that is, whether the source's loop would have returned
      there. */
  method UnguardedSearch(power: real -> F64, fuel: nat) returns (v: real, finished: bool)
    ensures v == Grid(Climb(power, 0, fuel))
    ensures finished <==> !Rises(power, Climb(power, 0, fuel))
  {
    v := 0.0;
    var delta := Step;
    var k: nat := 0;
    while k < fuel && Gt(power(v + delta), power(v))
      invariant k <= fuel && v == Grid(k)
      invariant Climb(power, 0, fuel) == Climb(power, k, fuel - k)
      decreases fuel - k
    {
      assert Grid(k) + delta == Grid(k + 1);
      v := v + delta;
      k := k + 1;
    }
    assert Grid(k) + delta == Grid(k + 1);
    finished := !Gt(power(v + delta), power(v));
  }

  /** Where the unguarded search returns, the voltage is a non-negative whole
      number of steps and the power no longer rises one step further. */
  lemma UnguardedSearchOutcome(power: real -> F64, fuel: nat)
    requires !Rises(power, Climb(power, 0, fuel))
    ensures var v := Grid(Climb(power, 0, fuel));
      0.0 <= v && !Gt(power(v + Step), power(v))
  {
    var r := Climb(power, 0, fuel);
    assert Grid(r + 1) == Grid(r) + Step;
  }

  /** When the guarded search stops because the power stops rising, the
      unguarded search, given enough steps, stops at the same voltage. */
  lemma ClimbAgreesBelowCeiling(power: real -> F64, fuel: nat)
    requires GuardedClimb(power, 0) <= LastStepBelowCeiling
    requires GuardedClimb(power, 0) <= fuel
    ensures Climb(power, 0, fuel) == GuardedClimb(power, 0)
  {
  }

  /** On a power curve that rises at every step, the unguarded search uses up
      any number of steps it is given: it never stops. */
  lemma ClimbNeverStopsOnRisingPower(power: real -> F64, fuel: nat)
    requires forall j: nat :: Rises(power, j)
    ensures Climb(power, 0, fuel) == fuel
  {
  }

  /** Rows an export loop writes from row `i` on: it stops after row
      `limit - 1`, or right after the first row whose current is negative. */
  function RowsWritten(current: nat -> F64, i: nat, limit: nat): (k: nat)
    requires i <= limit
    ensures i <= k <= limit
    ensures forall j :: i <= j < k - 1 ==> !Lt(current(j), Zero)
    ensures k < limit ==> i < k && Lt(current(k - 1), Zero)
    decreases limit - i
  {
    if i == limit then i
    else if Lt(current(i), Zero) then i + 1
    else RowsWritten(current, i + 1, limit)
  }

  /** A negative current at row `j` ends the export there, whatever follows. */
  lemma {:induction false} RowsStopAtFirstNegative(current: nat -> F64, i: nat, j: nat, limit: nat)
    requires i <= j < limit
    requires Lt(current(j), Zero)
    requires forall t :: i <= t < j ==> !Lt(current(t), Zero)
    ensures RowsWritten(current, i, limit) == j + 1
    decreases j - i
  {
    if i < j {
      RowsStopAtFirstNegative(current, i + 1, j, limit);
    }
  }

  /** An export whose current never turns negative writes every row up to the
      limit: the break never fires. */
  lemma {:induction false} RowsRunToLimit(current: nat -> F64, i: nat, limit: nat)
    requires i <= limit
    requires forall t :: i <= t < limit ==> !Lt(current(t), Zero)
    ensures RowsWritten(current, i, limit) == limit
    decreases limit - i
  {
    if i < limit {
      RowsRunToLimit(current, i + 1, limit);
    }
  }
}
