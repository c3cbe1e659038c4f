/** The general constraint module: bound broadcasting, the violation measure, the flat Jacobian
    layout with its zero fallback, and the cache of the last constraint value. */
module ConstraintModules {
  import opened Wrappers
  import opened Sequences
  import opened Trajectories

  /** A lower or upper bound; `None` means unbounded on that side. */
  type Bound = Option<real>

  /** One bound per constraint output, as handed to the NLP solver. */
  datatype Boundaries = Boundaries(lower: seq<Bound>, upper: seq<Bound>)

  /** The constraint part of a module: its scalar bounds and its output count per id list. */
  datatype ConstraintSpec = ConstraintSpec(lower: Bound, upper: Bound, numConstraints: seq<string> -> nat)

  /** A scalar (or missing) bound repeated once per output. */
  function Broadcast(b: Bound, n: nat): (r: seq<Bound>)
    ensures |r| == n
    ensures forall i :: 0 <= i < n ==> r[i] == b
  {
    seq(n, _ => b)
  }

  /** `constraint_boundaries`: both bounds broadcast to the number of outputs. */
  function BoundaryVectors(lower: Bound, upper: Bound, n: nat): (r: Boundaries)
    ensures |r.lower| == n && |r.upper| == n
    ensures forall i :: 0 <= i < n ==> r.lower[i] == lower && r.upper[i] == upper
  {
    Boundaries(Broadcast(lower, n), Broadcast(upper, n))
  }

  /** The boundaries of a module for a given list of ado ids: the raw scalar limits, one entry per
      output the module has for those ids. */
  function SpecBoundaries(spec: ConstraintSpec, adoIds: seq<string>): (r: Boundaries)
    ensures |r.lower| == |r.upper| == spec.numConstraints(adoIds)
    ensures forall i :: 0 <= i < |r.lower| ==> r.lower[i] == spec.lower && r.upper[i] == spec.upper
  {
    BoundaryVectors(spec.lower, spec.upper, spec.numConstraints(adoIds))
  }

  /** A value lies within its (inclusive) bounds; a missing bound never excludes it. */
  predicate InBounds(c: real, lower: Bound, upper: Bound)
  {
    (lower.None? || lower.value <= c) && (upper.None? || c <= upper.value)
  }

  /** `max(0, a)`. */
  function Positive(a: real): (r: real)
    ensures r >= 0.0
  {
    if a > 0.0 then a else 0.0
  }

  /** `max(0, lower - c)`, or 0 without a lower bound. */
  function BelowLower(c: real, lower: Bound): real
  {
    if lower.Some? then Positive(lower.value - c) else 0.0
  }

  /** `max(0, c - upper)`, or 0 without an upper bound. */
  function AboveUpper(c: real, upper: Bound): real
  {
    if upper.Some? then Positive(c - upper.value) else 0.0
  }

  /** `max(0, lower - c) + max(0, c - upper)`, where a missing bound contributes 0. */
  function Excess(c: real, lower: Bound, upper: Bound): (e: real)
    ensures e >= 0.0
    ensures e == 0.0 <==> InBounds(c, lower, upper)
  {
    BelowLower(c, lower) + AboveUpper(c, upper)
  }

  /** `_violation`: the sum of the excesses of all outputs. */
  function Violation(cs: seq<real>, lower: Bound, upper: Bound): (v: real)
    ensures v >= 0.0
  {
    if cs == [] then 0.0 else Excess(cs[0], lower, upper) + Violation(cs[1..], lower, upper)
  }

  /** The violation is zero exactly when every output lies within the inclusive bounds. */
  lemma {:induction false} ViolationZeroIff(cs: seq<real>, lower: Bound, upper: Bound)
    ensures Violation(cs, lower, upper) == 0.0 <==> forall i :: 0 <= i < |cs| ==> InBounds(cs[i], lower, upper)
  {
    if cs != [] {
      ViolationZeroIff(cs[1..], lower, upper);
      if forall i :: 0 <= i < |cs| - 1 ==> InBounds(cs[1..][i], lower, upper) {
        assert forall i :: 1 <= i < |cs| ==> InBounds(cs[i], lower, upper) by {
          forall i | 1 <= i < |cs| ensures InBounds(cs[i], lower, upper) {
            assert cs[i] == cs[1..][i - 1];
          }
        }
      }
    }
  }

  /** A single output overshooting its upper bound by `d` (all others in bounds) gives violation `d`. */
  lemma {:induction false} ViolationSingleOvershoot(cs: seq<real>, lower: Bound, upper: Bound, k: nat, d: real)
    requires k < |cs| && upper.Some? && d > 0.0
    requires cs[k] == upper.value + d
    requires lower.None? || lower.value <= cs[k]
    requires forall i :: 0 <= i < |cs| && i != k ==> InBounds(cs[i], lower, upper)
    ensures Violation(cs, lower, upper) == d
  {
    if k == 0 {
      ViolationZeroIff(cs[1..], lower, upper);
      assert forall i :: 0 <= i < |cs| - 1 ==> InBounds(cs[1..][i], lower, upper) by {
        forall i | 0 <= i < |cs| - 1 ensures InBounds(cs[1..][i], lower, upper) {
          assert cs[1..][i] == cs[i + 1];
        }
      }
    } else {
      assert InBounds(cs[0], lower, upper);
      forall i | 0 <= i < |cs| - 1 && i != k - 1 ensures InBounds(cs[1..][i], lower, upper) {
        assert cs[1..][i] == cs[i + 1];
      }
      ViolationSingleOvershoot(cs[1..], lower, upper, k - 1, d);
    }
  }

  /** A single output undershooting its lower bound by `d` (all others in bounds) gives violation `d`. */
  lemma {:induction false} ViolationSingleUndershoot(cs: seq<real>, lower: Bound, upper: Bound, k: nat, d: real)
    requires k < |cs| && lower.Some? && d > 0.0
    requires cs[k] == lower.value - d
    requires upper.None? || cs[k] <= upper.value
    requires forall i :: 0 <= i < |cs| && i != k ==> InBounds(cs[i], lower, upper)
    ensures Violation(cs, lower, upper) == d
  {
    if k == 0 {
      ViolationZeroIff(cs[1..], lower, upper);
      assert forall i :: 0 <= i < |cs| - 1 ==> InBounds(cs[1..][i], lower, upper) by {
        forall i | 0 <= i < |cs| - 1 ensures InBounds(cs[1..][i], lower, upper) {
          assert cs[1..][i] == cs[i + 1];
        }
      }
    } else {
      assert InBounds(cs[0], lower, upper);
      forall i | 0 <= i < |cs| - 1 && i != k - 1 ensures InBounds(cs[1..][i], lower, upper) {
        assert cs[1..][i] == cs[i + 1];
      }
      ViolationSingleUndershoot(cs[1..], lower, upper, k - 1, d);
    }
  }

  /** Multiplies a bound by a factor. */
  function ScaleBound(b: Bound, s: real): Bound
  {
    if b.Some? then Some(b.value * s) else None
  }

  lemma PositiveScale(a: real, s: real)
    requires s > 0.0
    ensures Positive(a * s) == Positive(a) * s
  {
    if a > 0.0 {
      assert a * s > 0.0;
    } else {
      assert a * s <= 0.0;
    }
  }

  lemma BelowLowerScale(c: real, lower: Bound, s: real)
    requires s > 0.0
    ensures BelowLower(c * s, ScaleBound(lower, s)) == BelowLower(c, lower) * s
  {
    if lower.Some? {
      assert lower.value * s - c * s == (lower.value - c) * s;
      PositiveScale(lower.value - c, s);
    }
  }

  lemma AboveUpperScale(c: real, upper: Bound, s: real)
    requires s > 0.0
    ensures AboveUpper(c * s, ScaleBound(upper, s)) == AboveUpper(c, upper) * s
  {
    if upper.Some? {
      assert c * s - upper.value * s == (c - upper.value) * s;
      PositiveScale(c - upper.value, s);
    }
  }

  /** Rescaling an output and both of its bounds by the same positive factor rescales its excess. */
  lemma ExcessScale(c: real, lower: Bound, upper: Bound, s: real)
    requires s > 0.0
    ensures Excess(c * s, ScaleBound(lower, s), ScaleBound(upper, s)) == Excess(c, lower, upper) * s
  {
    var lo, up := BelowLower(c, lower), AboveUpper(c, upper);
    BelowLowerScale(c, lower, s);
    AboveUpperScale(c, upper, s);
    assert lo * s + up * s == (lo + up) * s;
  }

  /** Reads the per-output gradients into one flat vector; row `i` fills `[i * n, (i + 1) * n)`. */
  lemma JacobianBlock(grads: seq<seq<real>>, n: nat, i: nat, j: nat)
    requires Rectangular(grads, n) && i < |grads| && j < n
    ensures |Concat(grads)| == |grads| * n
    ensures i * n <= i * n + j < (i + 1) * n <= |grads| * n
    ensures Concat(grads)[i * n + j] == grads[i][j]
  {
    ConcatAt(grads, n, i, j);
    assert (i + 1) * n == i * n + n;
    MulMonotone(i + 1, |grads|, n);
  }

  /** A constraint module over a planning horizon `T`; `core` stands for the subclass's `_compute`. */
  class ConstraintModule {
    const T: nat
    const core: (Trajectory, seq<string>) -> seq<real>
    const lower: Bound
    const upper: Bound
    const numConstraints: nat
    const gradientCondition: bool
    /** `_constraint_current`: the last value returned by `Constraint`. */
    var current: Option<seq<real>>

    constructor (horizon: nat, core: (Trajectory, seq<string>) -> seq<real>, lower: Bound, upper: Bound,
                 numConstraints: nat, gradientCondition: bool)
      requires horizon >= 1
      ensures T == horizon && this.core == core && this.lower == lower && this.upper == upper
      ensures this.numConstraints == numConstraints && this.gradientCondition == gradientCondition
      ensures current == None
    {
      T := horizon;
      this.core := core;
      this.lower := lower;
      this.upper := upper;
      this.numConstraints := numConstraints;
      this.gradientCondition := gradientCondition;
      current := None;
    }

    /** `constraint`: evaluates the module and caches the value it returns. */
    method Constraint(traj: Trajectory, adoIds: seq<string>) returns (c: seq<real>)
      requires |traj| == T + 1
      modifies this
      ensures c == core(traj, adoIds)
      ensures current == Some(c)
      ensures ViolationInternal() == ComputeViolation(traj, adoIds)
    {
      c := core(traj, adoIds);
      current := Some(c);
    }

    /** `jacobian`: a zero vector of `outputs * n` entries, filled block by block with the
        gradient of each output (given by `grads`) when the outputs depend on the trajectory. */
    method Jacobian(traj: Trajectory, adoIds: seq<string>, n: nat, requiresGrad: bool, grads: seq<seq<real>>)
      returns (jac: array<real>)
      requires |traj| == T + 1
      requires gradientCondition ==> requiresGrad
      requires requiresGrad ==> |grads| == |core(traj, adoIds)| && Rectangular(grads, n)
      ensures fresh(jac)
      ensures jac.Length == |core(traj, adoIds)| * n
      ensures requiresGrad ==> jac[..] == Concat(grads)
      ensures !requiresGrad ==> jac[..] == Zeros(jac.Length)
    {
      var m := |core(traj, adoIds)|;
      jac := new real[m * n](_ => 0.0);
      if requiresGrad {
        var i := 0;
        while i < m
          invariant 0 <= i <= m
          invariant |Concat(grads[..i])| == i * n
          invariant i * n <= m * n
          invariant jac[..i * n] == Concat(grads[..i])
        {
          assert (i + 1) * n == i * n + n;
          MulMonotone(i + 1, m, n);
          ghost var done := jac[..i * n];
          forall j | 0 <= j < n {
            jac[i * n + j] := grads[i][j];
          }
          assert jac[..(i + 1) * n] == done + grads[i];
          ConcatPrefixStep(grads, i);
          i := i + 1;
        }
        assert grads[..m] == grads;
        assert jac[..] == jac[..m * n];
      } else {
        assert jac[..] == Zeros(jac.Length);
      }
    }

    /** `constraint_boundaries`: the scalar bounds broadcast to `num_constraints` entries each. */
    function ConstraintBoundaries(): (b: Boundaries)
      ensures |b.lower| == numConstraints && |b.upper| == numConstraints
      ensures forall i :: 0 <= i < numConstraints ==> b.lower[i] == lower && b.upper[i] == upper
    {
      BoundaryVectors(lower, upper, numConstraints)
    }

    /** `compute_violation`: evaluates a fresh trajectory of any length; the cache is not read. */
    function ComputeViolation(traj: Trajectory, adoIds: seq<string>): (v: real)
      ensures v >= 0.0
      ensures v == 0.0 <==> forall i :: 0 <= i < |core(traj, adoIds)| ==> InBounds(core(traj, adoIds)[i], lower, upper)
    {
      ViolationZeroIff(core(traj, adoIds), lower, upper);
      Violation(core(traj, adoIds), lower, upper)
    }

    /** `compute_violation_internal`: the violation of the cached value. */
    function ViolationInternal(): (v: real)
      reads this
      requires current.Some?
      ensures v >= 0.0
      ensures v == 0.0 <==> forall i :: 0 <= i < |current.value| ==> InBounds(current.value[i], lower, upper)
    {
      ViolationZeroIff(current.value, lower, upper);
      Violation(current.value, lower, upper)
    }

    /** `inf_current`: the current infeasibility, read from the cache only. */
    function InfCurrent(): (v: real)
      reads this
      requires current.Some?
      ensures v == ViolationInternal()
      ensures v == Violation(current.value, lower, upper)
    {
      ViolationInternal()
    }
  }
}
