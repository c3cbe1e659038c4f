/** The speed-limit constraint: every velocity component of the ego trajectory lies within the
    ego's speed limits, with an analytic Jacobian built from a 0/1 selector matrix. */
module SpeedLimits {
  import opened Wrappers
  import opened Sequences
  import opened Trajectories
  import opened ConstraintModules

  /** A speed-limit module over `tHorizon` steps for an ego whose speed limits are (vMin, vMax). */
  datatype SpeedLimitModule = SpeedLimitModule(tHorizon: nat, vMin: real, vMax: real)

  /** `_constraint_core`: the velocity columns of every row, flattened row by row. */
  function ConstraintCore(traj: Trajectory): (r: seq<real>)
    ensures |r| == 2 * |traj|
    ensures forall t :: 0 <= t < |traj| ==> r[2 * t] == traj[t].vx && r[2 * t + 1] == traj[t].vy
  {
    if traj == [] then []
    else
      var rest := ConstraintCore(traj[1..]);
      assert forall t :: 1 <= t < |traj| ==> traj[t] == traj[1..][t - 1];
      [traj[0].vx, traj[0].vy] + rest
  }

  /** `_num_constraints`: two velocity components per trajectory row, whatever the ado ids. */
  function NumConstraints(m: SpeedLimitModule, adoIds: seq<string>): (n: nat)
    ensures n >= 2 && n % 2 == 0
  {
    2 * (m.tHorizon + 1)
  }

  /** A trajectory of T + 1 rows yields exactly `NumConstraints` outputs, for every id list. */
  lemma CoreMatchesCount(m: SpeedLimitModule, traj: Trajectory, adoIds: seq<string>)
    requires |traj| == m.tHorizon + 1
    ensures |ConstraintCore(traj)| == NumConstraints(m, adoIds) == NumConstraints(m, [])
  {
  }

  /** `_constraint_limits`: the ego's speed limits. */
  function ConstraintLimits(m: SpeedLimitModule): (r: (Bound, Bound))
    ensures r == (Some(m.vMin), Some(m.vMax))
  {
    (Some(m.vMin), Some(m.vMax))
  }

  /** The module as the NLP assembly sees it. */
  function Spec(m: SpeedLimitModule): (spec: ConstraintSpec)
    ensures spec.lower == Some(m.vMin) && spec.upper == Some(m.vMax)
    ensures forall ids :: spec.numConstraints(ids) == 2 * (m.tHorizon + 1)
  {
    ConstraintSpec(ConstraintLimits(m).0, ConstraintLimits(m).1, ids => NumConstraints(m, ids))
  }

  /** `gradient_condition`: the velocities are part of the trajectory, so a gradient always exists. */
  predicate GradientCondition(m: SpeedLimitModule)
    ensures GradientCondition(m)
  {
    true
  }

  /** `normalize`: divides by the upper speed limit; requires symmetric limits. */
  function Normalize(m: SpeedLimitModule, x: real): (r: real)
    requires m.vMin == m.vMax || m.vMin == -m.vMax
    requires m.vMax != 0.0
    ensures r * m.vMax == x
  {
    x / m.vMax
  }

  /** A value within the symmetric limits normalises into [-1, 1]. */
  lemma NormalizeRange(m: SpeedLimitModule, x: real)
    requires m.vMin == -m.vMax && m.vMax > 0.0
    requires m.vMin <= x <= m.vMax
    ensures -1.0 <= Normalize(m, x) <= 1.0
  {
    var r := Normalize(m, x);
    if r > 1.0 {
      assert r * m.vMax > m.vMax;
    }
    if r < -1.0 {
      assert r * m.vMax < -m.vMax;
    }
  }

  /** The violation of a trajectory, normalised as the module reports it. */
  function SpeedViolation(m: SpeedLimitModule, traj: Trajectory): (v: real)
    requires m.vMin == -m.vMax && m.vMax > 0.0
    ensures v >= 0.0
  {
    var raw := Violation(ConstraintCore(traj), Some(m.vMin), Some(m.vMax));
    assert Normalize(m, raw) * m.vMax == raw;
    Normalize(m, raw)
  }

  /** Velocities anywhere within the limits, including exactly at either one, give zero violation. */
  lemma WithinLimitsNoViolation(m: SpeedLimitModule, traj: Trajectory)
    requires m.vMin == -m.vMax && m.vMax > 0.0
    requires forall t :: 0 <= t < |traj| ==> m.vMin <= traj[t].vx <= m.vMax && m.vMin <= traj[t].vy <= m.vMax
    ensures SpeedViolation(m, traj) == 0.0
  {
    var cs := ConstraintCore(traj);
    forall i | 0 <= i < |cs| ensures InBounds(cs[i], Some(m.vMin), Some(m.vMax)) {
      var t := i / 2;
      if i % 2 == 0 {
        assert i == 2 * t && cs[i] == traj[t].vx;
      } else {
        assert i == 2 * t + 1 && cs[i] == traj[t].vy;
      }
    }
    ViolationZeroIff(cs, Some(m.vMin), Some(m.vMax));
  }

  /** Raising one x-velocity `d` above the upper limit, all else in limits, gives violation `normalize(d)`. */
  lemma OvershootViolation(m: SpeedLimitModule, traj: Trajectory, k: nat, d: real)
    requires m.vMin == -m.vMax && m.vMax > 0.0 && d > 0.0
    requires k < |traj| && traj[k].vx == m.vMax + d
    requires m.vMin <= traj[k].vy <= m.vMax
    requires forall t :: 0 <= t < |traj| && t != k ==> m.vMin <= traj[t].vx <= m.vMax && m.vMin <= traj[t].vy <= m.vMax
    ensures SpeedViolation(m, traj) == Normalize(m, d)
  {
    var cs := ConstraintCore(traj);
    forall i | 0 <= i < |cs| && i != 2 * k ensures InBounds(cs[i], Some(m.vMin), Some(m.vMax)) {
      var t := i / 2;
      if i % 2 == 0 {
        assert i == 2 * t && cs[i] == traj[t].vx;
      } else {
        assert i == 2 * t + 1 && cs[i] == traj[t].vy;
      }
    }
    ViolationSingleOvershoot(cs, Some(m.vMin), Some(m.vMax), 2 * k, d);
  }

  /** The column that row `r` of the selector picks: the velocity component `r % 2` of row `r / 2`. */
  function SelectedColumn(r: nat): nat
  {
    StateSize * (r / 2) + 2 + r % 2
  }

  /** `dg_dx`: the 2(T+1) x 5(T+1) derivative of the constraint with respect to the flat trajectory. */
  function Selector(tHorizon: nat): (s: seq<seq<real>>)
    ensures |s| == 2 * (tHorizon + 1) && Rectangular(s, StateSize * (tHorizon + 1))
  {
    seq(2 * (tHorizon + 1), r requires 0 <= r < 2 * (tHorizon + 1) =>
      seq(StateSize * (tHorizon + 1), c requires 0 <= c < StateSize * (tHorizon + 1) =>
        if c == SelectedColumn(r) then 1.0 else 0.0))
  }

  lemma SelectedColumnBound(tHorizon: nat, r: nat)
    requires r < 2 * (tHorizon + 1)
    ensures SelectedColumn(r) < StateSize * (tHorizon + 1)
  {
    MulMonotone(r / 2 + 1, tHorizon + 1, StateSize);
  }

  /** Row `2t + k` of `dg_dx` holds a single 1, at column `5t + 2 + k`. */
  lemma SelectorRow(tHorizon: nat, t: nat, k: nat)
    requires t <= tHorizon && k < 2
    ensures 2 * t + k < 2 * (tHorizon + 1)
    ensures SelectedColumn(2 * t + k) == StateSize * t + 2 + k
    ensures IsOneHot(Selector(tHorizon)[2 * t + k], StateSize * t + 2 + k)
  {
    assert (2 * t + k) / 2 == t && (2 * t + k) % 2 == k;
    SelectedColumnBound(tHorizon, 2 * t + k);
  }

  /** The rows of a two-dimensional array. */
  function ArrayRows(a: array2<real>): (rows: seq<seq<real>>)
    reads a
    ensures |rows| == a.Length0 && Rectangular(rows, a.Length1)
  {
    seq(a.Length0, i requires 0 <= i < a.Length0 reads a =>
      seq(a.Length1, j requires 0 <= j < a.Length1 reads a => a[i, j]))
  }

  /** Builds `dg_dx` by writing a 1 per (time step, velocity component) into a zero matrix. */
  method BuildSelector(tHorizon: nat) returns (dg: array2<real>)
    ensures fresh(dg)
    ensures ArrayRows(dg) == Selector(tHorizon)
  {
    var rows, cols := 2 * (tHorizon + 1), StateSize * (tHorizon + 1);
    dg := new real[rows, cols]((i, j) => 0.0);
    var t := 0;
    while t < tHorizon + 1
      invariant 0 <= t <= tHorizon + 1
      invariant dg.Length0 == rows && dg.Length1 == cols
      invariant forall r, c :: 0 <= r < 2 * t && 0 <= c < cols ==> dg[r, c] == (if c == SelectedColumn(r) then 1.0 else 0.0)
      invariant forall r, c :: 2 * t <= r < rows && 0 <= c < cols ==> dg[r, c] == 0.0
    {
      var k := 0;
      while k < 2
        invariant 0 <= k <= 2
        invariant forall r, c :: 0 <= r < 2 * t + k && 0 <= c < cols ==> dg[r, c] == (if c == SelectedColumn(r) then 1.0 else 0.0)
        invariant forall r, c :: 2 * t + k <= r < rows && 0 <= c < cols ==> dg[r, c] == 0.0
      {
        SelectorRow(tHorizon, t, k);
        dg[2 * t + k, t * StateSize + 2 + k] := 1.0;
        k := k + 1;
      }
      t := t + 1;
    }
    assert forall r :: 0 <= r < rows ==> ArrayRows(dg)[r] == Selector(tHorizon)[r];
  }

  /** `dg_dx` applied to the flat trajectory gives back the constraint value: the constraint is
      linear in the trajectory and the selector is exactly its derivative. */
  lemma SelectorExtractsVelocities(tHorizon: nat, traj: Trajectory)
    requires |traj| == tHorizon + 1
    ensures MatVec(Selector(tHorizon), FlatStates(traj)) == ConstraintCore(traj)
  {
    var x := FlatStates(traj);
    var lhs := MatVec(Selector(tHorizon), x);
    var cs := ConstraintCore(traj);
    forall r | 0 <= r < |lhs| ensures lhs[r] == cs[r] {
      var t, k := r / 2, r % 2;
      assert r == 2 * t + k;
      SelectorRow(tHorizon, t, k);
      DotOneHot(Selector(tHorizon)[r], x, StateSize * t + 2 + k);
      ConcatAt(Rows(traj), StateSize, t, 2 + k);
    }
  }

  /** `compute_jacobian_analytically`: `dg_dx * dx_du` flattened, where `dxdu` (5(T+1) rows of
      `w` entries) stands for the ego's `dx_du`. */
  method ComputeJacobianAnalytically(m: SpeedLimitModule, traj: Trajectory, dxdu: seq<seq<real>>, w: nat)
    returns (jac: seq<real>)
    requires |traj| == m.tHorizon + 1
    requires |dxdu| == StateSize * (m.tHorizon + 1) && Rectangular(dxdu, w)
    ensures |jac| == NumConstraints(m, []) * w
    ensures jac == Concat(MatMul(Selector(m.tHorizon), dxdu, w))
  {
    var dg := BuildSelector(m.tHorizon);
    var product := MatMul(ArrayRows(dg), dxdu, w);
    ConcatLength(product, w);
    jac := Concat(product);
  }

  /** Entry (row 2t+k, column c) of the analytic Jacobian is entry c of the velocity row 5t+2+k of dx_du. */
  lemma AnalyticJacobianEntry(m: SpeedLimitModule, dxdu: seq<seq<real>>, w: nat, t: nat, k: nat, c: nat)
    requires |dxdu| == StateSize * (m.tHorizon + 1) && Rectangular(dxdu, w)
    requires t <= m.tHorizon && k < 2 && c < w
    ensures (2 * t + k) * w + c < |Concat(MatMul(Selector(m.tHorizon), dxdu, w))|
    ensures Concat(MatMul(Selector(m.tHorizon), dxdu, w))[(2 * t + k) * w + c] == dxdu[StateSize * t + 2 + k][c]
  {
    var product := MatMul(Selector(m.tHorizon), dxdu, w);
    SelectorRow(m.tHorizon, t, k);
    ConcatAt(product, w, 2 * t + k, c);
    DotOneHot(Selector(m.tHorizon)[2 * t + k], Column(dxdu, w, c), StateSize * t + 2 + k);
  }
}
