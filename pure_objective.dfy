/** The pure-objective module variant: a module that contributes no constraint at all. */
module PureObjective {
  import opened Wrappers
  import opened Trajectories
  import opened ConstraintModules

  /** The constructor arguments the variant forwards to the general optimisation module. */
  datatype PureObjectiveModule = PureObjectiveModule(tHorizon: Option<nat>, weight: real, hasSlack: bool)

  /** The constructor: `t_horizon` and `weight` are forwarded unchanged and slack is always off. */
  function New(tHorizon: Option<nat>, weight: real): (m: PureObjectiveModule)
    ensures !m.hasSlack
    ensures m.tHorizon == tHorizon && m.weight == weight
  {
    PureObjectiveModule(tHorizon, weight, false)
  }

  /** `_constraint_core`: no constraint value, whatever the trajectory and the ids. */
  function ConstraintCore(m: PureObjectiveModule, traj: Trajectory, adoIds: seq<string>): (r: Option<seq<real>>)
    ensures r.None?
  {
    None
  }

  /** `_constraint_limits`: unbounded on both sides. */
  function ConstraintLimits(m: PureObjectiveModule): (r: (Bound, Bound))
    ensures r.0.None? && r.1.None?
  {
    (None, None)
  }

  /** `_num_constraints`: zero outputs for every id list. */
  function NumConstraints(m: PureObjectiveModule, adoIds: seq<string>): (n: nat)
    ensures n == 0
  {
    0
  }

  /** `compute_jacobian_analytically`: no analytic derivative. */
  function JacobianAnalytically(m: PureObjectiveModule, traj: Trajectory, adoIds: seq<string>): (r: Option<seq<real>>)
    ensures r.None?
  {
    None
  }

  /** The module as the NLP assembly sees it. */
  function Spec(m: PureObjectiveModule): (spec: ConstraintSpec)
    ensures spec.lower.None? && spec.upper.None?
    ensures forall ids :: spec.numConstraints(ids) == 0
  {
    ConstraintSpec(ConstraintLimits(m).0, ConstraintLimits(m).1, ids => NumConstraints(m, ids))
  }

  /** A pure-objective module adds no bounds to the NLP, for every list of ado ids. */
  lemma NoBounds(m: PureObjectiveModule, adoIds: seq<string>)
    ensures SpecBoundaries(Spec(m), adoIds) == Boundaries([], [])
  {
    var b := SpecBoundaries(Spec(m), adoIds);
    assert |b.lower| == 0 && |b.upper| == 0;
  }
}
