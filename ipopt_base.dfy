/** The IPOPT driver over optimisation modules that each report their constraint boundaries for the
    ado ids of the call. */
module IpoptBase {
  import opened Wrappers
  import opened Sequences
  import opened ConstraintModules
  import opened NlpAssembly
  import SpeedLimits
  import PureObjective

  /** The problem `_optimize` hands to IPOPT: every module's `constraint_boundaries(ado_ids)`
      concatenated in module order; the Hessian is always approximated. */
  function AssembleNlp(z0: seq<real>, lb: seq<real>, ub: seq<real>, specs: seq<ConstraintSpec>,
                       adoIds: seq<string>, tag: string, approxJacobian: bool): (nlp: Nlp)
    ensures nlp.n == |z0| && nlp.lb == lb && nlp.ub == ub
    ensures nlp.m == |nlp.cl| == |nlp.cu| == SumNat(Counts(specs, adoIds))
    ensures nlp.problem == IpoptProblem(tag, Some(adoIds))
    ensures nlp.approximateJacobian == approxJacobian && nlp.approximateHessian
  {
    ModuleBoundsLength(specs, adoIds);
    var bs := ModuleBoundaries(specs, adoIds);
    var cl := Concat(Lowers(bs));
    Nlp(|z0|, |cl|, lb, ub, cl, Concat(Uppers(bs)), IpoptProblem(tag, Some(adoIds)), approxJacobian, true)
  }

  /** The assembled problem has one constraint per module output for these ids, as many lower as
      upper bounds, and entry `j` of module `k`'s block carries that module's bounds. */
  lemma AssembledNlpLayout(z0: seq<real>, lb: seq<real>, ub: seq<real>, specs: seq<ConstraintSpec>,
                           adoIds: seq<string>, tag: string, approxJacobian: bool, k: nat, j: nat)
    requires k < |specs| && j < specs[k].numConstraints(adoIds)
    ensures var nlp := AssembleNlp(z0, lb, ub, specs, adoIds, tag, approxJacobian);
      nlp.m == |nlp.cl| == |nlp.cu| == SumNat(Counts(specs, adoIds))
    ensures var nlp := AssembleNlp(z0, lb, ub, specs, adoIds, tag, approxJacobian);
      var at := SumNat(Counts(specs[..k], adoIds)) + j;
      at < nlp.m && nlp.cl[at] == specs[k].lower && nlp.cu[at] == specs[k].upper
  {
    ModuleBoundsLength(specs, adoIds);
    ModuleBoundsBlock(specs, adoIds, k, j);
  }

  /** Every callback IPOPT makes on the assembled problem reaches the solver with the tag and the ado
      ids of the `_optimize` call. */
  lemma CallbacksSeeCallContext<R>(z0: seq<real>, lb: seq<real>, ub: seq<real>, specs: seq<ConstraintSpec>,
                                   adoIds: seq<string>, tag: string, approxJacobian: bool,
                                   callback: Callback<R>, z: seq<real>)
    ensures Forward(AssembleNlp(z0, lb, ub, specs, adoIds, tag, approxJacobian).problem, callback, z)
         == callback(z, tag, Some(adoIds))
  {
  }

  /** `_optimize`: collect the modules' boundaries for the ado ids, build the problem, solve it from
      `z0` and return the solution as rows of 2 with the objective there, evaluated with the same ids.
      `solve` stands for IPOPT; `objective` for the solver's objective function. */
  method Optimize(z0: seq<real>, lb: seq<real>, ub: seq<real>, specs: seq<ConstraintSpec>,
                  adoIds: seq<string>, tag: string, approxJacobian: bool,
                  solve: Solve, objective: Callback<real>)
    returns (nlp: Nlp, result: Result<Optimized, NlpError>)
    ensures nlp == AssembleNlp(z0, lb, ub, specs, adoIds, tag, approxJacobian)
    ensures result == Finish(solve(nlp, z0), objective(solve(nlp, z0), tag, Some(adoIds)))
  {
    var cl: seq<Bound> := [];
    var cu: seq<Bound> := [];
    ghost var bs := ModuleBoundaries(specs, adoIds);
    var i := 0;
    while i < |specs|
      invariant 0 <= i <= |specs|
      invariant cl == Concat(Lowers(bs)[..i]) && cu == Concat(Uppers(bs)[..i])
    {
      var b := SpecBoundaries(specs[i], adoIds);
      ConcatPrefixStep(Lowers(bs), i);
      ConcatPrefixStep(Uppers(bs), i);
      cl := cl + b.lower;
      cu := cu + b.upper;
      i := i + 1;
    }
    assert Lowers(bs)[..i] == Lowers(bs) && Uppers(bs)[..i] == Uppers(bs);
    nlp := Nlp(|z0|, |cl|, lb, ub, cl, cu, IpoptProblem(tag, Some(adoIds)), approxJacobian, true);
    var zOpt := solve(nlp, z0);
    result := Finish(zOpt, objective(zOpt, tag, Some(adoIds)));
  }

  /** `gradient`: the elementwise sum of all modules' gradients, one entry per variable. */
  function Gradient(moduleGradients: seq<seq<real>>, z: seq<real>): (g: Summed)
    requires Rectangular(moduleGradients, |z|)
    ensures moduleGradients != [] ==> g.Vector? && |g.entries| == |z|
    ensures moduleGradients != [] ==> forall i :: 0 <= i < |z| ==> g.entries[i] == ColumnSum(moduleGradients, i)
    ensures moduleGradients == [] ==> g == Scalar(0.0)
  {
    NpSum(moduleGradients, |z|)
  }

  /** `jacobian`: the in-order concatenation of all modules' flat Jacobians; with no module at all
      the concatenation fails. */
  function Jacobian(moduleJacobians: seq<seq<real>>, counts: seq<nat>, z: seq<real>): (r: Result<seq<real>, NlpError>)
    requires |moduleJacobians| == |counts|
    requires forall k :: 0 <= k < |moduleJacobians| ==> |moduleJacobians[k]| == counts[k] * |z|
    ensures r.Err? <==> moduleJacobians == []
    ensures r.Err? ==> r.error == EmptyConcatenation
    ensures r.Ok? ==> r.value == Concat(moduleJacobians) && |r.value| == SumNat(counts) * |z|
  {
    JacobianSize(moduleJacobians, counts, |z|);
    NpConcatenate(moduleJacobians)
  }

  /** A speed-limit module followed by a pure-objective module: the problem gets `2 (T + 1)`
      constraints, all bounded by the speed limits, and the pure-objective module adds none. */
  lemma SpeedThenPureBounds(speed: SpeedLimits.SpeedLimitModule, pure: PureObjective.PureObjectiveModule,
                            adoIds: seq<string>)
    ensures var bs := ModuleBoundaries([SpeedLimits.Spec(speed), PureObjective.Spec(pure)], adoIds);
      var cl := Concat(Lowers(bs));
      var cu := Concat(Uppers(bs));
      |cl| == |cu| == 2 * (speed.tHorizon + 1) &&
      (forall i :: 0 <= i < |cl| ==> cl[i] == Some(speed.vMin) && cu[i] == Some(speed.vMax))
  {
    var specs := [SpeedLimits.Spec(speed), PureObjective.Spec(pure)];
    var bs := ModuleBoundaries(specs, adoIds);
    PureObjective.NoBounds(pure, adoIds);
    assert bs[1] == Boundaries([], []);
    assert Lowers(bs) == [bs[0].lower, []];
    assert Uppers(bs) == [bs[0].upper, []];
    assert Concat(Lowers(bs)) == bs[0].lower by {
      assert Concat(Lowers(bs)) == bs[0].lower + Concat([[]]);
    }
    assert Concat(Uppers(bs)) == bs[0].upper by {
      assert Concat(Uppers(bs)) == bs[0].upper + Concat([[]]);
    }
  }
}
