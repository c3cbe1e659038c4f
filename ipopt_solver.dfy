/** The IPOPT driver over named constraint modules carrying their own `lower`/`upper` lists. */
module IpoptSolver {
  import opened Wrappers
  import opened Sequences
  import opened ConstraintModules
  import opened NlpAssembly

  /** The problem `_optimize` hands to IPOPT: the bounds of every constraint module concatenated in
      module order, one NLP constraint per bound entry, and the callback object of the call. */
  function AssembleNlp(z0: seq<real>, lb: seq<real>, ub: seq<real>, bounds: seq<Boundaries>,
                       adoIds: Option<seq<string>>, tag: string, approxJacobian: bool, approxHessian: bool): (nlp: Nlp)
    ensures nlp.n == |z0| && nlp.lb == lb && nlp.ub == ub
    ensures nlp.cl == Concat(Lowers(bounds)) && nlp.cu == Concat(Uppers(bounds))
    ensures nlp.m == |nlp.cl| == SumNat(Lengths(Lowers(bounds)))
    ensures |nlp.cu| == SumNat(Lengths(Uppers(bounds)))
    ensures nlp.problem == IpoptProblem(tag, adoIds)
    ensures nlp.approximateJacobian == approxJacobian && nlp.approximateHessian == approxHessian
  {
    ConcatLengthSum(Lowers(bounds));
    ConcatLengthSum(Uppers(bounds));
    var cl := Concat(Lowers(bounds));
    Nlp(|z0|, |cl|, lb, ub, cl, Concat(Uppers(bounds)), IpoptProblem(tag, adoIds), approxJacobian, approxHessian)
  }

  /** When every module's lists are aligned, the assembled problem has as many constraints as upper
      and lower bounds, and as many variables as variable bounds. */
  lemma AssembledNlpConsistent(z0: seq<real>, lb: seq<real>, ub: seq<real>, bounds: seq<Boundaries>,
                               adoIds: Option<seq<string>>, tag: string, approxJacobian: bool, approxHessian: bool)
    requires |z0| == |lb| == |ub|
    requires forall i :: 0 <= i < |bounds| ==> |bounds[i].lower| == |bounds[i].upper|
    ensures var nlp := AssembleNlp(z0, lb, ub, bounds, adoIds, tag, approxJacobian, approxHessian);
      nlp.m == |nlp.cl| == |nlp.cu| && nlp.n == |nlp.lb| == |nlp.ub|
  {
    AlignedBounds(bounds);
  }

  /** Entry `j` of module `k`'s lower and upper lists sits in `cl` and `cu` right after the entries of
      all earlier modules. */
  lemma AssembledNlpBlock(z0: seq<real>, lb: seq<real>, ub: seq<real>, bounds: seq<Boundaries>,
                          adoIds: Option<seq<string>>, tag: string, approxJacobian: bool, approxHessian: bool,
                          k: nat, j: nat)
    requires k < |bounds| && j < |bounds[k].lower| && j < |bounds[k].upper|
    ensures var nlp := AssembleNlp(z0, lb, ub, bounds, adoIds, tag, approxJacobian, approxHessian);
      var atL := SumNat(Lengths(Lowers(bounds)[..k])) + j;
      var atU := SumNat(Lengths(Uppers(bounds)[..k])) + j;
      atL < |nlp.cl| && nlp.cl[atL] == bounds[k].lower[j] &&
      atU < |nlp.cu| && nlp.cu[atU] == bounds[k].upper[j]
  {
    ConcatBlock(Lowers(bounds), k, j);
    ConcatBlock(Uppers(bounds), k, j);
  }

  /** Every callback IPOPT makes on the assembled problem reaches the solver with the tag and the ado
      ids of the `_optimize` call. */
  lemma CallbacksSeeCallContext<R>(z0: seq<real>, lb: seq<real>, ub: seq<real>, bounds: seq<Boundaries>,
                                   adoIds: Option<seq<string>>, tag: string, approxJacobian: bool,
                                   approxHessian: bool, callback: Callback<R>, z: seq<real>)
    ensures Forward(AssembleNlp(z0, lb, ub, bounds, adoIds, tag, approxJacobian, approxHessian).problem, callback, z)
         == callback(z, tag, adoIds)
  {
  }

  /** `_optimize`: accumulate the constraint bounds module by module, build the problem, solve it from
      `z0` and return the solution as rows of 2 with the objective there, evaluated without ado ids.
      `solve` stands for IPOPT; `objective` for the solver's objective function. */
  method Optimize(z0: seq<real>, lb: seq<real>, ub: seq<real>, bounds: seq<Boundaries>,
                  adoIds: Option<seq<string>>, tag: string, approxJacobian: bool, approxHessian: bool,
                  solve: Solve, objective: Callback<real>)
    returns (nlp: Nlp, result: Result<Optimized, NlpError>)
    requires |z0| == |lb| == |ub|
    ensures nlp == AssembleNlp(z0, lb, ub, bounds, adoIds, tag, approxJacobian, approxHessian)
    ensures result == Finish(solve(nlp, z0), objective(solve(nlp, z0), tag, None))
  {
    var cl: seq<Bound> := [];
    var cu: seq<Bound> := [];
    var i := 0;
    while i < |bounds|
      invariant 0 <= i <= |bounds|
      invariant cl == Concat(Lowers(bounds)[..i]) && cu == Concat(Uppers(bounds)[..i])
    {
      ConcatPrefixStep(Lowers(bounds), i);
      ConcatPrefixStep(Uppers(bounds), i);
      cl := cl + bounds[i].lower;
      cu := cu + bounds[i].upper;
      i := i + 1;
    }
    assert Lowers(bounds)[..i] == Lowers(bounds) && Uppers(bounds)[..i] == Uppers(bounds);
    var problem := IpoptProblem(tag, adoIds);
    nlp := Nlp(|z0|, |cl|, lb, ub, cl, cu, problem, approxJacobian, approxHessian);
    var zOpt := solve(nlp, z0);
    result := Finish(zOpt, objective(zOpt, tag, None));
  }

  /** `gradient`: the elementwise sum of the objective modules' gradients, one entry per variable. */
  function Gradient(moduleGradients: seq<seq<real>>, z: seq<real>): (g: Summed)
    requires Rectangular(moduleGradients, |z|)
    ensures moduleGradients != [] ==> g.Vector? && |g.entries| == |z|
    ensures moduleGradients != [] ==> forall i :: 0 <= i < |z| ==> g.entries[i] == ColumnSum(moduleGradients, i)
    ensures moduleGradients == [] ==> g == Scalar(0.0)
  {
    NpSum(moduleGradients, |z|)
  }

  /** `jacobian`: empty when there is no constraint module, otherwise the in-order concatenation of
      the modules' flat Jacobians, `counts[k] * len(z)` entries each. */
  function Jacobian(moduleJacobians: seq<seq<real>>, counts: seq<nat>, z: seq<real>): (jac: seq<real>)
    requires |moduleJacobians| == |counts|
    requires forall k :: 0 <= k < |moduleJacobians| ==> |moduleJacobians[k]| == counts[k] * |z|
    ensures |jac| == SumNat(counts) * |z|
    ensures moduleJacobians == [] ==> jac == []
    ensures moduleJacobians != [] ==> jac == Concat(moduleJacobians)
  {
    JacobianSize(moduleJacobians, counts, |z|);
    if moduleJacobians == [] then [] else NpConcatenate(moduleJacobians).value
  }

  /** `hessian`: never supplied; the exact Hessian is not implemented. */
  function Hessian(z: seq<real>, lagrange: seq<real>, objFactor: real): (r: Result<seq<real>, NlpError>)
    ensures r == Err(NotImplemented)
  {
    Err(NotImplemented)
  }
}
