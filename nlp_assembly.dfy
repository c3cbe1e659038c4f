/** The pieces both IPOPT drivers share: bound concatenation, the summed gradient, the concatenated
    Jacobian, the reshape of the solution into 2-D points and the callback object. */
module NlpAssembly {
  import opened Wrappers
  import opened Sequences
  import opened Trajectories
  import opened ConstraintModules

  /** The errors the numeric library raises on the paths modelled here. */
  datatype NlpError =
    | EmptyConcatenation   // `np.concatenate` of an empty list
    | OddLength            // `view(-1, 2)` of a vector of odd length
    | NotImplemented       // `hessian`

  /** Sum of a sequence of counts. */
  function SumNat(xs: seq<nat>): nat
  {
    if xs == [] then 0 else xs[0] + SumNat(xs[1..])
  }

  lemma {:induction false} SumNatAppend(a: seq<nat>, b: seq<nat>)
    ensures SumNat(a + b) == SumNat(a) + SumNat(b)
  {
    if a != [] {
      assert (a + b)[1..] == a[1..] + b;
      SumNatAppend(a[1..], b);
    } else {
      assert a + b == b;
    }
  }

  /** The lengths of the parts. */
  function Lengths<T>(xs: seq<seq<T>>): (ls: seq<nat>)
    ensures |ls| == |xs| && forall i :: 0 <= i < |xs| ==> ls[i] == |xs[i]|
  {
    seq(|xs|, i requires 0 <= i < |xs| => |xs[i]|)
  }

  /** The concatenation is exactly as long as all parts together. */
  lemma {:induction false} ConcatLengthSum<T>(xs: seq<seq<T>>)
    ensures |Concat(xs)| == SumNat(Lengths(xs))
  {
    if xs != [] {
      ConcatLengthSum(xs[1..]);
      assert Lengths(xs)[1..] == Lengths(xs[1..]);
    }
  }

  /** Part `k` of a concatenation starts right after all earlier parts: entry `j` of part `k` sits at
      the total length of parts `0 .. k-1` plus `j`. */
  lemma ConcatBlock<T>(xs: seq<seq<T>>, k: nat, j: nat)
    requires k < |xs| && j < |xs[k]|
    ensures SumNat(Lengths(xs[..k])) + j < |Concat(xs)|
    ensures Concat(xs)[SumNat(Lengths(xs[..k])) + j] == xs[k][j]
  {
    assert xs == xs[..k] + xs[k..];
    ConcatAppend(xs[..k], xs[k..]);
    ConcatLengthSum(xs[..k]);
    assert Concat(xs[k..]) == xs[k] + Concat(xs[k + 1..]) by {
      assert xs[k..][1..] == xs[k + 1..];
    }
  }

  /** The per-module lower bound lists, in module order. */
  function Lowers(bs: seq<Boundaries>): (r: seq<seq<Bound>>)
    ensures |r| == |bs| && forall i :: 0 <= i < |bs| ==> r[i] == bs[i].lower
  {
    seq(|bs|, i requires 0 <= i < |bs| => bs[i].lower)
  }

  /** The per-module upper bound lists, in module order. */
  function Uppers(bs: seq<Boundaries>): (r: seq<seq<Bound>>)
    ensures |r| == |bs| && forall i :: 0 <= i < |bs| ==> r[i] == bs[i].upper
  {
    seq(|bs|, i requires 0 <= i < |bs| => bs[i].upper)
  }

  /** The boundaries of every module for the given ado ids, in module order. */
  function ModuleBoundaries(specs: seq<ConstraintSpec>, adoIds: seq<string>): (bs: seq<Boundaries>)
    ensures |bs| == |specs| && forall i :: 0 <= i < |specs| ==> bs[i] == SpecBoundaries(specs[i], adoIds)
  {
    seq(|specs|, i requires 0 <= i < |specs| => SpecBoundaries(specs[i], adoIds))
  }

  /** The constraint counts of the modules for the given ado ids. */
  function Counts(specs: seq<ConstraintSpec>, adoIds: seq<string>): (cs: seq<nat>)
    ensures |cs| == |specs| && forall i :: 0 <= i < |specs| ==> cs[i] == specs[i].numConstraints(adoIds)
  {
    if specs == [] then [] else [specs[0].numConstraints(adoIds)] + Counts(specs[1..], adoIds)
  }

  /** The concatenated bounds have one entry per constraint of every module. */
  lemma ModuleBoundsLength(specs: seq<ConstraintSpec>, adoIds: seq<string>)
    ensures var bs := ModuleBoundaries(specs, adoIds);
      |Concat(Lowers(bs))| == |Concat(Uppers(bs))| == SumNat(Counts(specs, adoIds))
  {
    var bs := ModuleBoundaries(specs, adoIds);
    assert Lengths(Lowers(bs)) == Counts(specs, adoIds);
    assert Lengths(Uppers(bs)) == Counts(specs, adoIds);
    ConcatLengthSum(Lowers(bs));
    ConcatLengthSum(Uppers(bs));
  }

  /** Entry `j` of module `k`'s block of the concatenated bounds is that module's scalar bound; the
      block starts after the constraints of all earlier modules. */
  lemma ModuleBoundsBlock(specs: seq<ConstraintSpec>, adoIds: seq<string>, k: nat, j: nat)
    requires k < |specs| && j < specs[k].numConstraints(adoIds)
    ensures var bs := ModuleBoundaries(specs, adoIds); var at := SumNat(Counts(specs[..k], adoIds)) + j;
      at < |Concat(Lowers(bs))| && at < |Concat(Uppers(bs))| &&
      Concat(Lowers(bs))[at] == specs[k].lower && Concat(Uppers(bs))[at] == specs[k].upper
  {
    var bs := ModuleBoundaries(specs, adoIds);
    assert Lengths(Lowers(bs)[..k]) == Counts(specs[..k], adoIds);
    assert Lengths(Uppers(bs)[..k]) == Counts(specs[..k], adoIds);
    ConcatBlock(Lowers(bs), k, j);
    ConcatBlock(Uppers(bs), k, j);
  }

  /** Column `i` summed over all module gradients. */
  function ColumnSum(gs: seq<seq<real>>, i: nat): real
    requires forall k :: 0 <= k < |gs| ==> i < |gs[k]|
  {
    if gs == [] then 0.0 else gs[0][i] + ColumnSum(gs[1..], i)
  }

  /** The elementwise sum of vectors of length `n`. */
  function VectorSum(gs: seq<seq<real>>, n: nat): (r: seq<real>)
    requires Rectangular(gs, n)
    ensures |r| == n
  {
    if gs == [] then Zeros(n) else Add(gs[0], VectorSum(gs[1..], n))
  }

  /** Entry `i` of the elementwise sum is the sum of entry `i` over all vectors. */
  lemma {:induction false} VectorSumEntry(gs: seq<seq<real>>, n: nat, i: nat)
    requires Rectangular(gs, n) && i < n
    ensures VectorSum(gs, n)[i] == ColumnSum(gs, i)
  {
    if gs != [] {
      VectorSumEntry(gs[1..], n, i);
    }
  }

  /** Splitting the modules into two groups and adding the group sums gives the same gradient. */
  lemma {:induction false} VectorSumAppend(a: seq<seq<real>>, b: seq<seq<real>>, n: nat)
    requires Rectangular(a, n) && Rectangular(b, n)
    ensures Rectangular(a + b, n)
    ensures VectorSum(a + b, n) == Add(VectorSum(a, n), VectorSum(b, n))
  {
    if a == [] {
      assert a + b == b;
    } else {
      assert (a + b)[1..] == a[1..] + b;
      VectorSumAppend(a[1..], b, n);
    }
  }

  /** What `np.sum(list, axis=0)` returns: a scalar 0.0 for an empty list, a vector otherwise. */
  datatype Summed = Scalar(value: real) | Vector(entries: seq<real>)

  /** `np.sum(gradients, axis=0)` for gradients of length `n`. */
  function NpSum(gs: seq<seq<real>>, n: nat): (r: Summed)
    requires Rectangular(gs, n)
    ensures gs == [] <==> r.Scalar?
    ensures r.Scalar? ==> r.value == 0.0
    ensures r.Vector? ==> |r.entries| == n && forall i :: 0 <= i < n ==> r.entries[i] == ColumnSum(gs, i)
  {
    if gs == [] then Scalar(0.0)
    else
      assert forall i :: 0 <= i < n ==> VectorSum(gs, n)[i] == ColumnSum(gs, i) by {
        forall i | 0 <= i < n { VectorSumEntry(gs, n, i); }
      }
      Vector(VectorSum(gs, n))
  }

  /** `np.concatenate(parts)`: an error for an empty list, the in-order concatenation otherwise. */
  function NpConcatenate(parts: seq<seq<real>>): (r: Result<seq<real>, NlpError>)
    ensures parts == [] <==> r == Err(EmptyConcatenation)
    ensures r.Ok? ==> r.value == Concat(parts) && |r.value| == SumNat(Lengths(parts))
  {
    if parts == [] then Err(EmptyConcatenation)
    else
      ConcatLengthSum(parts);
      Ok(Concat(parts))
  }

  /** Flat Jacobians of `counts[k] * n` entries each concatenate to `sum(counts) * n` entries. */
  lemma {:induction false} JacobianSize(jacs: seq<seq<real>>, counts: seq<nat>, n: nat)
    requires |jacs| == |counts|
    requires forall k :: 0 <= k < |jacs| ==> |jacs[k]| == counts[k] * n
    ensures |Concat(jacs)| == SumNat(counts) * n
  {
    if jacs != [] {
      JacobianSize(jacs[1..], counts[1..], n);
      assert SumNat(counts) * n == counts[0] * n + SumNat(counts[1..]) * n;
    }
  }

  /** `view(-1, 2)`: consecutive pairs as points; a vector of odd length cannot be reshaped. */
  function Reshape2(z: seq<real>): (r: Result<seq<Vec2>, NlpError>)
    ensures r.Ok? <==> |z| % 2 == 0
    ensures r.Ok? ==> 2 * |r.value| == |z|
    ensures r.Err? ==> r.error == OddLength
    decreases |z|
  {
    if |z| == 0 then Ok([])
    else if |z| == 1 then Err(OddLength)
    else
      match Reshape2(z[2..])
      case Ok(rest) => Ok([Vec2(z[0], z[1])] + rest)
      case Err(e) => Err(e)
  }

  /** The points written out as consecutive pairs again. */
  function Flatten2(ps: seq<Vec2>): (z: seq<real>)
    ensures |z| == 2 * |ps|
  {
    if ps == [] then [] else [ps[0].x, ps[0].y] + Flatten2(ps[1..])
  }

  /** Reshaping an even-length vector and flattening it back gives the same vector. */
  lemma {:induction false} FlattenReshape(z: seq<real>)
    requires |z| % 2 == 0
    ensures Reshape2(z).Ok? && Flatten2(Reshape2(z).value) == z
    decreases |z|
  {
    if |z| > 0 {
      FlattenReshape(z[2..]);
      var rest := Reshape2(z[2..]).value;
      assert Reshape2(z).value == [Vec2(z[0], z[1])] + rest;
      assert ([Vec2(z[0], z[1])] + rest)[1..] == rest;
      assert z == [z[0], z[1]] + z[2..];
    }
  }

  /** Flattening points and reshaping them back gives the same points. */
  lemma {:induction false} ReshapeFlatten(ps: seq<Vec2>)
    ensures Reshape2(Flatten2(ps)) == Ok(ps)
  {
    if ps != [] {
      ReshapeFlatten(ps[1..]);
      var z := Flatten2(ps);
      assert z[2..] == Flatten2(ps[1..]);
      assert ps == [Vec2(z[0], z[1])] + ps[1..];
    }
  }

  /** Modules whose lower and upper lists have equal lengths give equally long concatenations. */
  lemma {:induction false} AlignedBounds(bs: seq<Boundaries>)
    requires forall i :: 0 <= i < |bs| ==> |bs[i].lower| == |bs[i].upper|
    ensures |Concat(Lowers(bs))| == |Concat(Uppers(bs))|
  {
    if bs != [] {
      AlignedBounds(bs[1..]);
      assert Lowers(bs)[1..] == Lowers(bs[1..]);
      assert Uppers(bs)[1..] == Uppers(bs[1..]);
    }
  }

  /** The optimiser's result: the solution as rows of 2 and the objective value there. */
  datatype Optimized = Optimized(z: seq<Vec2>, objective: real)

  /** The last step of `_optimize`: reshape the solution into points (an error for odd length) and
      pair it with the objective evaluated there. */
  function Finish(zOpt: seq<real>, objective: real): (r: Result<Optimized, NlpError>)
    ensures r.Ok? <==> |zOpt| % 2 == 0
    ensures r.Err? ==> r.error == OddLength
    ensures r.Ok? ==> Flatten2(r.value.z) == zOpt && r.value.objective == objective
  {
    match Reshape2(zOpt)
    case Ok(points) =>
      FlattenReshape(zOpt);
      Ok(Optimized(points, objective))
    case Err(e) => Err(e)
  }

  /** `IPOPTProblem`: the callback object handed to IPOPT, fixing the tag and the ado ids. */
  datatype IpoptProblem = IpoptProblem(tag: string, adoIds: Option<seq<string>>)

  /** The problem handed to IPOPT: `n` variables with bounds `lb`/`ub`, `m` constraints with bounds
      `cl`/`cu`, the callback object, and whether the Jacobian and the Hessian are approximated. */
  datatype Nlp = Nlp(n: nat, m: nat, lb: seq<real>, ub: seq<real>, cl: seq<Bound>, cu: seq<Bound>,
                     problem: IpoptProblem, approximateJacobian: bool, approximateHessian: bool)

  /** The numerical solve, from a problem and a starting point to a solution vector. */
  type Solve = (Nlp, seq<real>) -> seq<real>

  /** A solver callback taking the optimisation vector, the tag and the ado ids. */
  type Callback<R> = (seq<real>, string, Option<seq<string>>) -> R

  /** Every callback of the problem (`objective`, `gradient`, `constraints`, `jacobian`) forwards
      to the solver with the tag and ids fixed at construction. */
  function Forward<R>(p: IpoptProblem, callback: Callback<R>, z: seq<real>): (r: R)
    ensures r == callback(z, p.tag, p.adoIds)
  {
    callback(z, p.tag, p.adoIds)
  }

  /** `intermediate`: a no-op that returns nothing, so IPOPT is never asked to stop early. */
  function Intermediate(p: IpoptProblem, iterCount: nat, objValue: real): (r: Option<bool>)
    ensures r.None?
  {
    None
  }
}
