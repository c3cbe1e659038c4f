# mantrap trajectory-optimisation bookkeeping, in Dafny

mantrap plans a robot ("ego") trajectory through a crowd of pedestrians ("ados") by solving a
non-linear program with IPOPT. This project models the bookkeeping around that solve and proves
properties of it. The learned predictor, IPOPT itself and torch autograd stay outside the model.
The modelled pieces are:

- **Constraint modules** (`constraint_module.dfy`): bounds broadcast to every output, the violation
  (the summed excess over the bounds), the Jacobian filled block by block, and the cache that
  `compute_violation_internal` and `inf_current` read. The module is a class, because the source
  stores `_constraint_current` in place.
- **Speed limits** (`speed_limits.dfy`): the velocity columns of the trajectory as the constraint.
  It has the ego's speed limits as bounds and `2 (T + 1)` outputs. `normalize` divides by the upper
  limit. The analytic Jacobian is `dg_dx · dx_du`. The 0/1 matrix `dg_dx` is built in a
  two-dimensional array by the source's nested loops.
- **Pure-objective modules** (`pure_objective.dfy`): modules that contribute no constraint.
- **Single integrator** (`integrator.dfy`): the dynamics, their inverse, the control limits and the
  reachability circle.
- **Agent** (`agent.dfy`): a class with position, velocity and a stamped history. It has `update`
  (with the speed cap), `unroll_trajectory` (a loop over a preallocated array) and `reset`.
- **NLP assembly** (`nlp_assembly.dfy`, `ipopt_solver.dfy`, `ipopt_base.dfy`): the two IPOPT drivers.
  - They concatenate the modules' constraint bounds in module order, in a loop.
  - They hand IPOPT a problem with one constraint per bound entry.
  - They sum the modules' gradients and concatenate their Jacobians.
  - They reshape the solution into 2-D points.
  - `IPOPTProblem` forwards every callback with the tag and ado ids fixed at construction.
- **Trajectron helpers** (`trajectron.dfy`): the ado id read from a node name, the default history
  synthesised for a new ado, and the certain initial step prepended to every predicted mixture.

`wrappers.dfy` (Option/Result), `sequences.dfy` (row-major flattening, dot products, one-hot rows)
and `trajectories.dfy` (the 5-column ego state `x, y, vx, vy, t`) are shared helpers.

Numbers are exact `real`s. The source's float32/float64 rounding is not modelled. Several things
are parameters or function-valued fields:

- `dynamics` of a general agent;
- `np.arctan2` (`heading`) and `np.linalg.norm` (`norm`);
- each module's `_compute` (`core`) and its autograd gradients;
- the ego's `dx_du`;
- IPOPT's `solve`;
- the solver's objective callback;
- configuration constants (`agent_speed_max`, the Trajectron history length, the initial variance
  and its logarithm).

The norm is constrained to what the model uses: it is non-negative and positively homogeneous
(`Agents.IsNorm`).

## Model

| member | source | states |
|---|---|---|
| ConstraintModules.BoundaryVectors | mantrap/solver/constraints/constraint_module.py:112-116 | both bound lists have `num_constraints` entries; every entry is the scalar bound, and a missing bound stays missing |
| ConstraintModules.SpecBoundaries | mantrap/solver/constraints/constraint_module.py:112-116 | a module's boundaries for a list of ado ids: as many lower as upper entries, one per output the module has for those ids, each the module's raw scalar limit |
| ConstraintModules.Excess | mantrap/solver/constraints/constraint_module.py:142-148 | the per-output excess `max(0, lower - c) + max(0, c - upper)` is non-negative, and it is zero exactly when the output lies within the inclusive bounds |
| ConstraintModules.Violation | mantrap/solver/constraints/constraint_module.py:142-148 | the violation is non-negative |
| ConstraintModules.ViolationZeroIff | mantrap/solver/constraints/constraint_module.py:142-148 | the violation is zero if and only if every output lies within its bounds |
| ConstraintModules.ViolationSingleOvershoot | mantrap/solver/constraints/constraint_module.py:142-148 | when one output overshoots the upper bound by `d` and all others are in bounds, the violation is exactly `d` |
| ConstraintModules.ViolationSingleUndershoot | mantrap/solver/constraints/constraint_module.py:142-148 | when one output undershoots the lower bound by `d` and all others are in bounds, the violation is exactly `d` |
| ConstraintModules.ExcessScale | mantrap/solver/constraints/constraint_module.py:146-148 | scaling an output and both its bounds by a positive factor scales its excess by that factor |
| ConstraintModules.JacobianBlock | mantrap/solver/constraints/constraint_module.py:77-82 | gradient `j` of output `i` lands at flat index `i * n + j`, inside block `[i n, (i+1) n)` of the `outputs * n` vector |
| ConstraintModules.ConstraintModule.constructor | mantrap/solver/constraints/constraint_module.py:22-32 | requires a horizon of at least 1; stores the horizon and starts with no cached value |
| ConstraintModules.ConstraintModule.Constraint | mantrap/solver/constraints/constraint_module.py:41-49 | returns the module's value on a trajectory of `T + 1` rows and caches it, so the internal violation then equals the violation of that trajectory |
| ConstraintModules.ConstraintModule.Jacobian | mantrap/solver/constraints/constraint_module.py:51-83 | the result has `outputs * n` entries; it is the concatenation of the per-output gradients when the outputs need a gradient, and all zeros otherwise |
| ConstraintModules.ConstraintModule.ConstraintBoundaries | mantrap/solver/constraints/constraint_module.py:112-116 | `num_constraints` lower and upper entries, each equal to the module's scalar bound |
| ConstraintModules.ConstraintModule.ComputeViolation | mantrap/solver/constraints/constraint_module.py:121-133 | the violation of a fresh evaluation is non-negative, and it is zero if and only if every output is within bounds |
| ConstraintModules.ConstraintModule.ViolationInternal | mantrap/solver/constraints/constraint_module.py:135-140 | the violation of the cached value is non-negative, and it is zero if and only if every cached output is within bounds |
| ConstraintModules.ConstraintModule.InfCurrent | mantrap/solver/constraints/constraint_module.py:162-164 | the current infeasibility is the internal violation of the cache |
| SpeedLimits.ConstraintCore | mantrap/modules/speed_limits.py:36-37 | two outputs per row; output `2t` is row `t`'s x-velocity and output `2t+1` is its y-velocity |
| SpeedLimits.CoreMatchesCount | mantrap/modules/speed_limits.py:117-118 | a trajectory of `T + 1` rows yields exactly `2 (T + 1)` outputs, independent of the ado ids |
| SpeedLimits.NumConstraints | mantrap/modules/speed_limits.py:117-118 | at least two outputs and always an even number (one x- and one y-velocity per row), whatever the ado ids |
| SpeedLimits.ConstraintLimits | mantrap/modules/speed_limits.py:110-115 | the bounds are the ego's speed limits |
| SpeedLimits.Spec | mantrap/modules/speed_limits.py:110-118 | as the NLP assembly sees it, the module has the speed-limit bounds and `2 (T + 1)` outputs for every id list |
| SpeedLimits.GradientCondition | mantrap/modules/speed_limits.py:97-105 | the gradient condition always holds |
| SpeedLimits.Normalize | mantrap/modules/speed_limits.py:93-95 | requires symmetric limits; the result times the upper limit gives back the input |
| SpeedLimits.NormalizeRange | mantrap/modules/speed_limits.py:83-95 | a value within symmetric limits normalises into `[-1, 1]` |
| SpeedLimits.SpeedViolation | test/test_modules.py:339-356 | the normalised violation of a trajectory is non-negative |
| SpeedLimits.WithinLimitsNoViolation | test/test_modules.py:346-350 | velocities within the limits, including exactly at either limit, give zero violation |
| SpeedLimits.OvershootViolation | test/test_modules.py:352-356 | raising one x-velocity `d` above the upper limit, with all else in limits, gives violation `normalize(d)` |
| SpeedLimits.Selector | mantrap/modules/speed_limits.py:77-80 | `dg_dx` has `2 (T + 1)` rows of `5 (T + 1)` columns |
| SpeedLimits.SelectorRow | mantrap/modules/speed_limits.py:77-80 | row `2t + k` of `dg_dx` holds a single 1, at column `5t + 2 + k` |
| SpeedLimits.BuildSelector | mantrap/modules/speed_limits.py:77-80 | the nested loops over a zero array produce exactly the selector matrix `dg_dx` |
| SpeedLimits.SelectorExtractsVelocities | mantrap/modules/speed_limits.py:36-37 | `dg_dx` applied to the flattened trajectory gives back the constraint value, so `dg_dx` is the derivative of the constraint |
| SpeedLimits.ComputeJacobianAnalytically | mantrap/modules/speed_limits.py:61-81 | the analytic Jacobian is `dg_dx · dx_du` flattened row by row, with `2 (T + 1) * w` entries |
| SpeedLimits.AnalyticJacobianEntry | mantrap/modules/speed_limits.py:77-81 | entry `(2t + k, c)` of the analytic Jacobian is entry `c` of row `5t + 2 + k` of `dx_du` |
| PureObjective.New | mantrap/modules/base/pure_objective.py:23-25 | slack is always off, and horizon and weight are forwarded unchanged |
| PureObjective.ConstraintCore | mantrap/modules/base/pure_objective.py:30-34 | no constraint value |
| PureObjective.ConstraintLimits | mantrap/modules/base/pure_objective.py:36-37 | unbounded on both sides |
| PureObjective.NumConstraints | mantrap/modules/base/pure_objective.py:39-40 | zero outputs for every id list |
| PureObjective.JacobianAnalytically | mantrap/modules/base/pure_objective.py:45-48 | no analytic Jacobian |
| PureObjective.Spec | mantrap/modules/base/pure_objective.py:36-40 | as the NLP assembly sees it, the module has no bounds and zero outputs |
| PureObjective.NoBounds | mantrap/modules/base/pure_objective.py:36-40 | a pure-objective module contributes empty bound lists for every list of ado ids |
| Integrator.Dynamics | mantrap/agents/integrator.py:12-22 | the new velocity is the action, and the position advances by exactly the new velocity times `dt` |
| Integrator.InverseDynamics | mantrap/agents/integrator.py:24-33 | the action found moves the earlier position to the later one within `dt` |
| Integrator.DynamicsIgnoresVelocity | mantrap/agents/integrator.py:12-22 | the next state depends only on the old position; the new velocity is the action |
| Integrator.InverseAfterDynamics | mantrap/agents/integrator.py:12-33 | inverting one dynamics step recovers the action applied |
| Integrator.DynamicsAfterInverse | mantrap/agents/integrator.py:12-33 | applying the inverted action to the earlier state reaches the later position |
| Integrator.ControlLimits | mantrap/agents/integrator.py:35-39 | the control box is `[-speed_max, speed_max]`, symmetric about zero |
| Integrator.ReachabilityBoundary | mantrap/agents/integrator.py:44-58 | a circle centred on the current position, of non-negative radius for a non-negative speed limit and time step, and of radius zero for no steps |
| Integrator.RadiusAdditive | mantrap/agents/integrator.py:44-58 | the reachability radius is zero for no steps and additive in the number of steps |
| Integrator.RolloutWithinReach | mantrap/agents/integrator.py:35-58 | a rollout whose controls respect the control limits stays within the reachability radius of the start along each axis |
| Agents.PolicyRows | mantrap/agents/agent.py:71-72 | a single action is a policy of one row; a policy of rows is kept as is |
| Agents.RescaledNorm | mantrap/agents/agent.py:54-57 | dividing a velocity by its speed and multiplying by the limit gives a speed of exactly the limit |
| Agents.Agent.State | mantrap/agents/agent.py:109-127 | the state is the position, the heading of the velocity, and the velocity |
| Agents.Agent.Speed | mantrap/agents/agent.py:125-127 | the speed is non-negative |
| Agents.Agent.constructor | mantrap/agents/agent.py:13-36 | requires a non-negative time; appends the current state stamped with the time to the given history, or starts a one-row history |
| Agents.Agent.Update | mantrap/agents/agent.py:46-60 | one dynamics step sets position and velocity; an overspeed is rescaled to exactly the limit, so the speed never exceeds it; one row stamped `dt` after the previous last row is appended |
| Agents.Agent.UnrollTrajectory | mantrap/agents/agent.py:62-83 | the trajectory has one row per action plus the start, equal to `Unrolled` (row `k` is the state after `k` actions, stamped `k * dt`); the agent is unchanged |
| Agents.Agent.Reset | mantrap/agents/agent.py:85-95 | position and velocity come from the given state; the state is appended to the history when no history is given, and the given history replaces it otherwise |
| Agents.Unrolled | mantrap/agents/agent.py:74-83 | one row per action plus the start |
| Agents.UnrolledSteps | mantrap/agents/agent.py:74-83 | row 0 is the current state at time 0; each later row is one dynamics step and exactly `dt` after the previous one |
| NlpAssembly.SumNatAppend | mantrap/solver/base/ipopt.py:58-63 | the total constraint count over two groups of modules is the sum of the groups' totals |
| NlpAssembly.Lengths | mantrap/solver/base/ipopt.py:58-63 | one length per part, equal to that part's length |
| NlpAssembly.ConcatLengthSum | mantrap/solver/base/ipopt.py:58-63 | the concatenation is exactly as long as all parts together |
| NlpAssembly.ConcatBlock | mantrap/solver/base/ipopt.py:128-131 | entry `j` of part `k` sits after all earlier parts, at their total length plus `j` |
| NlpAssembly.Lowers | mantrap/solver/ipopt_solver.py:51-52 | the modules' lower lists, in module order |
| NlpAssembly.Uppers | mantrap/solver/ipopt_solver.py:51-53 | the modules' upper lists, in module order |
| NlpAssembly.ModuleBoundaries | mantrap/solver/base/ipopt.py:59-60 | each module's `constraint_boundaries(ado_ids)`, in module order |
| NlpAssembly.Counts | mantrap/solver/base/ipopt.py:59-60 | each module's number of constraints for the ado ids, in module order |
| NlpAssembly.ModuleBoundsLength | mantrap/solver/base/ipopt.py:58-63 | the concatenated lower and upper bounds both have one entry per constraint of every module |
| NlpAssembly.ModuleBoundsBlock | mantrap/solver/base/ipopt.py:58-63 | entry `j` of module `k`'s block of the concatenated bounds is that module's scalar bound |
| NlpAssembly.VectorSum | mantrap/solver/ipopt_solver.py:91-92 | the elementwise sum has one entry per variable |
| NlpAssembly.VectorSumEntry | mantrap/solver/ipopt_solver.py:91-92 | entry `i` of the summed gradient is the sum of entry `i` over all modules |
| NlpAssembly.VectorSumAppend | mantrap/solver/base/ipopt.py:108-109 | splitting the modules into two groups and adding the group sums gives the same gradient |
| NlpAssembly.NpSum | mantrap/solver/ipopt_solver.py:91-92 | `np.sum(…, axis=0)` gives a scalar 0 for no modules; otherwise it gives a vector with one entry per variable, each the column sum |
| NlpAssembly.NpConcatenate | mantrap/solver/base/ipopt.py:129-130 | concatenating no parts is an error; otherwise the result is the in-order concatenation, as long as all parts together |
| NlpAssembly.JacobianSize | mantrap/solver/ipopt_solver.py:107-109 | flat Jacobians of `counts[k] * n` entries concatenate to `sum(counts) * n` entries |
| NlpAssembly.Reshape2 | mantrap/solver/ipopt_solver.py:82 | `view(-1, 2)` succeeds exactly on even lengths, giving half as many points; an odd length is an error |
| NlpAssembly.Flatten2 | mantrap/solver/ipopt_solver.py:82 | two numbers per point |
| NlpAssembly.FlattenReshape | mantrap/solver/ipopt_solver.py:82 | reshaping an even-length vector into points and flattening them back gives the vector |
| NlpAssembly.ReshapeFlatten | mantrap/solver/base/ipopt.py:92 | flattening points and reshaping them back gives the points |
| NlpAssembly.AlignedBounds | mantrap/solver/ipopt_solver.py:50-54 | modules with equally long lower and upper lists give equally long `cl` and `cu` |
| NlpAssembly.Finish | mantrap/solver/ipopt_solver.py:81-84 | the result is an error exactly for an odd-length solution; otherwise its points flatten back to the solution and it carries the objective there |
| NlpAssembly.Forward | mantrap/solver/ipopt_solver.py:145-162 | `objective`, `gradient`, `constraints` and `jacobian` each evaluate the solver's callback on IPOPT's vector with the tag and ado ids stored in the problem |
| NlpAssembly.Intermediate | mantrap/solver/ipopt_solver.py:164-165 | the per-iteration hook returns nothing |
| IpoptSolver.AssembleNlp | mantrap/solver/ipopt_solver.py:49-64 | `cl` and `cu` are the modules' lower and upper lists concatenated in module order; `n = len(z0)` with bounds `lb`/`ub`; `m = len(cl)` is the total length of the lower lists; the problem object carries the tag and ids of the call, and the approximation flags are kept |
| IpoptSolver.AssembledNlpBlock | mantrap/solver/ipopt_solver.py:50-53 | entry `j` of module `k`'s lower (upper) list is the entry of `cl` (`cu`) at the total length of the earlier modules' lists plus `j` |
| IpoptSolver.AssembledNlpConsistent | mantrap/solver/ipopt_solver.py:49-64 | with aligned module bounds and `len(z0) = len(lb) = len(ub)`, the problem has `m = len(cl) = len(cu)` and `n = len(lb) = len(ub)` |
| IpoptSolver.CallbacksSeeCallContext | mantrap/solver/ipopt_solver.py:61-64 | every callback IPOPT makes on the assembled problem reaches the solver with the tag and the ado ids of the `_optimize` call |
| IpoptSolver.Optimize | mantrap/solver/ipopt_solver.py:15-84 | requires `len(z0) = len(lb) = len(ub)`. The accumulation loop builds the problem `AssembleNlp` describes: the modules' bounds concatenated in order, `m = len(cl)`, the tag and ids fixed, and the approximation flags. The result is the reshaped solution with the objective there, evaluated without ado ids |
| IpoptSolver.Gradient | mantrap/solver/ipopt_solver.py:89-98 | with at least one objective module, one entry per variable, each the sum over modules; with none, the scalar 0 |
| IpoptSolver.Jacobian | mantrap/solver/ipopt_solver.py:103-112 | empty without constraint modules; otherwise the in-order concatenation, with `sum(counts) * len(z)` entries |
| IpoptSolver.Hessian | mantrap/solver/ipopt_solver.py:117-118 | the exact Hessian is never supplied |
| IpoptBase.AssembleNlp | mantrap/solver/base/ipopt.py:58-72 | `n = len(z0)` with bounds `lb`/`ub`; `m = len(cl) = len(cu)` is the modules' total number of constraints for the ids; the problem object carries the tag and the ids, and the Hessian is always approximated |
| IpoptBase.AssembledNlpLayout | mantrap/solver/base/ipopt.py:58-72 | `m = len(cl) = len(cu)` is the modules' total number of constraints for the ids, and module `k`'s block carries module `k`'s bounds |
| IpoptBase.CallbacksSeeCallContext | mantrap/solver/base/ipopt.py:69-72 | every callback IPOPT makes on the assembled problem reaches the solver with the tag and the ado ids of the `_optimize` call |
| IpoptBase.Optimize | mantrap/solver/base/ipopt.py:17-94 | the loop over all modules builds the problem `AssembleNlp` describes from `constraint_boundaries(ado_ids)`, with the Hessian always approximated; the result is the reshaped solution with the objective evaluated with the same ids |
| IpoptBase.Gradient | mantrap/solver/base/ipopt.py:99-115 | with at least one module, one entry per variable, each the sum over all modules; with none, the scalar 0 |
| IpoptBase.Jacobian | mantrap/solver/base/ipopt.py:120-131 | an error exactly when there is no module; otherwise the in-order concatenation, with `sum(counts) * len(z)` entries |
| IpoptBase.SpeedThenPureBounds | mantrap/solver/base/ipopt.py:58-63 | a speed-limit module followed by a pure-objective module gives `2 (T + 1)` bounds, all of them the speed limits |
| TrajectronHelpers.IndexOf | mantrap/environment/trajectron.py:157 | the first occurrence of the separator, or none exactly when it does not occur |
| TrajectronHelpers.AgentIdFromNode | mantrap/environment/trajectron.py:152-157 | a name without `/` has no id; otherwise the id is a `/`-free field |
| TrajectronHelpers.AgentIdRoundTrip | mantrap/environment/trajectron.py:152-157 | reading the id of `type/id`, or of `type/id/…`, gives back `id` |
| TrajectronHelpers.FirstSlash | mantrap/environment/trajectron.py:157 | the first `/` of `front/back` is the one after a `/`-free `front` |
| TrajectronHelpers.HistoryRow | mantrap/environment/trajectron.py:110-112 | a synthesised row carries the current velocity, and row `t = 0` is the current position, velocity and time |
| TrajectronHelpers.DefaultHistory | mantrap/environment/trajectron.py:108-113 | `H + 1` rows; row `k` is the current state moved along the velocity by `t = k - H` steps of `dt` |
| TrajectronHelpers.RowStep | mantrap/environment/trajectron.py:110-112 | consecutive synthesised rows differ by `dt` in time and by `velocity * dt` in position |
| TrajectronHelpers.DefaultHistoryShape | mantrap/environment/trajectron.py:108-113 | the synthesised history ends in the current position, velocity and time; its timestamps increase by exactly `dt`; its velocity is constant |
| TrajectronHelpers.AdoHistory | mantrap/environment/trajectron.py:108-115 | a given history is passed on unchanged; without one, the history is the synthesised `DefaultHistory`: `H + 1` rows extrapolated backwards at constant velocity, ending in the current state |
| TrajectronHelpers.Modes | mantrap/environment/trajectron.py:219 | the same value for each of the `m` modes |
| TrajectronHelpers.WithInitialStep | mantrap/environment/trajectron.py:243-246 | one more step than the network output; at step 0 every mode has the position as mean and the given initial log sigma, correlation and log weight; the network's steps follow unchanged in every field |
| TrajectronHelpers.InitialStepShape | mantrap/environment/trajectron.py:217-246 | a network output over `T` steps becomes a mixture over `T + 1` steps of `m` modes; step 0 puts every mode's mean at the current position; the later steps are the network's, unchanged |

## Left out

- I/O, logging (`logging.debug`, `log_append`, `log_reset`, `log_summarize`), random agent colours and identifiers, and detaching torch graphs are side effects with no bearing on the values modelled.
- The IPOPT solve, its option strings (`max_iter`, `max_cpu_time`, `tol`, `print_level`, timing statistics, derivative test), and multi-start in parallel processes are not modelled. The solve is a function parameter. The problem records only whether the Jacobian and the Hessian are approximated.
- torch autograd, `z_to_ego_trajectory`, `dx_du`, the abstract `dynamics`, `_compute` and the objective modules' gradients are inputs to the model. Their values are not modelled.
- The Trajectron network, its scene graph and nodes, the online environment (`_add_ado_to_graph`, `_add_ego_to_graph`, `detach`), config loading, and the mapping from ado id to ado index are foreign library code.
- `is_unconstrained` (in the solver base class) is taken to mean "no constraint module". The base class is not part of this model.
- Floating point: every value is an exact real. float32 casts, `np.isclose` and `1e-3`-style tolerances are not represented.
- SpeedLimits.Normalize: requires the upper limit to be non-zero, because dividing by a zero limit has no real value. It requires `|v_min| = |v_max|` exactly, where the source accepts `np.isclose`.
- ConstraintModules.ConstraintModule.ViolationInternal: requires a cached value. The source would fail on `None`, and the model does not represent that failure.
- ConstraintModules.ConstraintModule.Constraint: the `check_ego_trajectory` shape asserts become the `T + 1` rows requirement.
- ConstraintModules.ConstraintModule.Jacobian: the asserts that `grad_wrt` and `ego_trajectory` require a gradient (lines 66-67) are dropped, because the autograd gradients are an input of the model. The assert that the constraint requires a gradient when the gradient condition holds (lines 72-73) becomes `gradientCondition ==> requiresGrad`.
- Integrator.InverseDynamics: requires `dt != 0`, where the source divides and would produce infinities. The `check_ego_action` post-assert is not modelled.
- Integrator.RolloutWithinReach: proves containment in the bounding square of the reachability circle (per axis), not in the circle. Controls bounded per axis by `speed_max` can leave the circle diagonally (by up to a factor √2). The source states the circle for an isotropic speed bound, which its control box does not express.
- Agents.Agent.Update: the assert that the speed is not infinite has no counterpart, because reals are finite. The norm is abstract (`IsNorm`), so the Euclidean formula itself is not modelled.
- Agents.Agent.State: `np.arctan2` is the abstract `heading`, so the angle's value is not modelled.
- Agents.Agent.constructor: the shape asserts on position, velocity and history columns are implied by the datatypes.
- ConstraintModules.ExcessScale: states scaling per output only. A scaled violation of a whole sequence follows by summation, but no lemma is given for it.
- TrajectronHelpers.InitialStepShape: the initial log sigma, correlation and log weight are parameters, because `log` and `sqrt` of the configured variance and `log(1/m)` are transcendental.
- TrajectronHelpers.AgentIdFromNode: a name without `/` returns no id, where the source raises an index error.
- IpoptSolver.Optimize and IpoptBase.Optimize: the solver's `_goal` reset and the environment detach are not modelled. Neither affects the assembled problem.
- IpoptBase.AssembleNlp and ConstraintModules.SpecBoundaries: `constraint_boundaries(ado_ids=…)` is defined in a module base class that is not part of this model. It is taken to broadcast the raw `_constraint_limits()` over `_num_constraints(ado_ids)`, as the id-free `constraint_boundaries` of `constraint_module.py` does. So the speed-limit bounds handed to IPOPT are the raw `v_min`/`v_max` (IpoptBase.SpeedThenPureBounds). SpeedLimits.SpeedViolation instead reads the base class as normalising the violation, as the module tests expect. A base class that normalises the bounds too would divide every bound by `v_max`; the model does not capture that reading.
- PureObjective.New: the `env` argument is dropped. It is only passed on to the base class and has no effect on this module's values.
