/** The single-integrator agent: the velocity is the control input and the position integrates it. */
module Integrator {
  import opened Trajectories

  /** An integrator state: position at entries 0:2, velocity at entries 2:4. */
  datatype IntegratorState = IntegratorState(position: Vec2, velocity: Vec2)

  datatype Circle = Circle(center: Vec2, radius: real)

  function Abs(r: real): real
  {
    if r < 0.0 then -r else r
  }

  /** `dynamics`: the action becomes the new velocity and the position advances by `action * dt`. */
  function Dynamics(s: IntegratorState, action: seq<real>, dt: real): (next: IntegratorState)
    requires |action| == 2
    ensures next.velocity == Vec2(action[0], action[1])
    ensures next.position.x - s.position.x == next.velocity.x * dt
    ensures next.position.y - s.position.y == next.velocity.y * dt
  {
    var velocity := Vec2(action[0], action[1]);
    IntegratorState(Vec2(s.position.x + velocity.x * dt, s.position.y + velocity.y * dt), velocity)
  }

  /** `inverse_dynamics`: the action that moves `previous` to `s` within `dt`. */
  function InverseDynamics(s: IntegratorState, previous: IntegratorState, dt: real): (action: seq<real>)
    requires dt != 0.0
    ensures |action| == 2
    ensures previous.position.x + action[0] * dt == s.position.x
    ensures previous.position.y + action[1] * dt == s.position.y
  {
    [(s.position.x - previous.position.x) / dt, (s.position.y - previous.position.y) / dt]
  }

  /** The new state depends on the old position only: the old velocity plays no part. */
  lemma DynamicsIgnoresVelocity(s: IntegratorState, t: IntegratorState, action: seq<real>, dt: real)
    requires |action| == 2 && s.position == t.position
    ensures Dynamics(s, action, dt) == Dynamics(t, action, dt)
    ensures Dynamics(s, action, dt).velocity == Vec2(action[0], action[1])
  {
  }

  /** Inverting one step of the dynamics recovers the action that was applied. */
  lemma InverseAfterDynamics(s: IntegratorState, action: seq<real>, dt: real)
    requires |action| == 2 && dt != 0.0
    ensures InverseDynamics(Dynamics(s, action, dt), s, dt) == action
  {
    var next := Dynamics(s, action, dt);
    var u := InverseDynamics(next, s, dt);
    assert u[0] * dt == action[0] * dt;
    assert u[1] * dt == action[1] * dt;
  }

  /** Applying the inverted action to the earlier state reaches the later position. */
  lemma DynamicsAfterInverse(s: IntegratorState, previous: IntegratorState, dt: real)
    requires dt != 0.0
    ensures Dynamics(previous, InverseDynamics(s, previous, dt), dt).position == s.position
  {
  }

  /** `control_limits`: the box `[-speed_max, speed_max]`, symmetric about zero. */
  function ControlLimits(speedMax: real): (limits: (real, real))
    ensures limits.0 == -limits.1 && limits.1 == speedMax
  {
    (-speedMax, speedMax)
  }

  /** `reachability_boundary`: a circle around the current position of radius `speed_max * dt * steps`. */
  function ReachabilityBoundary(position: Vec2, speedMax: real, steps: nat, dt: real): (c: Circle)
    ensures c.center == position
    ensures speedMax >= 0.0 && dt >= 0.0 ==> c.radius >= 0.0
    ensures steps == 0 ==> c.radius == 0.0
  {
    Circle(position, speedMax * dt * steps as real)
  }

  /** The radius grows linearly in the number of steps. */
  lemma RadiusAdditive(position: Vec2, speedMax: real, m: nat, n: nat, dt: real)
    ensures ReachabilityBoundary(position, speedMax, m + n, dt).radius
         == ReachabilityBoundary(position, speedMax, m, dt).radius + ReachabilityBoundary(position, speedMax, n, dt).radius
    ensures ReachabilityBoundary(position, speedMax, 0, dt).radius == 0.0
  {
    var r := speedMax * dt;
    assert r * (m + n) as real == r * m as real + r * n as real;
  }

  /** Every action lies within the control limits on both axes. */
  predicate WithinControlLimits(actions: seq<seq<real>>, speedMax: real)
  {
    forall k :: 0 <= k < |actions| ==>
      |actions[k]| == 2 && Abs(actions[k][0]) <= ControlLimits(speedMax).1 && Abs(actions[k][1]) <= ControlLimits(speedMax).1
  }

  /** The state after applying the actions one after another. */
  function Rollout(s: IntegratorState, actions: seq<seq<real>>, dt: real): IntegratorState
    requires forall k :: 0 <= k < |actions| ==> |actions[k]| == 2
    decreases |actions|
  {
    if actions == [] then s else Rollout(Dynamics(s, actions[0], dt), actions[1..], dt)
  }

  lemma StepBound(a: real, speedMax: real, dt: real)
    requires Abs(a) <= speedMax && dt >= 0.0
    ensures Abs(a * dt) <= speedMax * dt
  {
    if a >= 0.0 {
      assert a * dt <= speedMax * dt;
    } else {
      assert (-a) * dt <= speedMax * dt;
    }
  }

  /** `n` steps of length `step`, added one at a time. */
  function StepsBound(step: real, n: nat): real
  {
    if n == 0 then 0.0 else step + StepsBound(step, n - 1)
  }

  lemma {:induction false} StepsBoundIsProduct(step: real, n: nat)
    ensures StepsBound(step, n) == step * n as real
  {
    if n > 0 {
      StepsBoundIsProduct(step, n - 1);
      assert step * n as real == step + step * (n - 1) as real;
    }
  }

  lemma RadiusIsStepsBound(position: Vec2, speedMax: real, n: nat, dt: real)
    ensures ReachabilityBoundary(position, speedMax, n, dt).radius == StepsBound(speedMax * dt, n)
  {
    StepsBoundIsProduct(speedMax * dt, n);
  }

  /** Each action moves the position by at most `step` along either axis. */
  predicate StepsWithin(actions: seq<seq<real>>, dt: real, step: real)
    ensures StepsWithin(actions, dt, step) ==> forall k :: 0 <= k < |actions| ==> |actions[k]| == 2
    decreases |actions|
  {
    actions == [] ||
    (|actions[0]| == 2 && Abs(actions[0][0] * dt) <= step && Abs(actions[0][1] * dt) <= step
     && StepsWithin(actions[1..], dt, step))
  }

  /** Actions within the control limits move the position by at most `speed_max * dt` per step. */
  lemma {:induction false} LimitsBoundSteps(actions: seq<seq<real>>, speedMax: real, dt: real)
    requires dt >= 0.0 && WithinControlLimits(actions, speedMax)
    ensures StepsWithin(actions, dt, speedMax * dt)
    decreases |actions|
  {
    if actions != [] {
      StepBound(actions[0][0], speedMax, dt);
      StepBound(actions[0][1], speedMax, dt);
      assert WithinControlLimits(actions[1..], speedMax) by {
        forall k | 0 <= k < |actions| - 1
          ensures |actions[1..][k]| == 2 && Abs(actions[1..][k][0]) <= speedMax && Abs(actions[1..][k][1]) <= speedMax
        {
          assert actions[1..][k] == actions[k + 1];
        }
      }
      LimitsBoundSteps(actions[1..], speedMax, dt);
    }
  }

  /** One step of a rollout: the first action moves the position by `action * dt`. */
  lemma RolloutFirst(s: IntegratorState, actions: seq<seq<real>>, dt: real)
    requires actions != [] && forall k :: 0 <= k < |actions| ==> |actions[k]| == 2
    ensures Rollout(s, actions, dt) == Rollout(Dynamics(s, actions[0], dt), actions[1..], dt)
    ensures Dynamics(s, actions[0], dt).position == Vec2(s.position.x + actions[0][0] * dt, s.position.y + actions[0][1] * dt)
  {
  }

  lemma {:induction false} RolloutAxisBound(s: IntegratorState, actions: seq<seq<real>>, dt: real, step: real)
    requires StepsWithin(actions, dt, step)
    ensures Abs(Rollout(s, actions, dt).position.x - s.position.x) <= StepsBound(step, |actions|)
    ensures Abs(Rollout(s, actions, dt).position.y - s.position.y) <= StepsBound(step, |actions|)
    decreases |actions|
  {
    if actions != [] {
      var next := Dynamics(s, actions[0], dt);
      var rest := actions[1..];
      var bound := StepsBound(step, |rest|);
      RolloutFirst(s, actions, dt);
      RolloutAxisBound(next, rest, dt, step);
      var end := Rollout(next, rest, dt);
      assert StepsBound(step, |actions|) == step + bound;
      TriangleStep(s.position.x, actions[0][0] * dt, end.position.x, step, bound);
      TriangleStep(s.position.y, actions[0][1] * dt, end.position.y, step, bound);
    }
  }

  lemma TriangleStep(x0: real, d: real, x2: real, step: real, rest: real)
    requires Abs(d) <= step && Abs(x2 - (x0 + d)) <= rest
    ensures Abs(x2 - x0) <= step + rest
  {
  }

  /** A rollout whose controls stay within the limits stays, along each axis, within the reachability
      radius of the start: the bounding square of the reachability circle. */
  lemma RolloutWithinReach(s: IntegratorState, actions: seq<seq<real>>, speedMax: real, dt: real)
    requires dt >= 0.0 && speedMax >= 0.0
    requires WithinControlLimits(actions, speedMax)
    ensures Abs(Rollout(s, actions, dt).position.x - s.position.x) <= ReachabilityBoundary(s.position, speedMax, |actions|, dt).radius
    ensures Abs(Rollout(s, actions, dt).position.y - s.position.y) <= ReachabilityBoundary(s.position, speedMax, |actions|, dt).radius
  {
    LimitsBoundSteps(actions, speedMax, dt);
    RolloutAxisBound(s, actions, dt, speedMax * dt);
    RadiusIsStepsBound(s.position, speedMax, |actions|, dt);
  }
}
