/** The stateful agent: position, velocity and a timestamped history, driven by abstract dynamics. */
module Agents {
  import opened Wrappers
  import opened Trajectories

  /** The agent state `(x, y, theta, vx, vy)`. */
  datatype AgentState = AgentState(x: real, y: real, theta: real, vx: real, vy: real)

  /** One history or trajectory row: a state and its timestamp (six columns). */
  datatype StampedState = StampedState(state: AgentState, t: real)

  /** A policy is either a single action or one action per row. */
  datatype Policy = SingleAction(action: seq<real>) | ActionRows(rows: seq<seq<real>>)

  /** A single action is treated as a policy of one row. */
  function PolicyRows(p: Policy): (rows: seq<seq<real>>)
    ensures p.SingleAction? ==> rows == [p.action]
    ensures p.ActionRows? ==> rows == p.rows
  {
    match p
    case SingleAction(a) => [a]
    case ActionRows(rs) => rs
  }

  /** A velocity scaled by a factor. */
  function Scale(v: Vec2, c: real): Vec2
  {
    Vec2(v.x * c, v.y * c)
  }

  /** The properties of the Euclidean norm the model relies on: it is non-negative and positively
      homogeneous. */
  ghost predicate IsNorm(norm: Vec2 -> real)
  {
    (forall v :: norm(v) >= 0.0) &&
    (forall v, c :: c >= 0.0 ==> norm(Scale(v, c)) == c * norm(v))
  }

  lemma DivAsScale(x: real, n: real, m: real)
    requires n != 0.0
    ensures x / n * m == x * (m / n)
  {
  }

  lemma ScaleBack(n: real, m: real)
    requires n != 0.0
    ensures (m / n) * n == m
  {
  }

  /** Dividing a velocity `v` by its speed `n` and multiplying by `m` gives speed exactly `m`. */
  lemma RescaledNorm(norm: Vec2 -> real, v: Vec2, n: real, m: real, w: Vec2)
    requires IsNorm(norm) && n == norm(v) && n > 0.0 && m >= 0.0
    requires w == Vec2(v.x / n * m, v.y / n * m)
    ensures norm(w) == m
  {
    var c := m / n;
    DivAsScale(v.x, n, m);
    DivAsScale(v.y, n, m);
    assert w == Scale(v, c);
    assert c >= 0.0;
    assert norm(Scale(v, c)) == c * n;
    ScaleBack(n, m);
  }

  /** The agent; `dynamics`, `heading` (arctan2 of velocity) and `norm` stand for code not modelled here. */
  class Agent {
    var position: Vec2
    var velocity: Vec2
    var history: seq<StampedState>
    const dynamics: (AgentState, seq<real>, real) -> AgentState
    const heading: (real, real) -> real
    const norm: Vec2 -> real
    /** `agent_speed_max`. */
    const speedMax: real

    ghost predicate Valid()
    {
      IsNorm(norm) && speedMax >= 0.0
    }

    /** `state`: the pose `(x, y, arctan2(vy, vx))` followed by the velocity. */
    function State(): (s: AgentState)
      reads this
      ensures s.x == position.x && s.y == position.y && s.vx == velocity.x && s.vy == velocity.y
      ensures s.theta == heading(velocity.y, velocity.x)
    {
      AgentState(position.x, position.y, heading(velocity.y, velocity.x), velocity.x, velocity.y)
    }

    /** `speed`: the norm of the velocity. */
    function Speed(): (v: real)
      reads this
      requires Valid()
      ensures v >= 0.0
    {
      norm(velocity)
    }

    /** The history row of the current state at `time` is appended to the given history, if any. */
    constructor (position: Vec2, velocity: Vec2, time: real, history: Option<seq<StampedState>>,
                 dynamics: (AgentState, seq<real>, real) -> AgentState, heading: (real, real) -> real,
                 norm: Vec2 -> real, speedMax: real)
      requires time >= 0.0 && IsNorm(norm) && speedMax >= 0.0
      ensures Valid()
      ensures this.position == position && this.velocity == velocity
      ensures this.dynamics == dynamics && this.heading == heading && this.norm == norm && this.speedMax == speedMax
      ensures this.history == (if history.Some? then history.value else []) + [StampedState(State(), time)]
    {
      this.position := position;
      this.velocity := velocity;
      this.dynamics := dynamics;
      this.heading := heading;
      this.norm := norm;
      this.speedMax := speedMax;
      new;
      var row := StampedState(State(), time);
      this.history := (if history.Some? then history.value else []) + [row];
    }

    /** `update`: one step of the dynamics, an overspeed rescaled to exactly the limit, and one new
        history row stamped `dt` after the previous last one. */
    method Update(action: seq<real>, dt: real)
      requires Valid() && dt > 0.0 && |history| > 0
      modifies this
      ensures Valid()
      ensures var next := dynamics(old(State()), action, dt);
        var n := norm(Vec2(next.vx, next.vy));
        position == Vec2(next.x, next.y) &&
        velocity == (if n > speedMax then Vec2(next.vx / n * speedMax, next.vy / n * speedMax) else Vec2(next.vx, next.vy)) &&
        (n > speedMax ==> Speed() == speedMax)
      ensures Speed() <= speedMax
      ensures history == old(history) + [StampedState(State(), old(history[|history| - 1].t) + dt)]
    {
      var next := dynamics(State(), action, dt);
      var v := Vec2(next.vx, next.vy);
      var n := norm(v);
      position := Vec2(next.x, next.y);
      if n > speedMax {
        var rescaled := Vec2(v.x / n * speedMax, v.y / n * speedMax);
        RescaledNorm(norm, v, n, speedMax, rescaled);
        velocity := rescaled;
      } else {
        velocity := Vec2(next.vx, next.vy);
      }
      history := history + [StampedState(State(), history[|history| - 1].t + dt)];
    }

    /** `unroll_trajectory`: the current state at time 0 and then one row per action, without
        changing the agent. */
    method UnrollTrajectory(policy: Policy, dt: real) returns (trajectory: array<StampedState>)
      requires dt > 0.0
      ensures fresh(trajectory)
      ensures trajectory.Length == |PolicyRows(policy)| + 1
      ensures trajectory[..] == Unrolled(dynamics, State(), PolicyRows(policy), dt)
    {
      var rows := PolicyRows(policy);
      var start := State();
      trajectory := new StampedState[|rows| + 1](_ => StampedState(start, 0.0));
      var stateAt := start;
      var k := 0;
      while k < |rows|
        invariant 0 <= k <= |rows|
        invariant stateAt == Roll(dynamics, State(), rows[..k], dt)
        invariant trajectory[..k + 1] == Unrolled(dynamics, State(), rows[..k], dt)
      {
        assert rows[..k + 1][..k] == rows[..k];
        stateAt := dynamics(stateAt, rows[k], dt);
        trajectory[k + 1] := StampedState(stateAt, (k + 1) as real * dt);
        UnrolledPrefix(dynamics, State(), rows, k, dt);
        k := k + 1;
      }
      assert rows[..|rows|] == rows;
      assert trajectory[..] == trajectory[..|rows| + 1];
    }

    /** `reset`: position and velocity from the given row; the row is appended to the history when
        no history is given, and the given history replaces it otherwise. */
    method Reset(row: StampedState, newHistory: Option<seq<StampedState>>)
      modifies this
      ensures position == Vec2(row.state.x, row.state.y) && velocity == Vec2(row.state.vx, row.state.vy)
      ensures history == if newHistory.None? then old(history) + [row] else newHistory.value
    {
      var h := if newHistory.None? then history + [row] else newHistory.value;
      position := Vec2(row.state.x, row.state.y);
      velocity := Vec2(row.state.vx, row.state.vy);
      history := h;
    }
  }

  /** The state reached by applying the actions one after another. */
  function Roll(dynamics: (AgentState, seq<real>, real) -> AgentState, s: AgentState, actions: seq<seq<real>>, dt: real): AgentState
  {
    if actions == [] then s else dynamics(Roll(dynamics, s, actions[..|actions| - 1], dt), actions[|actions| - 1], dt)
  }

  /** The unrolled trajectory: row 0 is the start at time 0, row `k` the state after `k` actions at time `k * dt`. */
  function Unrolled(dynamics: (AgentState, seq<real>, real) -> AgentState, s: AgentState, actions: seq<seq<real>>, dt: real)
    : (traj: seq<StampedState>)
    ensures |traj| == |actions| + 1
  {
    seq(|actions| + 1, k requires 0 <= k <= |actions| => StampedState(Roll(dynamics, s, actions[..k], dt), k as real * dt))
  }

  lemma UnrolledPrefix(dynamics: (AgentState, seq<real>, real) -> AgentState, s: AgentState, actions: seq<seq<real>>, k: nat, dt: real)
    requires k < |actions|
    ensures Unrolled(dynamics, s, actions[..k + 1], dt)
         == Unrolled(dynamics, s, actions[..k], dt) + [StampedState(Roll(dynamics, s, actions[..k + 1], dt), (k + 1) as real * dt)]
  {
    var a, b := Unrolled(dynamics, s, actions[..k + 1], dt), Unrolled(dynamics, s, actions[..k], dt);
    var last := StampedState(Roll(dynamics, s, actions[..k + 1], dt), (k + 1) as real * dt);
    forall j | 0 <= j <= k ensures a[j] == b[j] {
      assert actions[..k + 1][..j] == actions[..k][..j];
    }
    assert actions[..k + 1][..k + 1] == actions[..k + 1];
    assert a[k + 1] == last;
    assert a == b + [last];
  }

  /** Consecutive rows of an unrolled trajectory are one dynamics step and exactly `dt` apart, and
      row 0 is the start state at time 0. */
  lemma UnrolledSteps(dynamics: (AgentState, seq<real>, real) -> AgentState, s: AgentState, actions: seq<seq<real>>, dt: real)
    ensures Unrolled(dynamics, s, actions, dt)[0] == StampedState(s, 0.0)
    ensures forall k :: 0 <= k < |actions| ==>
      Unrolled(dynamics, s, actions, dt)[k + 1].state == dynamics(Unrolled(dynamics, s, actions, dt)[k].state, actions[k], dt) &&
      Unrolled(dynamics, s, actions, dt)[k + 1].t == Unrolled(dynamics, s, actions, dt)[k].t + dt
  {
    var traj := Unrolled(dynamics, s, actions, dt);
    forall k | 0 <= k < |actions|
      ensures traj[k + 1].state == dynamics(traj[k].state, actions[k], dt) && traj[k + 1].t == traj[k].t + dt
    {
      assert actions[..k + 1][..k] == actions[..k];
      assert (k + 1) as real * dt == k as real * dt + dt;
    }
  }
}
