/** Planar vectors and ego trajectories as the optimisation modules see them. */
module Trajectories {
  import opened Sequences

  datatype Vec2 = Vec2(x: real, y: real)

  /** One trajectory row with the five columns (x, y, vx, vy, t). */
  datatype EgoState = EgoState(px: real, py: real, vx: real, vy: real, t: real)

  /** An ego trajectory: T + 1 rows for a horizon of T steps. */
  type Trajectory = seq<EgoState>

  /** Number of columns of a trajectory row. */
  const StateSize: nat := 5

  /** The columns of one row, in order. */
  function Entries(s: EgoState): (r: seq<real>)
    ensures |r| == StateSize
  {
    [s.px, s.py, s.vx, s.vy, s.t]
  }

  /** The trajectory as a matrix with `StateSize` columns. */
  function Rows(traj: Trajectory): (m: seq<seq<real>>)
    ensures |m| == |traj| && Rectangular(m, StateSize)
  {
    seq(|traj|, i requires 0 <= i < |traj| => Entries(traj[i]))
  }

  /** The trajectory flattened row by row: entry `k` of row `t` sits at `5 * t + k`. */
  function FlatStates(traj: Trajectory): (x: seq<real>)
    ensures |x| == StateSize * |traj|
  {
    ConcatLength(Rows(traj), StateSize);
    Concat(Rows(traj))
  }
}
