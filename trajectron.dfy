/** The bookkeeping around the Trajectron predictor: node names, the synthesised default history of a
    new ado, and the certain initial step prepended to every predicted distribution. */
module TrajectronHelpers {
  import opened Wrappers
  import opened Trajectories

  /** The first position of `c` in `s`, if any. */
  function IndexOf(s: string, c: char): (r: Option<nat>)
    ensures r.None? <==> c !in s
    ensures r.Some? ==> r.value < |s| && s[r.value] == c && c !in s[..r.value]
  {
    if s == [] then None
    else if s[0] == c then Some(0)
    else
      match IndexOf(s[1..], c)
      case None => None
      case Some(i) =>
        assert s[..i + 1] == [s[0]] + s[1..][..i];
        Some(i + 1)
  }

  /** `agent_id_from_node`: the second `/`-separated field of a node name `node_type/node_id`; a name
      without any `/` has no second field (the source fails with an index error). */
  function AgentIdFromNode(node: string): (id: Option<string>)
    ensures id.None? <==> '/' !in node
    ensures id.Some? ==> '/' !in id.value
  {
    match IndexOf(node, '/')
    case None => None
    case Some(i) =>
      var rest := node[i + 1..];
      match IndexOf(rest, '/')
      case None => Some(rest)
      case Some(j) => Some(rest[..j])
  }

  /** Node names are built as `type/id`; reading the id back from such a name gives the id, whatever
      follows a further `/`. */
  lemma {:induction false} AgentIdRoundTrip(nodeType: string, id: string, suffix: string)
    requires '/' !in nodeType && '/' !in id
    ensures AgentIdFromNode(nodeType + "/" + id) == Some(id)
    ensures AgentIdFromNode(nodeType + "/" + id + "/" + suffix) == Some(id)
  {
    var a := nodeType + "/" + id;
    var b := nodeType + "/" + id + "/" + suffix;
    FirstSlash(nodeType, id);
    FirstSlash(nodeType, id + "/" + suffix);
    assert a[|nodeType| + 1..] == id;
    assert b == nodeType + "/" + (id + "/" + suffix);
    assert b[|nodeType| + 1..] == id + "/" + suffix;
    FirstSlash(id, suffix);
    assert (id + "/" + suffix)[..|id|] == id;
  }

  /** The first `/` of `front + "/" + back` is the one after `front`, when `front` has none. */
  lemma FirstSlash(front: string, back: string)
    requires '/' !in front
    ensures IndexOf(front + "/" + back, '/') == Some(|front|)
  {
    var s := front + "/" + back;
    assert s[|front|] == '/' && s[..|front|] == front;
  }

  /** Row `t` (for `t` in `-H .. 0`) of the synthesised history: the current state moved back along
      the current velocity by `t` steps of `dt`. */
  function HistoryRow(position: Vec2, velocity: Vec2, time: real, dt: real, t: int): (row: EgoState)
    ensures row.vx == velocity.x && row.vy == velocity.y
    ensures t == 0 ==> row == EgoState(position.x, position.y, velocity.x, velocity.y, time)
  {
    EgoState(position.x + velocity.x * dt * t as real, position.y + velocity.y * dt * t as real,
             velocity.x, velocity.y, time + dt * t as real)
  }

  /** The default history of `add_ado` with history length `h`: one row per `t = -h .. 0`. */
  function DefaultHistory(position: Vec2, velocity: Vec2, time: real, dt: real, h: nat): (history: seq<EgoState>)
    ensures |history| == h + 1
    ensures forall k :: 0 <= k <= h ==> history[k] == HistoryRow(position, velocity, time, dt, k - h)
  {
    seq(h + 1, k requires 0 <= k <= h => HistoryRow(position, velocity, time, dt, k - h))
  }

  lemma RowStep(position: Vec2, velocity: Vec2, time: real, dt: real, t: int)
    ensures var a, b := HistoryRow(position, velocity, time, dt, t), HistoryRow(position, velocity, time, dt, t + 1);
      b.t == a.t + dt && b.px == a.px + velocity.x * dt && b.py == a.py + velocity.y * dt &&
      b.vx == a.vx == velocity.x && b.vy == a.vy == velocity.y
  {
    assert dt * (t + 1) as real == dt * t as real + dt;
    assert velocity.x * dt * (t + 1) as real == velocity.x * dt * t as real + velocity.x * dt;
    assert velocity.y * dt * (t + 1) as real == velocity.y * dt * t as real + velocity.y * dt;
  }

  /** The synthesised history ends in the current state, and consecutive rows are exactly `dt` apart
      in time and one constant-velocity step apart in position. */
  lemma DefaultHistoryShape(position: Vec2, velocity: Vec2, time: real, dt: real, h: nat)
    ensures var history := DefaultHistory(position, velocity, time, dt, h);
      history[h] == EgoState(position.x, position.y, velocity.x, velocity.y, time)
    ensures var history := DefaultHistory(position, velocity, time, dt, h);
      forall k :: 0 <= k < h ==>
        history[k + 1].t == history[k].t + dt &&
        history[k + 1].px == history[k].px + velocity.x * dt &&
        history[k + 1].py == history[k].py + velocity.y * dt &&
        history[k].vx == velocity.x && history[k].vy == velocity.y
  {
    var history := DefaultHistory(position, velocity, time, dt, h);
    forall k | 0 <= k < h
      ensures history[k + 1].t == history[k].t + dt
      ensures history[k + 1].px == history[k].px + velocity.x * dt
      ensures history[k + 1].py == history[k].py + velocity.y * dt
      ensures history[k].vx == velocity.x && history[k].vy == velocity.y
    {
      RowStep(position, velocity, time, dt, k - h);
      assert k + 1 - h == (k - h) + 1;
    }
  }

  /** The history `add_ado` hands on: the synthesised one when none is given, the given one as is. */
  function AdoHistory(history: Option<seq<EgoState>>, position: Vec2, velocity: Vec2, time: real, dt: real, h: nat)
    : (r: seq<EgoState>)
    ensures history.Some? ==> r == history.value
    ensures history.None? ==> r == DefaultHistory(position, velocity, time, dt, h)
    ensures history.None? ==> |r| == h + 1 && r[h] == EgoState(position.x, position.y, velocity.x, velocity.y, time)
  {
    if history.Some? then history.value
    else
      DefaultHistoryShape(position, velocity, time, dt, h);
      DefaultHistory(position, velocity, time, dt, h)
  }

  /** A per-ado mixture over `T` steps and `m` modes: means, log standard deviations, correlations and
      log weights. */
  datatype Gmm = Gmm(mus: seq<seq<Vec2>>, logSigmas: seq<seq<Vec2>>, corrs: seq<seq<real>>, logPis: seq<seq<real>>)

  /** Every field has `steps` time steps of `m` modes each. */
  predicate Shaped(d: Gmm, steps: nat, m: nat)
  {
    |d.mus| == |d.logSigmas| == |d.corrs| == |d.logPis| == steps &&
    (forall k :: 0 <= k < steps ==> |d.mus[k]| == m && |d.logSigmas[k]| == m && |d.corrs[k]| == m && |d.logPis[k]| == m)
  }

  /** The same value for every mode. */
  function Modes<T>(value: T, m: nat): (r: seq<T>)
    ensures |r| == m && forall i :: 0 <= i < m ==> r[i] == value
  {
    seq(m, _ => value)
  }

  /** The certain initial step prepended to the network's distribution: every mode's mean is the
      ado's current position; the initial log sigma, correlation and log weight are the given
      constants (`log` and `sqrt` of the configured variance and `log(1/m)`). */
  function WithInitialStep(d: Gmm, position: Vec2, m: nat, logSigma: real, corr: real, logPi: real): (r: Gmm)
    ensures |r.mus| == |d.mus| + 1 && r.mus[0] == Modes(position, m) && r.mus[1..] == d.mus
    ensures |r.logSigmas| == |d.logSigmas| + 1 && r.logSigmas[0] == Modes(Vec2(logSigma, logSigma), m)
    ensures r.logSigmas[1..] == d.logSigmas
    ensures |r.corrs| == |d.corrs| + 1 && r.corrs[0] == Modes(corr, m) && r.corrs[1..] == d.corrs
    ensures |r.logPis| == |d.logPis| + 1 && r.logPis[0] == Modes(logPi, m) && r.logPis[1..] == d.logPis
  {
    Gmm([Modes(position, m)] + d.mus, [Modes(Vec2(logSigma, logSigma), m)] + d.logSigmas,
        [Modes(corr, m)] + d.corrs, [Modes(logPi, m)] + d.logPis)
  }

  /** A network output over `T` steps becomes a distribution over `T + 1` steps whose step 0 puts
      every mode at the current position and whose later steps are the network's, unchanged. */
  lemma InitialStepShape(d: Gmm, position: Vec2, m: nat, logSigma: real, corr: real, logPi: real, tHorizon: nat)
    requires Shaped(d, tHorizon, m)
    ensures Shaped(WithInitialStep(d, position, m, logSigma, corr, logPi), tHorizon + 1, m)
    ensures forall i :: 0 <= i < m ==> WithInitialStep(d, position, m, logSigma, corr, logPi).mus[0][i] == position
    ensures var r := WithInitialStep(d, position, m, logSigma, corr, logPi);
      r.mus[1..] == d.mus && r.logSigmas[1..] == d.logSigmas && r.corrs[1..] == d.corrs && r.logPis[1..] == d.logPis
  {
    var r := WithInitialStep(d, position, m, logSigma, corr, logPi);
    forall k | 0 <= k < tHorizon + 1
      ensures |r.mus[k]| == m && |r.logSigmas[k]| == m && |r.corrs[k]| == m && |r.logPis[k]| == m
    {
      if k > 0 {
        assert r.mus[k] == d.mus[k - 1];
        assert r.logSigmas[k] == d.logSigmas[k - 1];
        assert r.corrs[k] == d.corrs[k - 1];
        assert r.logPis[k] == d.logPis[k - 1];
      }
    }
  }
}
