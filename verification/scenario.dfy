/**
 * `Scenario.make_world` and `Scenario.reset_world`. The random draws
 * (`np.random.uniform(-1, +1, dim_p)`) and the colour assignment the world
 * performs are inputs; the state they produce is the model.
 */
module Scenario {
  import opened Wrappers
  import opened Geometry
  import opened Entities

  /** Radius `make_world` gives every agent. */
  const AgentSize: real := 0.15
  /** Communication dimension `make_world` sets. */
  const CommDim: nat := 2
  /** Position dimension of a fresh `World` (the physics default). */
  const PositionDim: nat := 2
  /** Landmarks are drawn in the square scaled by this factor. */
  const LandmarkSpread: real := 0.8

  /** Decimal digits of `n`, as `'%d' % n` prints them. */
  function NatToString(n: nat): (s: string)
    ensures 0 < |s|
    ensures forall k :: 0 <= k < |s| ==> '0' <= s[k] <= '9'
  {
    if n < 10 then ['0' + n as char]
    else NatToString(n / 10) + ['0' + (n % 10) as char]
  }

  /** Every component of every draw lies in the half-open range of
      `np.random.uniform(-1, +1)` and has dimension `dim`. */
  ghost predicate UniformDraws(draws: seq<Vec>, dim: nat) {
    forall j :: 0 <= j < |draws| ==>
      |draws[j]| == dim && forall d :: 0 <= d < dim ==> -1.0 <= draws[j][d] < 1.0
  }

  /** `v` scaled by `c`, component by component. */
  function Scale(c: real, v: Vec): (r: Vec)
    ensures |r| == |v|
    ensures forall d :: 0 <= d < |v| ==> r[d] == c * v[d]
  {
    seq(|v|, d requires 0 <= d < |v| => c * v[d])
  }

  /**
   * `reset_world`: every agent takes its colour and its drawn position, with
   * zero velocity and zero communication; every landmark takes its colour,
   * 0.8 times its drawn position, and zero velocity. Nothing else changes —
   * in particular neither accumulator attribute is cleared.
   */
  function ResetWorld(w: World, agentColors: seq<Color>, landmarkColors: seq<Color>,
                      agentDraws: seq<Vec>, landmarkDraws: seq<Vec>): (r: World)
    requires |agentColors| == |agentDraws| == |w.agents|
    requires |landmarkColors| == |landmarkDraws| == |w.landmarks|
    requires UniformDraws(agentDraws, w.dimP) && UniformDraws(landmarkDraws, w.dimP)
    ensures WellFormed(r)
    ensures |r.agents| == |w.agents| && |r.landmarks| == |w.landmarks|
    ensures r.dimP == w.dimP && r.dimC == w.dimC
    ensures r.prevTotalDist == w.prevTotalDist && r.prevTotalDistance == w.prevTotalDistance
    ensures r.worldLength == w.worldLength && r.collaborative == w.collaborative
    ensures forall j :: 0 <= j < |r.agents| ==> r.agents[j].pos == agentDraws[j]
    ensures forall k, d :: 0 <= k < |r.landmarks| && 0 <= d < r.dimP ==>
      r.landmarks[k].pos[d] == LandmarkSpread * landmarkDraws[k][d]
    ensures forall j, d :: 0 <= j < |r.agents| && 0 <= d < r.dimP ==>
      -1.0 <= r.agents[j].pos[d] <= 1.0 && r.agents[j].vel[d] == 0.0
    ensures forall j, d :: 0 <= j < |r.agents| && 0 <= d < r.dimC ==> r.agents[j].comm[d] == 0.0
    ensures forall k, d :: 0 <= k < |r.landmarks| && 0 <= d < r.dimP ==>
      -0.8 <= r.landmarks[k].pos[d] <= 0.8 && r.landmarks[k].vel[d] == 0.0
    ensures forall j :: 0 <= j < |r.agents| ==>
      var a, a' := w.agents[j], r.agents[j];
      && a'.name == a.name && a'.size == a.size && a'.collide == a.collide && a'.silent == a.silent
      && a'.color == agentColors[j]
    ensures forall k :: 0 <= k < |r.landmarks| ==>
      var l, l' := w.landmarks[k], r.landmarks[k];
      && l'.name == l.name && l'.collide == l.collide && l'.movable == l.movable
      && l'.color == landmarkColors[k]
  {
    var agents := seq(|w.agents|, j requires 0 <= j < |w.agents| =>
      w.agents[j].(color := agentColors[j], pos := agentDraws[j], vel := Zeros(w.dimP), comm := Zeros(w.dimC)));
    var landmarks := seq(|w.landmarks|, k requires 0 <= k < |w.landmarks| =>
      w.landmarks[k].(color := landmarkColors[k], pos := Scale(LandmarkSpread, landmarkDraws[k]), vel := Zeros(w.dimP)));
    w.(agents := agents, landmarks := landmarks)
  }

  /** A fresh agent as `make_world` configures it, before the reset. */
  function NewAgent(j: nat): Agent {
    Agent("agent " + NatToString(j), [], [], [], AgentSize, true, true, [])
  }

  /** A fresh landmark as `make_world` configures it, before the reset. */
  function NewLandmark(k: nat): Landmark {
    Landmark("landmark " + NatToString(k), [], [], false, false, [])
  }

  /**
   * `make_world`: `numAgents` colliding, silent agents of radius 0.15 and
   * `numLandmarks` fixed, non-colliding landmarks, then a reset. The
   * attribute it initialises to `None` is `prevTotalDistance`; the
   * attribute the rewards use, `prevTotalDist`, is simply never set.
   * Empty agent or landmark counts are accepted.
   */
  function MakeWorld(numAgents: nat, numLandmarks: nat, episodeLength: int,
                     agentColors: seq<Color>, landmarkColors: seq<Color>,
                     agentDraws: seq<Vec>, landmarkDraws: seq<Vec>): (w: World)
    requires |agentColors| == |agentDraws| == numAgents
    requires |landmarkColors| == |landmarkDraws| == numLandmarks
    requires UniformDraws(agentDraws, PositionDim) && UniformDraws(landmarkDraws, PositionDim)
    ensures WellFormed(w)
    ensures |w.agents| == numAgents && |w.landmarks| == numLandmarks
    ensures w.dimP == PositionDim && w.dimC == CommDim && w.worldLength == episodeLength
    ensures !w.collaborative
    ensures w.prevTotalDistance.None? && w.prevTotalDist.None?
    ensures forall j :: 0 <= j < numAgents ==>
      w.agents[j].collide && w.agents[j].silent && w.agents[j].size == AgentSize
    ensures forall k :: 0 <= k < numLandmarks ==> !w.landmarks[k].collide && !w.landmarks[k].movable
    ensures forall j :: 0 <= j < numAgents ==>
      && w.agents[j].name == "agent " + NatToString(j)
      && w.agents[j].pos == agentDraws[j]
      && w.agents[j].vel == Zeros(PositionDim) && w.agents[j].comm == Zeros(CommDim)
      && w.agents[j].color == agentColors[j]
    ensures forall k :: 0 <= k < numLandmarks ==>
      && w.landmarks[k].name == "landmark " + NatToString(k)
      && w.landmarks[k].pos == Scale(LandmarkSpread, landmarkDraws[k])
      && w.landmarks[k].vel == Zeros(PositionDim)
      && w.landmarks[k].color == landmarkColors[k]
  {
    var blank := World(
      seq(numAgents, j requires 0 <= j => NewAgent(j)),
      seq(numLandmarks, k requires 0 <= k => NewLandmark(k)),
      PositionDim, CommDim, episodeLength, false, None, None);
    assert forall j :: 0 <= j < numAgents ==> blank.agents[j] == NewAgent(j);
    assert forall k :: 0 <= k < numLandmarks ==> blank.landmarks[k] == NewLandmark(k);
    ResetWorld(blank, agentColors, landmarkColors, agentDraws, landmarkDraws)
  }
}
