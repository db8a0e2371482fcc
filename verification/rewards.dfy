/**
 * The reward regimes of the simple-spread scenario (`Scenario.reward`),
 * selected by the `reward_type` string. The progress accumulator the
 * `shared` and `partially_shared` regimes keep on the world is passed in
 * through `World.prevTotalDist` and handed back in `RewardStep`.
 */
module Rewards {
  import opened Wrappers
  import opened Geometry
  import opened Entities
  import opened Collision
  import opened Reductions

  /** What `reward` raises: `ValueError` for an unknown regime, and the
      `ValueError` of `min()` over an empty list (a world without landmarks). */
  datatype RewardError = UnknownRewardType(rewardType: string) | EmptyMin

  /** A reward value and the accumulator as the call left it. */
  datatype RewardStep = RewardStep(value: real, prevTotalDist: Option<real>)

  /** Shaping constants of the `individual` regime. */
  const IdealDist: real := 0.25
  const Tolerance: real := 0.1
  const Bonus: real := 1.0
  const PenaltyClose: real := -1.0
  const PenaltyFar: real := -0.5
  const CollisionPenalty: real := -1.0

  /** Distances from one agent to every landmark, in world order. */
  function LandmarkDists(sqrt: real -> real, a: Agent, ls: seq<Landmark>): seq<real>
    requires IsSqrt(sqrt)
  {
    seq(|ls|, k requires 0 <= k < |ls| => Dist(sqrt, a.pos, ls[k].pos))
  }

  /** Distances from every agent, in world order, to one landmark. */
  function AgentDists(sqrt: real -> real, agents: seq<Agent>, l: Landmark): seq<real>
    requires IsSqrt(sqrt)
  {
    seq(|agents|, i requires 0 <= i < |agents| => Dist(sqrt, agents[i].pos, l.pos))
  }

  /** For every landmark, the distance of the agent nearest to it. */
  function NearestAgentDists(sqrt: real -> real, agents: seq<Agent>, ls: seq<Landmark>): seq<real>
    requires IsSqrt(sqrt)
    requires 0 < |agents|
  {
    seq(|ls|, k requires 0 <= k < |ls| => MinOf(AgentDists(sqrt, agents, ls[k])))
  }

  /** `-= min(dists)` over the landmarks, as a positive total. */
  function MinDistSum(sqrt: real -> real, agents: seq<Agent>, ls: seq<Landmark>): (r: real)
    requires IsSqrt(sqrt)
    requires 0 < |agents|
    ensures 0.0 <= r
  {
    SumNonNegative(NearestAgentDists(sqrt, agents, ls));
    Sum(NearestAgentDists(sqrt, agents, ls))
  }

  /** For each landmark, the agents' distances summed in agent order. */
  function LandmarkTotals(sqrt: real -> real, agents: seq<Agent>, ls: seq<Landmark>): seq<real>
    requires IsSqrt(sqrt)
  {
    seq(|ls|, k requires 0 <= k < |ls| => Sum(AgentDists(sqrt, agents, ls[k])))
  }

  /** `total_dist`: every agent-landmark distance, summed. */
  function TotalDist(sqrt: real -> real, agents: seq<Agent>, ls: seq<Landmark>): (r: real)
    requires IsSqrt(sqrt)
    ensures 0.0 <= r
    ensures |ls| == 0 ==> r == 0.0
  {
    var totals := LandmarkTotals(sqrt, agents, ls);
    forall k | 0 <= k < |totals|
      ensures 0.0 <= totals[k]
    {
      SumNonNegative(AgentDists(sqrt, agents, ls[k]));
    }
    SumNonNegative(totals);
    Sum(totals)
  }

  /** The proximity term of the `individual` regime for a nearest-landmark
      distance `d`: the bonus inside the band (0.15, 0.35) around the ideal
      distance, the close penalty below it, the far penalty above it. */
  function ProximityReward(d: real): (r: real)
    ensures r == Bonus <==> 0.15 < d < 0.35
    ensures r == PenaltyClose <==> d <= 0.15
    ensures r == PenaltyFar <==> 0.35 <= d
  {
    if (if d - IdealDist < 0.0 then IdealDist - d else d - IdealDist) < Tolerance then Bonus
    else if d < IdealDist then PenaltyClose
    else PenaltyFar
  }

  /** The nearest-landmark distance of agent `a`, `min(distances)`. */
  function NearestLandmarkDist(sqrt: real -> real, a: Agent, ls: seq<Landmark>): (d: real)
    requires IsSqrt(sqrt)
    requires 0 < |ls|
    ensures 0.0 <= d
    ensures exists k :: 0 <= k < |ls| && d == Dist(sqrt, a.pos, ls[k].pos)
    ensures forall k :: 0 <= k < |ls| ==> d <= Dist(sqrt, a.pos, ls[k].pos)
  {
    var ds := LandmarkDists(sqrt, a, ls);
    var d := MinOf(ds);
    assert forall k :: 0 <= k < |ls| ==> ds[k] == Dist(sqrt, a.pos, ls[k].pos);
    d
  }

  /**
   * The `individual` regime for agent `i`: the proximity term of its nearest
   * landmark, minus one for every OTHER agent it collides with when its
   * `collide` flag is set. It neither reads nor writes the accumulator.
   */
  function Individual(sqrt: real -> real, w: World, i: nat): (r: Result<real, RewardError>)
    requires IsSqrt(sqrt)
    requires i < |w.agents|
    ensures r.Failure? <==> |w.landmarks| == 0
    ensures r.Failure? ==> r.error == EmptyMin
    ensures r.Success? ==> r.value <= Bonus
    ensures r.Success? ==>
      r.value == ProximityReward(NearestLandmarkDist(sqrt, w.agents[i], w.landmarks))
                 - (if w.agents[i].collide then CountColliding(w.agents[i], Others(w.agents, i)) else 0) as real
  {
    if |w.landmarks| == 0 then Failure(EmptyMin)
    else
      var a := w.agents[i];
      var proximity := ProximityReward(NearestLandmarkDist(sqrt, w.agents[i], w.landmarks));
      var collisionLoss :=
        if a.collide then CountColliding(a, Others(w.agents, i)) as real * CollisionPenalty else 0.0;
      Success(proximity + collisionLoss)
  }

  /** The progress term and the accumulator it leaves behind. */
  datatype Progress = Progress(progress: real, acc: Option<real>)

  /**
   * The accumulator protocol of `shared` and `partially_shared`: an unset
   * accumulator is first set to the current total, the progress is the
   * accumulator minus the current total, and the accumulator is then
   * overwritten with the current total on every call.
   */
  function UpdateProgress(prev: Option<real>, total: real): (p: Progress)
    ensures p.acc == Some(total)
    ensures prev.None? ==> p.progress == 0.0
    ensures prev.Some? ==> p.progress + total == prev.value
  {
    var before := if prev.None? then total else prev.value;
    Progress(before - total, Some(total))
  }

  /**
   * The `shared` regime: the team's progress in total agent-landmark
   * distance since the accumulator was last written, minus one for every
   * ORDERED pair of distinct agents that collide (the `collide` flags are not
   * consulted). The result does not depend on which agent asks.
   */
  function Shared(sqrt: real -> real, w: World): (r: RewardStep)
    requires IsSqrt(sqrt)
    ensures r.prevTotalDist == Some(TotalDist(sqrt, w.agents, w.landmarks))
    ensures w.prevTotalDist.None? ==> r.value == -(2 * UnorderedCollisions(w.agents)) as real
    ensures w.prevTotalDist.Some? ==>
      r.value == w.prevTotalDist.value - TotalDist(sqrt, w.agents, w.landmarks)
                 - (2 * UnorderedCollisions(w.agents)) as real
  {
    var p := UpdateProgress(w.prevTotalDist, TotalDist(sqrt, w.agents, w.landmarks));
    RewardStep(p.progress - OrderedCollisions(w.agents) as real, p.acc)
  }

  /** For every landmark, the index of the first agent nearest to it
      (`np.argmin` over the agents' distances). */
  function ClosestAgents(sqrt: real -> real, agents: seq<Agent>, ls: seq<Landmark>): (c: seq<nat>)
    requires IsSqrt(sqrt)
    requires 0 < |agents|
    ensures |c| == |ls|
    ensures forall k :: 0 <= k < |ls| ==> c[k] < |agents|
    ensures forall k, j :: 0 <= k < |ls| && 0 <= j < |agents| ==>
      Dist(sqrt, agents[c[k]].pos, ls[k].pos) <= Dist(sqrt, agents[j].pos, ls[k].pos)
    ensures forall k, j :: 0 <= k < |ls| && 0 <= j < c[k] ==>
      Dist(sqrt, agents[c[k]].pos, ls[k].pos) < Dist(sqrt, agents[j].pos, ls[k].pos)
  {
    ArgMinsAreNearest(sqrt, agents, ls);
    seq(|ls|, k requires 0 <= k < |ls| => ArgMin(AgentDists(sqrt, agents, ls[k])))
  }

  lemma ArgMinsAreNearest(sqrt: real -> real, agents: seq<Agent>, ls: seq<Landmark>)
    requires IsSqrt(sqrt)
    requires 0 < |agents|
    ensures forall k, j :: 0 <= k < |ls| && 0 <= j < |agents| ==>
      var c := ArgMin(AgentDists(sqrt, agents, ls[k]));
      Dist(sqrt, agents[c].pos, ls[k].pos) <= Dist(sqrt, agents[j].pos, ls[k].pos)
    ensures forall k, j :: 0 <= k < |ls| && 0 <= j < |agents| ==>
      var c := ArgMin(AgentDists(sqrt, agents, ls[k]));
      j < c ==> Dist(sqrt, agents[c].pos, ls[k].pos) < Dist(sqrt, agents[j].pos, ls[k].pos)
  {
    forall k, j | 0 <= k < |ls| && 0 <= j < |agents|
      ensures var c := ArgMin(AgentDists(sqrt, agents, ls[k]));
              && Dist(sqrt, agents[c].pos, ls[k].pos) <= Dist(sqrt, agents[j].pos, ls[k].pos)
              && (j < c ==> Dist(sqrt, agents[c].pos, ls[k].pos) < Dist(sqrt, agents[j].pos, ls[k].pos))
    {
      var ds := AgentDists(sqrt, agents, ls[k]);
      var c := ArgMin(ds);
      assert ds[c] <= ds[j];
      assert j < c ==> ds[c] < ds[j];
    }
  }

  /** The coverage bonus: how many distinct agents are nearest to some landmark. */
  function CoverageBonus(sqrt: real -> real, agents: seq<Agent>, ls: seq<Landmark>): (n: nat)
    requires IsSqrt(sqrt)
    requires 0 < |agents|
    ensures 0 < |ls| ==> 1 <= n
    ensures n <= |ls| && n <= |agents|
  {
    var closest := ClosestAgents(sqrt, agents, ls);
    DistinctAtMostLength(closest);
    BoundedSetSize(Distinct(closest), |agents|);
    assert 0 < |ls| ==> closest[0] in Distinct(closest);
    |Distinct(closest)|
  }

  /**
   * The `partially_shared` regime. The loop building the individual terms
   * rebinds `agent`, so the individual term is always the LAST agent's
   * negated nearest-landmark distance, whichever agent asked; the rest is
   * the `shared` progress and the coverage bonus, blended 0.6 / 0.4.
   */
  function PartiallyShared(sqrt: real -> real, w: World): (r: Result<RewardStep, RewardError>)
    requires IsSqrt(sqrt)
    requires 0 < |w.agents|
    ensures r.Failure? <==> |w.landmarks| == 0
    ensures r.Failure? ==> r.error == EmptyMin
    ensures r.Success? ==> r.value.prevTotalDist == Some(TotalDist(sqrt, w.agents, w.landmarks))
    ensures r.Success? ==>
      var last := |w.agents| - 1;
      var total := TotalDist(sqrt, w.agents, w.landmarks);
      var progress := if w.prevTotalDist.None? then 0.0 else w.prevTotalDist.value - total;
      r.value.value == 0.6 * -NearestLandmarkDist(sqrt, w.agents[last], w.landmarks)
                       + 0.4 * progress + 0.04 * CoverageBonus(sqrt, w.agents, w.landmarks) as real
    ensures r.Success? && (w.prevTotalDist.None? || w.prevTotalDist == Some(TotalDist(sqrt, w.agents, w.landmarks))) ==>
      var last := |w.agents| - 1;
      && 0.04 - 0.6 * NearestLandmarkDist(sqrt, w.agents[last], w.landmarks) <= r.value.value
      && r.value.value <= 0.04 * (if |w.agents| < |w.landmarks| then |w.agents| else |w.landmarks|) as real
  {
    if |w.landmarks| == 0 then Failure(EmptyMin)
    else
      var individualRewards :=
        seq(|w.agents|, i requires 0 <= i < |w.agents| => -NearestLandmarkDist(sqrt, w.agents[i], w.landmarks));
      var p := UpdateProgress(w.prevTotalDist, TotalDist(sqrt, w.agents, w.landmarks));
      var coverageBonus := CoverageBonus(sqrt, w.agents, w.landmarks);
      var agentIndex := |w.agents| - 1;
      Success(RewardStep(
        0.6 * individualRewards[agentIndex] + 0.4 * (p.progress + coverageBonus as real * 0.1),
        p.acc))
  }

  /**
   * The `original` regime: minus the sum over landmarks of the nearest agent's
   * distance, minus one for every agent colliding with agent `i`, the agent
   * ITSELF included, when its `collide` flag is set.
   */
  function Original(sqrt: real -> real, w: World, i: nat): (r: real)
    requires IsSqrt(sqrt)
    requires i < |w.agents|
    ensures r <= 0.0
    ensures w.agents[i].collide && 0.0 < w.agents[i].size ==> r <= -1.0
    ensures !w.agents[i].collide ==> r == -MinDistSum(sqrt, w.agents, w.landmarks)
    ensures w.agents[i].collide ==>
      r == -MinDistSum(sqrt, w.agents, w.landmarks) - CountColliding(w.agents[i], w.agents) as real
  {
    var a := w.agents[i];
    var collisions := if a.collide then CountColliding(a, w.agents) else 0;
    SelfCountPositive(w.agents, i);
    -MinDistSum(sqrt, w.agents, w.landmarks) - collisions as real
  }

  /** An agent with a positive radius is among the agents it collides with. */
  lemma SelfCountPositive(agents: seq<Agent>, i: nat)
    requires i < |agents|
    ensures 0.0 < agents[i].size ==> 1 <= CountColliding(agents[i], agents)
  {
    if 0.0 < agents[i].size {
      SelfCollision(agents[i]);
      CountCollidingPositive(agents[i], agents, i);
    }
  }

  /** The four regime names `reward_type` may hold. */
  const RewardTypes: set<string> := {"individual", "shared", "partially_shared", "original"}

  /**
   * `reward(agent, world)` for the agent at index `i`, dispatched on
   * `rewardType`. Only `shared` and `partially_shared` move the accumulator;
   * every other outcome hands it back unchanged.
   */
  function Reward(rewardType: string, sqrt: real -> real, w: World, i: nat): (r: Result<RewardStep, RewardError>)
    requires IsSqrt(sqrt)
    requires i < |w.agents|
    ensures rewardType !in RewardTypes <==> r == Failure(UnknownRewardType(rewardType))
    ensures r.Failure? && rewardType in RewardTypes ==> r.error == EmptyMin && |w.landmarks| == 0
    ensures (rewardType == "shared" || rewardType == "original") ==> r.Success?
    ensures r.Success? && (rewardType == "individual" || rewardType == "original") ==>
      r.value.prevTotalDist == w.prevTotalDist
    ensures r.Success? && (rewardType == "shared" || rewardType == "partially_shared") ==>
      r.value.prevTotalDist == Some(TotalDist(sqrt, w.agents, w.landmarks))
    ensures rewardType == "individual" ==>
      && (r.Success? <==> Individual(sqrt, w, i).Success?)
      && (r.Success? ==> r.value == RewardStep(Individual(sqrt, w, i).value, w.prevTotalDist))
    ensures rewardType == "shared" ==> r == Success(Shared(sqrt, w))
    ensures rewardType == "partially_shared" ==> r == PartiallyShared(sqrt, w)
    ensures rewardType == "original" ==> r == Success(RewardStep(Original(sqrt, w, i), w.prevTotalDist))
  {
    if rewardType == "individual" then
      match Individual(sqrt, w, i)
      case Success(v) => Success(RewardStep(v, w.prevTotalDist))
      case Failure(e) => Failure(e)
    else if rewardType == "shared" then
      Success(Shared(sqrt, w))
    else if rewardType == "partially_shared" then
      PartiallyShared(sqrt, w)
    else if rewardType == "original" then
      Success(RewardStep(Original(sqrt, w, i), w.prevTotalDist))
    else
      Failure(UnknownRewardType(rewardType))
  }
}
