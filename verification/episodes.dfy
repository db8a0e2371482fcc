/**
 * Properties that span several `reward` calls: how the progress
 * accumulator behaves between calls and across episode resets, which agent
 * the team regimes depend on, and the squared-distance forms of the
 * distance comparisons.
 */
module Episodes {
  import opened Wrappers
  import opened Geometry
  import opened Entities
  import opened Collision
  import opened Reductions
  import opened Rewards
  import opened Scenario

  /** The world after a reward call has written its accumulator attribute. */
  function Commit(w: World, s: RewardStep): (w': World)
    ensures w'.prevTotalDist == s.prevTotalDist
    ensures w'.agents == w.agents && w'.landmarks == w.landmarks
  {
    w.(prevTotalDist := s.prevTotalDist)
  }

  /** Calling `shared` twice on an unchanged world: the second call sees no
      progress, only the collision penalty. */
  lemma SharedSecondCall(sqrt: real -> real, w: World)
    requires IsSqrt(sqrt)
    ensures Shared(sqrt, Commit(w, Shared(sqrt, w))).value == -(2 * UnorderedCollisions(w.agents)) as real
  {
    var w1 := Commit(w, Shared(sqrt, w));
    assert w1.agents == w.agents && w1.landmarks == w.landmarks;
  }

  /** The same holds for `partially_shared`: on an unchanged world the
      second call has no progress term, only the last agent's distance term
      and the coverage bonus. */
  lemma PartiallySharedSecondCall(sqrt: real -> real, w: World)
    requires IsSqrt(sqrt)
    requires 0 < |w.agents| && 0 < |w.landmarks|
    ensures var first := PartiallyShared(sqrt, w);
      && first.Success?
      && var second := PartiallyShared(sqrt, Commit(w, first.value));
      && second.Success?
      && second.value.prevTotalDist == first.value.prevTotalDist
      && second.value.value ==
           0.6 * -NearestLandmarkDist(sqrt, w.agents[|w.agents| - 1], w.landmarks)
           + 0.04 * CoverageBonus(sqrt, w.agents, w.landmarks) as real
  {
    var w1 := Commit(w, PartiallyShared(sqrt, w).value);
    assert w1.agents == w.agents && w1.landmarks == w.landmarks;
  }

  /** `shared` and `partially_shared` ignore which agent is asking: every
      agent of a world receives the same result. */
  lemma TeamRewardsIgnoreAgent(rewardType: string, sqrt: real -> real, w: World, i: nat, j: nat)
    requires IsSqrt(sqrt)
    requires i < |w.agents| && j < |w.agents|
    requires rewardType == "shared" || rewardType == "partially_shared"
    ensures Reward(rewardType, sqrt, w, i) == Reward(rewardType, sqrt, w, j)
  {
  }

  /** On a freshly made world the accumulator attribute the rewards read is
      unset, so the first `shared` reward carries no progress term. */
  lemma FirstSharedRewardHasNoProgress(
    sqrt: real -> real, numAgents: nat, numLandmarks: nat, episodeLength: int,
    agentColors: seq<Color>, landmarkColors: seq<Color>, agentDraws: seq<Vec>, landmarkDraws: seq<Vec>)
    requires IsSqrt(sqrt)
    requires |agentColors| == |agentDraws| == numAgents
    requires |landmarkColors| == |landmarkDraws| == numLandmarks
    requires UniformDraws(agentDraws, PositionDim) && UniformDraws(landmarkDraws, PositionDim)
    ensures var w := MakeWorld(numAgents, numLandmarks, episodeLength,
                               agentColors, landmarkColors, agentDraws, landmarkDraws);
      Shared(sqrt, w).value == -(2 * UnorderedCollisions(w.agents)) as real
  {
  }

  /**
   * `reset_world` does not clear the accumulator: the first `shared` reward
   * of a new episode measures progress against the total distance the
   * previous episode's last call recorded, not against the new layout.
   */
  lemma AccumulatorSurvivesReset(
    sqrt: real -> real, w: World,
    agentColors: seq<Color>, landmarkColors: seq<Color>, agentDraws: seq<Vec>, landmarkDraws: seq<Vec>)
    requires IsSqrt(sqrt)
    requires |agentColors| == |agentDraws| == |w.agents|
    requires |landmarkColors| == |landmarkDraws| == |w.landmarks|
    requires UniformDraws(agentDraws, w.dimP) && UniformDraws(landmarkDraws, w.dimP)
    ensures var last := Commit(w, Shared(sqrt, w));
      var next := ResetWorld(last, agentColors, landmarkColors, agentDraws, landmarkDraws);
      Shared(sqrt, next).value ==
        TotalDist(sqrt, w.agents, w.landmarks) - TotalDist(sqrt, next.agents, next.landmarks)
        - (2 * UnorderedCollisions(next.agents)) as real
  {
  }

  /** The bonus band of the `individual` regime on squared distance:
      0.15 < d < 0.35 exactly when 0.0225 < d² < 0.1225. */
  lemma ProximityBySquares(sqrt: real -> real, p: Vec, q: Vec)
    requires IsSqrt(sqrt)
    ensures ProximityReward(Dist(sqrt, p, q)) == Bonus <==> 0.0225 < SqDist(p, q) < 0.1225
    ensures ProximityReward(Dist(sqrt, p, q)) == PenaltyClose <==> SqDist(p, q) <= 0.0225
    ensures ProximityReward(Dist(sqrt, p, q)) == PenaltyFar <==> 0.1225 <= SqDist(p, q)
  {
    DistGreaterIff(sqrt, p, q, 0.15);
    DistLessIff(sqrt, p, q, 0.35);
  }

  /** Squared distances between every agent and one landmark. */
  function AgentSqDists(agents: seq<Agent>, l: Landmark): (ds: seq<real>)
    ensures |ds| == |agents|
    ensures forall j :: 0 <= j < |agents| ==> 0.0 <= ds[j]
  {
    seq(|agents|, j requires 0 <= j < |agents| => SqDist(agents[j].pos, l.pos))
  }

  /** The agent nearest to a landmark, first on ties, is the same whether
      distances or squared distances are compared. */
  lemma ClosestAgentBySquares(sqrt: real -> real, agents: seq<Agent>, l: Landmark)
    requires IsSqrt(sqrt)
    requires 0 < |agents|
    ensures ArgMin(AgentDists(sqrt, agents, l)) == ArgMin(AgentSqDists(agents, l))
  {
    var xs, ys := AgentDists(sqrt, agents, l), AgentSqDists(agents, l);
    forall j, k | 0 <= j < |xs| && 0 <= k < |xs|
      ensures xs[j] < xs[k] <==> ys[j] < ys[k]
    {
      DistLessIffSqLess(sqrt, agents[j].pos, l.pos, agents[k].pos, l.pos);
    }
    ArgMinOrderInvariant(xs, ys);
  }
}
