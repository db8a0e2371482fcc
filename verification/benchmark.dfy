/**
 * `Scenario.benchmark_data`: the per-agent tally evaluation
 * records — reward, collisions, summed nearest-agent distances and the
 * number of occupied landmarks.
 */
module Benchmark {
  import opened Geometry
  import opened Entities
  import opened Collision
  import opened Reductions
  import opened Rewards

  /** A landmark counts as occupied when some agent is closer than this. */
  const OccupiedRadius: real := 0.1

  datatype BenchmarkData = BenchmarkData(rew: real, collisions: nat, minDists: real, occupiedLandmarks: nat)

  /** How many entries of `xs` lie strictly below `t`. */
  function CountBelow(xs: seq<real>, t: real): (n: nat)
    ensures n <= |xs|
  {
    if |xs| == 0 then 0
    else CountBelow(xs[..|xs| - 1], t) + (if xs[|xs| - 1] < t then 1 else 0)
  }

  /** The count is zero exactly when no entry lies below the bound, and the
      full length exactly when every entry does. */
  lemma {:induction false} CountBelowExtremes(xs: seq<real>, t: real)
    ensures CountBelow(xs, t) == 0 <==> forall k :: 0 <= k < |xs| ==> t <= xs[k]
    ensures CountBelow(xs, t) == |xs| <==> forall k :: 0 <= k < |xs| ==> xs[k] < t
  {
    if |xs| != 0 {
      var init := xs[..|xs| - 1];
      CountBelowExtremes(init, t);
      assert forall k :: 0 <= k < |init| ==> init[k] == xs[k];
    }
  }

  /** The landmark loop: for each landmark the nearest agent's distance is
      added to `minDists` and taken off `rew`, and the landmark is counted as
      occupied when that distance is below 0.1. */
  method TallyLandmarks(sqrt: real -> real, agents: seq<Agent>, ls: seq<Landmark>)
    returns (rew: real, minDists: real, occupied: nat)
    requires IsSqrt(sqrt)
    requires 0 < |agents|
    ensures minDists == MinDistSum(sqrt, agents, ls)
    ensures rew == -minDists
    ensures occupied == CountBelow(NearestAgentDists(sqrt, agents, ls), OccupiedRadius)
    ensures occupied <= |ls|
  {
    var nearest := NearestAgentDists(sqrt, agents, ls);
    rew, minDists, occupied := 0.0, 0.0, 0;
    var k := 0;
    while k < |ls|
      invariant k <= |ls|
      invariant minDists == Sum(nearest[..k])
      invariant rew == -minDists
      invariant occupied == CountBelow(nearest[..k], OccupiedRadius)
    {
      var m := MinOf(AgentDists(sqrt, agents, ls[k]));
      assert nearest[..k + 1][..k] == nearest[..k];
      minDists := minDists + m;
      rew := rew - m;
      if m < OccupiedRadius {
        occupied := occupied + 1;
      }
      k := k + 1;
    }
    assert nearest[..k] == nearest;
  }

  /** The collision loop: one off `rew` and one onto `collisions` for every
      agent, `a` itself included, that collides with `a`. */
  method TallyCollisions(a: Agent, agents: seq<Agent>, rew0: real) returns (rew: real, collisions: nat)
    ensures collisions == CountColliding(a, agents)
    ensures rew == rew0 - collisions as real
  {
    rew, collisions := rew0, 0;
    var j := 0;
    while j < |agents|
      invariant j <= |agents|
      invariant collisions == CountColliding(a, agents[..j])
      invariant rew == rew0 - collisions as real
    {
      assert agents[..j + 1][..j] == agents[..j];
      if IsCollision(agents[j], a) {
        rew := rew - 1.0;
        collisions := collisions + 1;
      }
      j := j + 1;
    }
    assert agents[..j] == agents;
  }

  /**
   * `benchmark_data(agent, world)` for the agent at index `i`. The reward it
   * reports is the `original` reward, self-collision included.
   */
  method Collect(sqrt: real -> real, w: World, i: nat) returns (b: BenchmarkData)
    requires IsSqrt(sqrt)
    requires i < |w.agents|
    ensures b.minDists == MinDistSum(sqrt, w.agents, w.landmarks)
    ensures b.rew == -b.minDists - b.collisions as real
    ensures b.collisions == (if w.agents[i].collide then CountColliding(w.agents[i], w.agents) else 0)
    ensures b.occupiedLandmarks == CountBelow(NearestAgentDists(sqrt, w.agents, w.landmarks), OccupiedRadius)
    ensures b.occupiedLandmarks <= |w.landmarks|
    ensures b.rew == Original(sqrt, w, i)
  {
    var rew, minDists, occupied := TallyLandmarks(sqrt, w.agents, w.landmarks);
    var collisions := 0;
    if w.agents[i].collide {
      rew, collisions := TallyCollisions(w.agents[i], w.agents, rew);
    }
    b := BenchmarkData(rew, collisions, minDists, occupied);
  }
}
