/**
 * `Scenario.observation`: the fixed-layout vector one agent observes.
 */
module Observation {
  import opened Geometry
  import opened Entities

  /** `np.concatenate` of a list of vectors. */
  function Flatten(vs: seq<Vec>): Vec {
    if |vs| == 0 then [] else vs[0] + Flatten(vs[1..])
  }

  lemma {:induction false} FlattenLength(vs: seq<Vec>, width: nat)
    requires forall k :: 0 <= k < |vs| ==> |vs[k]| == width
    ensures |Flatten(vs)| == |vs| * width
  {
    if |vs| != 0 {
      FlattenLength(vs[1..], width);
      assert |vs| * width == width + (|vs| - 1) * width;
    }
  }

  /** Concatenating vectors of width `width` puts component `d` of vector
      `k` at offset `k * width + d`. */
  lemma {:induction false} FlattenAt(vs: seq<Vec>, width: nat, k: nat, d: nat)
    requires forall j :: 0 <= j < |vs| ==> |vs[j]| == width
    requires k < |vs| && d < width
    ensures k * width + d < |Flatten(vs)|
    ensures Flatten(vs)[k * width + d] == vs[k][d]
  {
    FlattenLength(vs, width);
    if 0 < k {
      FlattenAt(vs[1..], width, k - 1, d);
      assert k * width == width + (k - 1) * width;
    }
  }

  /** Landmark positions relative to agent `a`, in world order. */
  function RelativeLandmarks(a: Agent, ls: seq<Landmark>): seq<Vec>
    requires forall k :: 0 <= k < |ls| ==> |ls[k].pos| == |a.pos|
  {
    seq(|ls|, k requires 0 <= k < |ls| => Sub(ls[k].pos, a.pos))
  }

  /** Positions of `others` relative to agent `a`, in order. */
  function RelativeAgents(a: Agent, others: seq<Agent>): seq<Vec>
    requires forall k :: 0 <= k < |others| ==> |others[k].pos| == |a.pos|
  {
    seq(|others|, k requires 0 <= k < |others| => Sub(others[k].pos, a.pos))
  }

  /** Communication vectors of `others`, in order. */
  function Comms(others: seq<Agent>): seq<Vec> {
    seq(|others|, k requires 0 <= k < |others| => others[k].comm)
  }

  /** The observation length for `n` agents and `l` landmarks. */
  function ObservationLength(dimP: nat, dimC: nat, n: nat, l: nat): nat
    requires 0 < n
  {
    2 * dimP + dimP * l + (n - 1) * (dimP + dimC)
  }

  /**
   * The observation of agent `i`, `np.concatenate` of its velocity, its
   * position, the landmarks' relative positions, the other agents' relative
   * positions and the other agents' communication vectors: it starts with
   * the agent's own velocity and then its own position.
   */
  function Observe(w: World, i: nat): (o: Vec)
    requires WellFormed(w)
    requires i < |w.agents|
    ensures 2 * w.dimP <= |o|
    ensures forall d :: 0 <= d < w.dimP ==> o[d] == w.agents[i].vel[d]
    ensures forall d :: 0 <= d < w.dimP ==> o[w.dimP + d] == w.agents[i].pos[d]
  {
    var a := w.agents[i];
    var others := Others(w.agents, i);
    a.vel + a.pos + Flatten(RelativeLandmarks(a, w.landmarks)) + Flatten(RelativeAgents(a, others)) + Flatten(Comms(others))
  }

  /** Every observation of a world has the same length, fixed by the world's
      dimensions and its agent and landmark counts. */
  lemma ObservationSize(w: World, i: nat)
    requires WellFormed(w)
    requires i < |w.agents|
    ensures |Observe(w, i)| == ObservationLength(w.dimP, w.dimC, |w.agents|, |w.landmarks|)
  {
    var a := w.agents[i];
    var others := Others(w.agents, i);
    FlattenLength(RelativeLandmarks(a, w.landmarks), w.dimP);
    FlattenLength(RelativeAgents(a, others), w.dimP);
    FlattenLength(Comms(others), w.dimC);
    Distributes(|w.agents| - 1, w.dimP, w.dimC);
    Commutes(|w.landmarks|, w.dimP);
  }

  lemma Distributes(n: nat, p: nat, c: nat)
    ensures n * p + n * c == n * (p + c)
  {
  }

  lemma Commutes(n: nat, p: nat)
    ensures n * p == p * n
  {
  }

  /** Component `d` of vector `k` of a flattened segment that follows `pre`
      sits at offset `|pre| + k * width + d`, whatever comes after it. */
  lemma SegmentAt(pre: Vec, vs: seq<Vec>, width: nat, k: nat, d: nat)
    requires forall j :: 0 <= j < |vs| ==> |vs[j]| == width
    requires k < |vs| && d < width
    ensures |pre| + k * width + d < |pre + Flatten(vs)|
    ensures (pre + Flatten(vs))[|pre| + k * width + d] == vs[k][d]
  {
    FlattenAt(vs, width, k, d);
  }

  /** Where component `d` of landmark `k`'s relative position sits. */
  function LandmarkIndex(w: World, k: nat, d: nat): nat {
    2 * w.dimP + k * w.dimP + d
  }

  /** Where component `d` of the `k`-th other agent's relative position sits. */
  function OtherIndex(w: World, k: nat, d: nat): nat {
    2 * w.dimP + |w.landmarks| * w.dimP + k * w.dimP + d
  }

  /** Where component `d` of the `k`-th other agent's communication sits. */
  function CommIndex(w: World, k: nat, d: nat): nat
    requires 0 < |w.agents|
  {
    2 * w.dimP + |w.landmarks| * w.dimP + (|w.agents| - 1) * w.dimP + k * w.dimC + d
  }

  /** Agent `i` sees every landmark, in world order, relative to itself. */
  lemma LandmarkAt(w: World, i: nat, k: nat, d: nat)
    requires WellFormed(w)
    requires i < |w.agents| && k < |w.landmarks| && d < w.dimP
    ensures LandmarkIndex(w, k, d) < |Observe(w, i)|
    ensures Observe(w, i)[LandmarkIndex(w, k, d)] == w.landmarks[k].pos[d] - w.agents[i].pos[d]
  {
    var a := w.agents[i];
    var pre := a.vel + a.pos;
    SegmentAt(pre, RelativeLandmarks(a, w.landmarks), w.dimP, k, d);
  }

  /** Agent `i` sees every other agent, in world order and skipping itself,
      relative to itself. */
  lemma OtherPositionAt(w: World, i: nat, k: nat, d: nat)
    requires WellFormed(w)
    requires i < |w.agents| && k < |w.agents| - 1 && d < w.dimP
    ensures OtherIndex(w, k, d) < |Observe(w, i)|
    ensures Observe(w, i)[OtherIndex(w, k, d)] == Others(w.agents, i)[k].pos[d] - w.agents[i].pos[d]
  {
    var a := w.agents[i];
    var entityPos := RelativeLandmarks(a, w.landmarks);
    FlattenLength(entityPos, w.dimP);
    var pre := a.vel + a.pos + Flatten(entityPos);
    SegmentAt(pre, RelativeAgents(a, Others(w.agents, i)), w.dimP, k, d);
  }

  /** The observation is everything up to the communication block, then the
      communication block, and the former has a length fixed by the world. */
  lemma CommBlockSplit(w: World, i: nat)
    requires WellFormed(w)
    requires i < |w.agents|
    ensures var a := w.agents[i];
      var others := Others(w.agents, i);
      var pre := a.vel + a.pos + Flatten(RelativeLandmarks(a, w.landmarks)) + Flatten(RelativeAgents(a, others));
      && |pre| == 2 * w.dimP + |w.landmarks| * w.dimP + (|w.agents| - 1) * w.dimP
      && Observe(w, i) == pre + Flatten(Comms(others))
  {
    var a := w.agents[i];
    var others := Others(w.agents, i);
    FlattenLength(RelativeLandmarks(a, w.landmarks), w.dimP);
    FlattenLength(RelativeAgents(a, others), w.dimP);
  }

  /** Agent `i` ends its observation with every other agent's communication
      vector, in world order and skipping itself. */
  lemma CommAt(w: World, i: nat, k: nat, d: nat)
    requires WellFormed(w)
    requires i < |w.agents| && k < |w.agents| - 1 && d < w.dimC
    ensures CommIndex(w, k, d) < |Observe(w, i)|
    ensures Observe(w, i)[CommIndex(w, k, d)] == Others(w.agents, i)[k].comm[d]
  {
    var a := w.agents[i];
    var others := Others(w.agents, i);
    var pre := a.vel + a.pos + Flatten(RelativeLandmarks(a, w.landmarks)) + Flatten(RelativeAgents(a, others));
    CommBlockSplit(w, i);
    SegmentAt(pre, Comms(others), w.dimC, k, d);
  }

  /** `w'` differs from `w` at most in the colours of its agents and landmarks. */
  ghost predicate SameExceptColors(w: World, w': World) {
    && |w'.agents| == |w.agents| && |w'.landmarks| == |w.landmarks|
    && w'.dimP == w.dimP && w'.dimC == w.dimC
    && (forall j :: 0 <= j < |w.agents| ==> w'.agents[j] == w.agents[j].(color := w'.agents[j].color))
    && (forall k :: 0 <= k < |w.landmarks| ==> w'.landmarks[k] == w.landmarks[k].(color := w'.landmarks[k].color))
  }

  /** Colours never reach the observation: recolouring agents and landmarks
      leaves every observation unchanged. */
  lemma ObservationIgnoresColors(w: World, w': World, i: nat)
    requires WellFormed(w) && i < |w.agents|
    requires SameExceptColors(w, w')
    ensures WellFormed(w') && Observe(w', i) == Observe(w, i)
  {
    var a, a' := w.agents[i], w'.agents[i];
    var others, others' := Others(w.agents, i), Others(w'.agents, i);
    assert RelativeLandmarks(a', w'.landmarks) == RelativeLandmarks(a, w.landmarks);
    assert RelativeAgents(a', others') == RelativeAgents(a, others);
    assert Comms(others') == Comms(others);
  }
}
