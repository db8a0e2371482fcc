/**
 * The entities of the simple-spread scenario: agents, landmarks and the world
 * that owns them, as immutable records. The physics classes they stand for
 * live in `core.py`, which is not part of this model; only the attributes the
 * scenario reads or writes are kept.
 */
module Entities {
  import opened Wrappers
  import opened Geometry

  /** An RGB display colour. */
  type Color = seq<real>

  /** A controllable agent. Its identity is its index in `World.agents`. */
  datatype Agent = Agent(
    name: string,
    pos: Vec,        // state.p_pos
    vel: Vec,        // state.p_vel
    comm: Vec,       // state.c
    size: real,      // collision radius
    collide: bool,
    silent: bool,
    color: Color)

  /** A target the agents should spread over. */
  datatype Landmark = Landmark(
    name: string,
    pos: Vec,
    vel: Vec,
    collide: bool,
    movable: bool,
    color: Color)

  /**
   * The world. Two accumulator attributes exist side by side, as in the
   * scenario: `prevTotalDistance` is the one `make_world` initialises and
   * nothing reads, `prevTotalDist` is the one the progress rewards read and
   * write (an attribute that was never set reads as `None`).
   */
  datatype World = World(
    agents: seq<Agent>,
    landmarks: seq<Landmark>,
    dimP: nat,
    dimC: nat,
    worldLength: int,
    collaborative: bool,
    prevTotalDistance: Option<real>,
    prevTotalDist: Option<real>)

  /** Every vector of the world has the dimension the world declares. */
  ghost predicate WellFormed(w: World) {
    && (forall i :: 0 <= i < |w.agents| ==>
          |w.agents[i].pos| == w.dimP && |w.agents[i].vel| == w.dimP && |w.agents[i].comm| == w.dimC)
    && (forall k :: 0 <= k < |w.landmarks| ==>
          |w.landmarks[k].pos| == w.dimP && |w.landmarks[k].vel| == w.dimP)
  }

  /** The elements of `s` other than the one at index `i`, in order: the
      agents an agent meets in `for other in world.agents: if other is agent: continue`. */
  function Others<T>(s: seq<T>, i: nat): (r: seq<T>)
    requires i < |s|
    ensures |r| == |s| - 1
    ensures forall k :: 0 <= k < i ==> r[k] == s[k]
    ensures forall k :: i <= k < |r| ==> r[k] == s[k + 1]
  {
    s[..i] + s[i + 1..]
  }
}
