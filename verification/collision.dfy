/**
 * The collision predicate shared by every reward regime, and the collision
 * counts the regimes derive from it.
 */
module Collision {
  import opened Geometry
  import opened Entities

  /**
   * `is_collision`: the distance between the two centres is strictly below
   * the sum of the radii. Stated on squared distance, which needs no square
   * root; `CollisionIffDist` shows it is the distance comparison.
   */
  function IsCollision(a: Agent, b: Agent): (c: bool)
    ensures c ==> 0.0 < a.size + b.size
  {
    var reach := a.size + b.size;
    0.0 < reach && SqDist(a.pos, b.pos) < reach * reach
  }

  /** The predicate is exactly "distance < a.size + b.size". */
  lemma CollisionIffDist(sqrt: real -> real, a: Agent, b: Agent)
    requires IsSqrt(sqrt)
    ensures IsCollision(a, b) <==> Dist(sqrt, a.pos, b.pos) < a.size + b.size
  {
    var reach := a.size + b.size;
    if 0.0 <= reach {
      DistLessIff(sqrt, a.pos, b.pos, reach);
    }
  }

  lemma CollisionSymmetric(a: Agent, b: Agent)
    ensures IsCollision(a, b) == IsCollision(b, a)
  {
    SqDistSymmetric(a.pos, b.pos);
  }

  /** Any agent with a positive radius collides with itself. */
  lemma SelfCollision(a: Agent)
    requires 0.0 < a.size
    ensures IsCollision(a, a)
  {
    SqDistSelf(a.pos);
    SquareLess(0.0, a.size + a.size);
  }

  /** The number of agents in `others` that collide with `a`, counted the way
      `for other in ...: if is_collision(other, a)` counts them. */
  function CountColliding(a: Agent, others: seq<Agent>): (n: nat)
    ensures n <= |others|
    ensures n == 0 <== forall k :: 0 <= k < |others| ==> !IsCollision(others[k], a)
  {
    if |others| == 0 then 0
    else
      CountColliding(a, others[..|others| - 1])
        + (if IsCollision(others[|others| - 1], a) then 1 else 0)
  }

  lemma {:induction false} CountCollidingAppend(a: Agent, u: seq<Agent>, v: seq<Agent>)
    ensures CountColliding(a, u + v) == CountColliding(a, u) + CountColliding(a, v)
    decreases |v|
  {
    if |v| == 0 {
      assert u + v == u;
    } else {
      var v' := v[..|v| - 1];
      assert (u + v)[..|u + v| - 1] == u + v';
      assert (u + v)[|u + v| - 1] == v[|v| - 1];
      CountCollidingAppend(a, u, v');
    }
  }

  /** One colliding agent is enough for a count of at least one. */
  lemma {:induction false} CountCollidingPositive(a: Agent, others: seq<Agent>, k: nat)
    requires k < |others| && IsCollision(others[k], a)
    ensures 1 <= CountColliding(a, others)
    decreases |others|
  {
    if k < |others| - 1 {
      CountCollidingPositive(a, others[..|others| - 1], k);
    }
  }

  /** Rows `0 .. i-1` of the `shared` double loop: for each agent, the number
      of agents at a different index that collide with it. */
  function CollisionRows(s: seq<Agent>, i: nat): nat
    requires i <= |s|
  {
    if i == 0 then 0
    else CollisionRows(s, i - 1) + CountColliding(s[i - 1], Others(s, i - 1))
  }

  /** The `shared` collision count: ordered pairs `(i, j)`, `i != j`, that collide. */
  function OrderedCollisions(s: seq<Agent>): (n: nat)
    ensures n == 2 * UnorderedCollisions(s)
  {
    OrderedIsTwiceUnordered(s);
    CollisionRows(s, |s|)
  }

  /** Rows of the lower triangle: pairs `(i, j)` with `j < i` that collide. */
  function LowerRows(s: seq<Agent>, i: nat): nat
    requires i <= |s|
  {
    if i == 0 then 0
    else LowerRows(s, i - 1) + CountColliding(s[i - 1], s[..i - 1])
  }

  /** The number of unordered colliding pairs of distinct agents. */
  function UnorderedCollisions(s: seq<Agent>): nat {
    LowerRows(s, |s|)
  }

  /** Appending `x` adds one entry to row `r` of the double loop. */
  lemma RowAppend(t: seq<Agent>, x: Agent, r: nat)
    requires r < |t|
    ensures CountColliding(t[r], Others(t + [x], r))
         == CountColliding(t[r], Others(t, r)) + (if IsCollision(t[r], x) then 1 else 0)
  {
    assert Others(t + [x], r) == Others(t, r) + [x];
    CountCollidingAppend(t[r], Others(t, r), [x]);
    assert [x][..0] == [];
    CollisionSymmetric(x, t[r]);
  }

  lemma PrefixCountStep(x: Agent, t: seq<Agent>, i: nat)
    requires 0 < i <= |t|
    ensures CountColliding(x, t[..i])
         == CountColliding(x, t[..i - 1]) + (if IsCollision(t[i - 1], x) then 1 else 0)
  {
    assert t[..i][..i - 1] == t[..i - 1];
  }

  /** Row `i - 1` of the double loop after appending `x`: the old row plus
      one if `x` collides with that agent. */
  lemma RowsStep(t: seq<Agent>, x: Agent, i: nat)
    requires 0 < i <= |t|
    ensures CollisionRows(t + [x], i) == CollisionRows(t + [x], i - 1)
      + CountColliding(t[i - 1], Others(t, i - 1)) + (if IsCollision(t[i - 1], x) then 1 else 0)
    ensures CollisionRows(t, i) == CollisionRows(t, i - 1) + CountColliding(t[i - 1], Others(t, i - 1))
  {
    assert (t + [x])[i - 1] == t[i - 1];
    RowAppend(t, x, i - 1);
  }

  lemma {:induction false} CollisionRowsAppend(t: seq<Agent>, x: Agent, i: nat)
    requires i <= |t|
    ensures CollisionRows(t + [x], i) == CollisionRows(t, i) + CountColliding(x, t[..i])
  {
    if i == 0 {
      assert t[..0] == [];
    } else {
      CollisionRowsAppend(t, x, i - 1);
      RowsStep(t, x, i);
      PrefixCountStep(x, t, i);
    }
  }

  lemma {:induction false} LowerRowsAppend(t: seq<Agent>, x: Agent, i: nat)
    requires i <= |t|
    ensures LowerRows(t + [x], i) == LowerRows(t, i)
  {
    if i != 0 {
      LowerRowsAppend(t, x, i - 1);
      assert (t + [x])[..i - 1] == t[..i - 1];
    }
  }

  /** The ordered count sees every unordered colliding pair twice, so the
      `shared` collision penalty is always even. */
  lemma {:induction false} OrderedIsTwiceUnordered(s: seq<Agent>)
    ensures CollisionRows(s, |s|) == 2 * LowerRows(s, |s|)
    decreases |s|
  {
    if |s| != 0 {
      var n := |s| - 1;
      assert CollisionRows(s, |s|) == CollisionRows(s, n) + CountColliding(s[n], Others(s, n));
      assert LowerRows(s, |s|) == LowerRows(s, n) + CountColliding(s[n], s[..n]);
      var t := s[..n];
      var x := s[n];
      assert s == t + [x];
      OrderedIsTwiceUnordered(t);
      CollisionRowsAppend(t, x, n);
      LowerRowsAppend(t, x, n);
      assert t[..n] == t;
      assert Others(s, n) == t;
    }
  }
}
