/**
 * The block scanner of the training-log plotter: a line-indexed loop that
 * recognises an episode marker, looks for the reward and entropy lines two
 * and three lines below it and an optional evaluation line four below, and
 * collects the numbers into parallel lists. The regular expressions, the
 * whitespace stripping and the `int()` / `float()` conversions are abstract.
 */
module LogMetrics {
  import opened Wrappers

  /** The outcome of searching one line for a numeric pattern: no match, or
      a match whose captured text `float()` either converts (`Some`) or
      rejects with an exception (`None`). */
  datatype Match = NoMatch | Matched(number: Option<real>)

  /** The four patterns, applied to a line after stripping. The episode
      pattern yields the update count and the timestep count it captured. */
  datatype Patterns = Patterns(
    episode: string -> Option<(int, int)>,
    reward: string -> Match,
    entropy: string -> Match,
    eval: string -> Match)

  /** One training record. */
  datatype Block = Block(episode: int, timestep: int, reward: real, entropy: real)

  /** What one iteration of the loop appends and how far it moves the index. */
  datatype Iteration = Iteration(block: Option<Block>, eval: Option<real>, advance: nat)

  /** The six lists the scanner fills. */
  datatype Metrics = Metrics(
    episodes: seq<int>, timesteps: seq<int>, avgRewards: seq<real>, entropies: seq<real>,
    evalPoints: seq<int>, evalRewards: seq<real>)

  /**
   * The line `k` below the marker at `i` as the scanner reads it: guarded by
   * `i + k - 1 < len(lines)` but indexed at `i + k`. Past the end of the log
   * the guard yields the empty line; exactly at the end the index raises,
   * which is `None`.
   */
  function Peek(lines: seq<string>, i: nat, k: nat): (r: Option<string>)
    requires 1 <= k
    ensures r.None? <==> i + k == |lines|
    ensures r.Some? && i + k < |lines| ==> r.value == lines[i + k]
    ensures r.Some? && |lines| < i + k ==> r.value == ""
  {
    if i + k - 1 < |lines| then
      if i + k < |lines| then Some(lines[i + k]) else None
    else Some("")
  }

  /** The outcome of a marker whose reward and entropy lines were read. */
  function Record(p: Patterns, lines: seq<string>, i: nat, ep: int, ts: int,
                  rewardLine: string, entropyLine: string): (r: Iteration)
    requires i < |lines|
    ensures r.block.Some? <==>
      p.reward(rewardLine).Matched? && p.reward(rewardLine).number.Some? &&
      p.entropy(entropyLine).Matched? && p.entropy(entropyLine).number.Some?
    ensures r.block.Some? ==> r.block.value == Block(ep, ts, p.reward(rewardLine).number.value,
                                                     p.entropy(entropyLine).number.value)
    ensures r.eval.Some? ==> r.block.Some?
    ensures r.advance == 5 <==> r.eval.Some?
    ensures r.eval.Some? ==> i + 4 < |lines| && p.eval(lines[i + 4]) == Matched(r.eval)
    ensures r.block.Some? && i + 4 < |lines| && p.eval(lines[i + 4]).Matched? && p.eval(lines[i + 4]).number.Some? ==>
      r.eval == p.eval(lines[i + 4]).number
    ensures r.block.None? ==>
      r.advance == (if p.reward(rewardLine).Matched? && p.entropy(entropyLine).Matched? then 1 else 4)
    ensures r.block.Some? && r.eval.None? ==>
      r.advance == (if i + 4 < |lines| && p.eval(lines[i + 4]) == Matched(None) then 1 else 4)
  {
    match (p.reward(rewardLine), p.entropy(entropyLine))
    case (Matched(Some(reward)), Matched(Some(entropy))) =>
      var block := Some(Block(ep, ts, reward, entropy));
      if i + 4 < |lines| then
        match p.eval(lines[i + 4])
        case Matched(Some(v)) => Iteration(block, Some(v), 5)
        case Matched(None) => Iteration(block, None, 1)
        case NoMatch => Iteration(block, None, 4)
      else Iteration(block, None, 4)
    case (Matched(_), Matched(_)) => Iteration(None, None, 1)
    case _ => Iteration(None, None, 4)
  }

  /**
   * One pass of the loop body at index `i`. A non-marker moves on by one. A
   * marker whose reward or entropy line is unreadable (an index error), or
   * whose numbers do not convert, is abandoned by the exception handler and
   * moves on by one. A marker whose reward or entropy line does not match
   * moves on by four. Otherwise the block is recorded and the index moves on
   * by five when the evaluation line matches and converts, by four when it
   * does not match, and by one when it matches but does not convert — the
   * block having been recorded already.
   */
  function Step(p: Patterns, lines: seq<string>, i: nat): (r: Iteration)
    requires i < |lines|
    ensures 1 <= r.advance <= 5
    ensures p.episode(lines[i]).None? ==> r == Iteration(None, None, 1)
    ensures p.episode(lines[i]).Some? && (i + 2 == |lines| || i + 3 == |lines|) ==>
      r == Iteration(None, None, 1)
    ensures r.block.Some? ==>
      p.episode(lines[i]) == Some((r.block.value.episode, r.block.value.timestep))
    ensures r.eval.Some? ==> r.block.Some? && r.advance == 5
  {
    match p.episode(lines[i])
    case None => Iteration(None, None, 1)
    case Some((ep, ts)) =>
      match (Peek(lines, i, 2), Peek(lines, i, 3))
      case (Some(rewardLine), Some(entropyLine)) =>
        Record(p, lines, i, ep, ts, rewardLine, entropyLine)
      case _ => Iteration(None, None, 1)
  }

  /** A marker far enough from the end whose reward and entropy lines match
      and convert yields a block built from exactly those lines, and the
      evaluation number of the line after them whenever it matches. */
  lemma StepRecordsBlock(p: Patterns, lines: seq<string>, i: nat)
    requires i + 3 < |lines|
    requires p.episode(lines[i]).Some?
    requires p.reward(lines[i + 2]).Matched? && p.reward(lines[i + 2]).number.Some?
    requires p.entropy(lines[i + 3]).Matched? && p.entropy(lines[i + 3]).number.Some?
    ensures var r := Step(p, lines, i);
      && r.block == Some(Block(p.episode(lines[i]).value.0, p.episode(lines[i]).value.1,
                               p.reward(lines[i + 2]).number.value, p.entropy(lines[i + 3]).number.value))
      && (r.advance == 5 <==> i + 4 < |lines| && p.eval(lines[i + 4]).Matched? && p.eval(lines[i + 4]).number.Some?)
      && r.eval == (if i + 4 < |lines| && p.eval(lines[i + 4]).Matched? then p.eval(lines[i + 4]).number else None)
  {
  }

  /** A marker whose reward or entropy line fails to match skips four lines
      and records nothing, unless it sits two or three lines from the end. */
  lemma StepSkipsUnmatched(p: Patterns, lines: seq<string>, i: nat)
    requires i + 3 < |lines|
    requires p.episode(lines[i]).Some?
    requires p.reward(lines[i + 2]).NoMatch? || p.entropy(lines[i + 3]).NoMatch?
    ensures Step(p, lines, i) == Iteration(None, None, 4)
  {
  }

  /** A marker on the last line reads two empty lines instead of failing. */
  lemma StepAtLastLine(p: Patterns, lines: seq<string>, i: nat)
    requires i + 1 == |lines|
    requires p.episode(lines[i]).Some?
    ensures Step(p, lines, i) == Record(p, lines, i, p.episode(lines[i]).value.0, p.episode(lines[i]).value.1, "", "")
    ensures Step(p, lines, i).eval.None?
  {
  }

  /** The block recorded at index `k` of the metrics. */
  function BlockAt(m: Metrics, k: nat): Block
    requires k < |m.episodes| == |m.timesteps| == |m.avgRewards| == |m.entropies|
  {
    Block(m.episodes[k], m.timesteps[k], m.avgRewards[k], m.entropies[k])
  }

  /** The four training lists are parallel and the two evaluation lists are
      parallel and no longer. */
  ghost predicate Parallel(m: Metrics) {
    && |m.episodes| == |m.timesteps| == |m.avgRewards| == |m.entropies|
    && |m.evalPoints| == |m.evalRewards| <= |m.episodes|
  }

  ghost predicate Increasing(xs: seq<nat>) {
    forall a, b :: 0 <= a < b < |xs| ==> xs[a] < xs[b]
  }

  /**
   * Where the metrics came from: the `k`-th block is what the loop body
   * recorded at line `blockAt[k]`, markers in log order; the `k`-th
   * evaluation belongs to block `evalAt[k]`, whose episode it repeats.
   */
  ghost predicate Provenance(p: Patterns, lines: seq<string>, m: Metrics, blockAt: seq<nat>, evalAt: seq<nat>)
    requires Parallel(m)
  {
    && |blockAt| == |m.episodes| && |evalAt| == |m.evalPoints|
    && Increasing(blockAt) && Increasing(evalAt)
    && (forall k :: 0 <= k < |blockAt| ==>
          blockAt[k] < |lines| && Step(p, lines, blockAt[k]).block == Some(BlockAt(m, k)))
    && (forall k :: 0 <= k < |evalAt| ==>
          && evalAt[k] < |blockAt|
          && m.evalPoints[k] == m.episodes[evalAt[k]]
          && Step(p, lines, blockAt[evalAt[k]]).eval == Some(m.evalRewards[k]))
  }

  /** `m` with block `b` appended to the four training lists. */
  function AddBlock(m: Metrics, b: Block): (m': Metrics)
    requires Parallel(m)
    ensures Parallel(m')
    ensures |m'.episodes| == |m.episodes| + 1 && BlockAt(m', |m.episodes|) == b
    ensures forall k :: 0 <= k < |m.episodes| ==> BlockAt(m', k) == BlockAt(m, k)
    ensures m'.evalPoints == m.evalPoints && m'.evalRewards == m.evalRewards
  {
    m.(episodes := m.episodes + [b.episode], timesteps := m.timesteps + [b.timestep],
       avgRewards := m.avgRewards + [b.reward], entropies := m.entropies + [b.entropy])
  }

  /** `m` with an evaluation of the last block appended. */
  function AddEval(m: Metrics, v: real): (m': Metrics)
    requires Parallel(m) && |m.evalPoints| < |m.episodes|
    ensures Parallel(m')
    ensures m'.episodes == m.episodes && m'.timesteps == m.timesteps
    ensures m'.avgRewards == m.avgRewards && m'.entropies == m.entropies
    ensures m'.evalPoints == m.evalPoints + [m.episodes[|m.episodes| - 1]]
    ensures m'.evalRewards == m.evalRewards + [v]
  {
    m.(evalPoints := m.evalPoints + [m.episodes[|m.episodes| - 1]], evalRewards := m.evalRewards + [v])
  }

  /** Recording the block produced at line `i`, past every earlier block,
      keeps the provenance. */
  lemma ProvenanceAddBlock(p: Patterns, lines: seq<string>, m: Metrics, blockAt: seq<nat>, evalAt: seq<nat>, i: nat)
    requires Parallel(m) && Provenance(p, lines, m, blockAt, evalAt)
    requires i < |lines| && Step(p, lines, i).block.Some?
    requires forall k :: 0 <= k < |blockAt| ==> blockAt[k] < i
    ensures Parallel(AddBlock(m, Step(p, lines, i).block.value))
    ensures Provenance(p, lines, AddBlock(m, Step(p, lines, i).block.value), blockAt + [i], evalAt)
  {
    var m' := AddBlock(m, Step(p, lines, i).block.value);
    var blockAt' := blockAt + [i];
    forall k | 0 <= k < |blockAt'|
      ensures blockAt'[k] < |lines| && Step(p, lines, blockAt'[k]).block == Some(BlockAt(m', k))
    {
      if k < |blockAt| {
        assert BlockAt(m', k) == BlockAt(m, k);
      }
    }
    forall k | 0 <= k < |evalAt|
      ensures m'.evalPoints[k] == m'.episodes[evalAt[k]]
    {
      assert m'.episodes[evalAt[k]] == BlockAt(m', evalAt[k]).episode;
    }
  }

  /** Recording the evaluation the pass at line `i` produced, for the block
      that pass has just recorded, keeps the provenance. */
  lemma ProvenanceAddEval(p: Patterns, lines: seq<string>, m: Metrics, blockAt: seq<nat>, evalAt: seq<nat>, i: nat)
    requires Parallel(m) && Provenance(p, lines, m, blockAt, evalAt)
    requires 0 < |blockAt| && blockAt[|blockAt| - 1] == i
    requires forall k :: 0 <= k < |evalAt| ==> evalAt[k] < |blockAt| - 1
    requires i < |lines| && Step(p, lines, i).eval.Some?
    ensures |m.evalPoints| < |m.episodes|
    ensures Provenance(p, lines, AddEval(m, Step(p, lines, i).eval.value), blockAt, evalAt + [|blockAt| - 1])
  {
    BoundByIncreasing(evalAt, |blockAt| - 1);
  }

  /** A strictly increasing sequence below `n` has at most `n` entries. */
  lemma {:induction false} BoundByIncreasing(xs: seq<nat>, n: nat)
    requires Increasing(xs)
    requires forall k :: 0 <= k < |xs| ==> xs[k] < n
    ensures |xs| <= n
  {
    if |xs| != 0 {
      var init := xs[..|xs| - 1];
      assert Increasing(init);
      BoundByIncreasing(init, xs[|xs| - 1]);
    }
  }

  /** No metrics at all. */
  const NoMetrics: Metrics := Metrics([], [], [], [], [], [])

  /** The lists of `a` followed by the lists of `b`. */
  function Concat(a: Metrics, b: Metrics): (r: Metrics)
    ensures |r.episodes| == |a.episodes| + |b.episodes|
    ensures |r.evalPoints| == |a.evalPoints| + |b.evalPoints|
  {
    Metrics(a.episodes + b.episodes, a.timesteps + b.timesteps, a.avgRewards + b.avgRewards,
            a.entropies + b.entropies, a.evalPoints + b.evalPoints, a.evalRewards + b.evalRewards)
  }

  /** What one pass appends to the six lists: its block, if any, and its
      evaluation, if any, under that block's episode number. */
  function Contribution(it: Iteration): (m: Metrics)
    ensures Parallel(m)
    ensures |m.episodes| == (if it.block.Some? then 1 else 0)
    ensures |m.evalPoints| == (if it.block.Some? && it.eval.Some? then 1 else 0)
  {
    match it.block
    case None => NoMetrics
    case Some(b) =>
      var evals := if it.eval.Some? then [it.eval.value] else [];
      Metrics([b.episode], [b.timestep], [b.reward], [b.entropy],
              if it.eval.Some? then [b.episode] else [], evals)
  }

  /**
   * The reference scan: what the loop collects from index `i` on. It looks
   * at line `i`, appends what that pass records, and continues at the index
   * that pass moves to — so it visits exactly the lines the loop visits,
   * and no others.
   */
  function Scan(p: Patterns, lines: seq<string>, i: nat): (m: Metrics)
    ensures |lines| <= i ==> m == NoMetrics
    decreases |lines| - i
  {
    if |lines| <= i then NoMetrics
    else
      var it := Step(p, lines, i);
      Concat(Contribution(it), Scan(p, lines, i + it.advance))
  }

  /** A marker whose reward and entropy lines do not match is skipped with
      the four lines after it, even when one of those lines is itself a
      marker followed by a complete block: the log
      `marker, marker, junk, reward, entropy` yields nothing. */
  lemma SkippedMarkerHidesNextBlock()
    ensures var p := Patterns(
          s => if s == "M" then Some((1, 5)) else None,
          s => if s == "R" then Matched(Some(1.0)) else NoMatch,
          s => if s == "E" then Matched(Some(0.5)) else NoMatch,
          s => NoMatch);
      var lines := ["M", "M", "x", "R", "E"];
      && Step(p, lines, 1).block == Some(Block(1, 5, 1.0, 0.5))
      && Scan(p, lines, 0) == NoMetrics
  {
    var p := Patterns(
      s => if s == "M" then Some((1, 5)) else None,
      s => if s == "R" then Matched(Some(1.0)) else NoMatch,
      s => if s == "E" then Matched(Some(0.5)) else NoMatch,
      s => NoMatch);
    var lines := ["M", "M", "x", "R", "E"];
    assert Step(p, lines, 0) == Iteration(None, None, 4);
    assert Step(p, lines, 4) == Iteration(None, None, 1);
    assert Scan(p, lines, 4) == NoMetrics;
  }

  /** What holds before every pass of the loop at index `i`. */
  ghost predicate LoopInvariant(p: Patterns, lines: seq<string>, m: Metrics, blockAt: seq<nat>, evalAt: seq<nat>, i: nat) {
    && Parallel(m)
    && Provenance(p, lines, m, blockAt, evalAt)
    && (forall k :: 0 <= k < |blockAt| ==> blockAt[k] < i)
    && (forall k :: 0 <= k < |evalAt| ==> evalAt[k] < |blockAt|)
    && |m.episodes| <= i && |m.episodes| <= |lines|
    && Concat(m, Scan(p, lines, i)) == Scan(p, lines, 0)
  }

  lemma InvariantAtStart(p: Patterns, lines: seq<string>)
    ensures LoopInvariant(p, lines, NoMetrics, [], [], 0)
  {
    var rest := Scan(p, lines, 0);
    assert Concat(NoMetrics, rest) == rest;
  }

  /** Once the index has passed the last line, what was collected is the
      whole scan. */
  lemma InvariantAtEnd(p: Patterns, lines: seq<string>, m: Metrics, blockAt: seq<nat>, evalAt: seq<nat>, i: nat)
    requires |lines| <= i
    requires LoopInvariant(p, lines, m, blockAt, evalAt, i)
    ensures Parallel(m) && Provenance(p, lines, m, blockAt, evalAt)
    ensures |m.episodes| <= |lines|
    ensures m == Scan(p, lines, 0)
  {
    assert Concat(m, NoMetrics) == m;
  }

  /** One pass at index `i` — appending its block and then its evaluation,
      if any, and advancing — keeps the loop invariant. */
  lemma PassKeepsInvariant(p: Patterns, lines: seq<string>, m: Metrics, blockAt: seq<nat>, evalAt: seq<nat>, i: nat)
    requires i < |lines|
    requires LoopInvariant(p, lines, m, blockAt, evalAt, i)
    ensures var it := Step(p, lines, i);
      && (it.block.None? ==> LoopInvariant(p, lines, m, blockAt, evalAt, i + it.advance))
      && (it.block.Some? ==>
            var m1 := AddBlock(m, it.block.value);
            && (it.eval.None? ==> LoopInvariant(p, lines, m1, blockAt + [i], evalAt, i + it.advance))
            && (it.eval.Some? ==>
                  |m1.evalPoints| < |m1.episodes| &&
                  LoopInvariant(p, lines, AddEval(m1, it.eval.value), blockAt + [i], evalAt + [|blockAt|], i + it.advance)))
  {
    var it := Step(p, lines, i);
    AppendsAreContribution(m, it);
    ScanAdvance(p, lines, i, m);
    if it.block.Some? {
      ProvenanceAddBlock(p, lines, m, blockAt, evalAt, i);
      var m1 := AddBlock(m, it.block.value);
      if it.eval.Some? {
        ProvenanceAddEval(p, lines, m1, blockAt + [i], evalAt, i);
      }
    }
  }

  /**
   * The parse loop. The index grows by at least one per pass, so the loop
   * ends; the result is exactly the reference scan `Scan` from line 0, so
   * the loop visits the same lines and records the same values; the lists
   * grow only together; every block and evaluation can be traced to the
   * line that produced it; and there are never more blocks than lines.
   */
  method ParseLog(p: Patterns, lines: seq<string>) returns (m: Metrics, ghost blockAt: seq<nat>, ghost evalAt: seq<nat>)
    ensures Parallel(m)
    ensures Provenance(p, lines, m, blockAt, evalAt)
    ensures |m.episodes| <= |lines|
    ensures (forall j :: 0 <= j < |lines| ==> p.episode(lines[j]).None?) ==> m == Metrics([], [], [], [], [], [])
    ensures m == Scan(p, lines, 0)
  {
    m := NoMetrics;
    blockAt, evalAt := [], [];
    var i := 0;
    InvariantAtStart(p, lines);
    while i < |lines|
      invariant LoopInvariant(p, lines, m, blockAt, evalAt, i)
      decreases |lines| - i
    {
      var it := Step(p, lines, i);
      PassKeepsInvariant(p, lines, m, blockAt, evalAt, i);
      if it.block.Some? {
        ghost var blockIndex := |blockAt|;
        m := AddBlock(m, it.block.value);
        blockAt := blockAt + [i];
        if it.eval.Some? {
          m := AddEval(m, it.eval.value);
          evalAt := evalAt + [blockIndex];
        }
      }
      i := i + it.advance;
    }
    InvariantAtEnd(p, lines, m, blockAt, evalAt, i);
    NoMarkersNoMetrics(p, lines, m, blockAt, evalAt);
  }

  /** Without a single episode marker the scanner records nothing. */
  lemma NoMarkersNoMetrics(p: Patterns, lines: seq<string>, m: Metrics, blockAt: seq<nat>, evalAt: seq<nat>)
    requires Parallel(m) && Provenance(p, lines, m, blockAt, evalAt)
    ensures m != Metrics([], [], [], [], [], []) ==>
      0 < |blockAt| && blockAt[0] < |lines| && p.episode(lines[blockAt[0]]).Some?
    ensures (forall j :: 0 <= j < |lines| ==> p.episode(lines[j]).None?) ==> m == Metrics([], [], [], [], [], [])
  {
    if m != Metrics([], [], [], [], [], []) {
      assert Step(p, lines, blockAt[0]).block.Some?;
    }
  }

  lemma ConcatAssociative(a: Metrics, b: Metrics, c: Metrics)
    ensures Concat(Concat(a, b), c) == Concat(a, Concat(b, c))
  {
    assert (a.episodes + b.episodes) + c.episodes == a.episodes + (b.episodes + c.episodes);
  }

  /** The appends of one pass are the pass's contribution. */
  lemma AppendsAreContribution(m: Metrics, it: Iteration)
    requires Parallel(m)
    requires it.eval.Some? ==> it.block.Some?
    ensures it.block.None? ==> m == Concat(m, Contribution(it))
    ensures it.block.Some? && it.eval.None? ==> AddBlock(m, it.block.value) == Concat(m, Contribution(it))
    ensures it.block.Some? && it.eval.Some? ==>
      AddEval(AddBlock(m, it.block.value), it.eval.value) == Concat(m, Contribution(it))
  {
  }

  /** One pass of the loop keeps "collected so far, then the rest of the
      scan" equal to the whole scan. */
  lemma ScanAdvance(p: Patterns, lines: seq<string>, i: nat, m: Metrics)
    requires i < |lines|
    requires Concat(m, Scan(p, lines, i)) == Scan(p, lines, 0)
    ensures var it := Step(p, lines, i);
      Concat(Concat(m, Contribution(it)), Scan(p, lines, i + it.advance)) == Scan(p, lines, 0)
  {
    var it := Step(p, lines, i);
    ConcatAssociative(m, Contribution(it), Scan(p, lines, i + it.advance));
  }
}
