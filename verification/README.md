# simple_spread reward and observation core, in Dafny

This project models the decision logic of the multi-agent particle
environment's `simple_spread` scenario as it is used by the on-policy MAPPO
trainer. N agents try to spread over L landmarks while avoiding each other.
It also models the block scanner of the training-log plotter.

The scenario computes, for one agent of a world:

- whether two agents collide (`is_collision`);
- its reward under one of four regimes selected by a string:
  - `individual`: a banded proximity term, minus a collision penalty;
  - `shared`: team progress in total distance, minus ordered colliding pairs;
  - `partially_shared`: a 0.6 / 0.4 blend of an individual term, the shared progress and a coverage bonus;
  - `original`: minus the summed nearest-agent distances, minus collisions, self included;
- its observation vector;
- the benchmark tally used in evaluation;
- the initial and reset world state.

The `shared` and `partially_shared` regimes keep a progress accumulator on
the world between calls. The model makes that accumulator explicit: a world
carries it as `World.prevTotalDist: Option<real>`, and every reward call
returns the accumulator it leaves behind in `RewardStep.prevTotalDist`
(`Episodes.Commit` writes it back). The accumulator is written on every call,
not once per step. So within one step the first agent's call consumes the
progress and every later agent sees none (`Episodes.SharedSecondCall`).

Three behaviours of the code are kept as written:

- `make_world` initialises an attribute named `prev_total_distance`, but the
  rewards read `prev_total_dist`, and `reset_world` clears neither. A new
  episode's first progress term is therefore measured against the previous
  episode's last total (`Episodes.AccumulatorSurvivesReset`). The line
  `world.prev_total_distance = None` in `make_world` shows the accumulator
  was meant to start unset; it does so only for the very first episode.
- In `partially_shared` the loop variable shadows the `agent` argument, so
  the individual term is always the last agent's, whoever asks
  (`Episodes.TeamRewardsIgnoreAgent`).
- `original` and `benchmark_data` count an agent colliding with itself
  (`Rewards.Original`, `Benchmark.Collect`). `individual` and `shared` skip it.

An unknown regime name raises `ValueError` only when `reward` is called, in
the final `else` of its dispatch; nothing checks the name earlier.
`Rewards.Reward` returns `UnknownRewardType` for it.

Dafny has no square root. Every distance is `Geometry.Dist(sqrt, p, q)` for
a caller-supplied `sqrt` satisfying `Geometry.IsSqrt`: for all x >= 0,
`sqrt(x) >= 0` and `sqrt(x) * sqrt(x) == x`. Non-negativity, symmetry and
`Dist(p, p) == 0` are proved from that, not assumed. Comparisons that only
need order are also proved on squared distances.

Layout, one module per file:

| module | file | contents |
|---|---|---|
| `Wrappers` | wrappers.dfy | `Option`, `Result` |
| `Geometry` | geometry.dfy | vectors, squared distance, `Dist` and its order lemmas |
| `Entities` | entities.dfy | `Agent`, `Landmark`, `World`, `Others` |
| `Collision` | collision.dfy | `is_collision` and the collision counts |
| `Reductions` | reductions.dfy | `min`, `np.argmin`, running sum, `len(set(...))` |
| `Rewards` | rewards.dfy | the four regimes and the dispatcher |
| `Observation` | observation.dfy | the observation vector and its layout |
| `Scenario` | scenario.dfy | `make_world`, `reset_world` |
| `Benchmark` | benchmark.dfy | `benchmark_data` |
| `Episodes` | episodes.dfy | properties spanning several reward calls |
| `LogMetrics` | log_metrics.dfy | the log block scanner |

## Model

| member | source | states |
|---|---|---|
| Geometry.Dist | onpolicy/envs/mpe/scenarios/simple_spread.py:72-74 | a distance is non-negative and its square is the summed squared coordinate differences |
| Geometry.DistSymmetric | onpolicy/envs/mpe/scenarios/simple_spread.py:72-74 | the distance from p to q equals the distance from q to p |
| Geometry.DistSelf | onpolicy/envs/mpe/scenarios/simple_spread.py:72-74 | every point is at distance zero from itself |
| Geometry.DistLessIff | onpolicy/envs/mpe/scenarios/simple_spread.py:74-76 | a distance is below a non-negative bound exactly when its square is below the bound's square |
| Geometry.DistLessIffSqLess | onpolicy/envs/mpe/scenarios/simple_spread.py:168 | one distance is smaller than another exactly when its squared distance is smaller |
| Collision.IsCollision | onpolicy/envs/mpe/scenarios/simple_spread.py:72-76 | two agents can only collide when the sum of their radii is positive |
| Collision.CollisionIffDist | onpolicy/envs/mpe/scenarios/simple_spread.py:72-76 | two agents collide exactly when their distance is strictly below the sum of their radii |
| Collision.CollisionSymmetric | onpolicy/envs/mpe/scenarios/simple_spread.py:72-76 | a collides with b exactly when b collides with a |
| Collision.SelfCollision | onpolicy/envs/mpe/scenarios/simple_spread.py:72-76 | any agent with a positive radius collides with itself |
| Collision.CountColliding | onpolicy/envs/mpe/scenarios/simple_spread.py:188-191 | the collision count is at most the number of agents scanned, and zero when none of them collides |
| Collision.OrderedCollisions | onpolicy/envs/mpe/scenarios/simple_spread.py:138-142 | the `shared` double loop over ordered pairs of distinct agents counts twice the number of unordered colliding pairs |
| Collision.OrderedIsTwiceUnordered | onpolicy/envs/mpe/scenarios/simple_spread.py:138-142 | summed over all rows, the ordered count is twice the lower-triangle count, so the `shared` penalty is always even |
| Reductions.MinOf | onpolicy/envs/mpe/scenarios/simple_spread.py:106 | `min` returns an element of the list that is no larger than any element |
| Reductions.ArgMin | onpolicy/envs/mpe/scenarios/simple_spread.py:168 | `np.argmin` returns an index of a minimum that is strictly smaller than everything before it, i.e. the first minimum |
| Reductions.MinAtArgMin | onpolicy/envs/mpe/scenarios/simple_spread.py:168 | the element `np.argmin` points at is the value `min` returns |
| Reductions.ArgMinOrderInvariant | onpolicy/envs/mpe/scenarios/simple_spread.py:168 | two lists whose entries compare alike have the same first minimum |
| Reductions.DistinctBounds | onpolicy/envs/mpe/scenarios/simple_spread.py:169 | the number of distinct indices is at most the list length and at most the index range, and at least one for a non-empty list |
| Rewards.ProximityReward | onpolicy/envs/mpe/scenarios/simple_spread.py:97-114 | the proximity term is the bonus exactly inside (0.15, 0.35), the close penalty exactly at or below 0.15, the far penalty exactly at or above 0.35 |
| Rewards.NearestLandmarkDist | onpolicy/envs/mpe/scenarios/simple_spread.py:105-106 | the nearest-landmark distance is non-negative, is attained by some landmark and is at most every landmark's distance |
| Rewards.Individual | onpolicy/envs/mpe/scenarios/simple_spread.py:96-123 | `individual` fails with the empty-`min` error exactly when there are no landmarks; otherwise it is at most 1 and equals the proximity term minus the number of other agents colliding when `collide` is set |
| Rewards.UpdateProgress | onpolicy/envs/mpe/scenarios/simple_spread.py:131-135 | the accumulator always ends at the current total; progress is zero from an unset accumulator and is the drop in total distance otherwise |
| Rewards.Shared | onpolicy/envs/mpe/scenarios/simple_spread.py:125-144 | `shared` stores the current total and returns the drop in total distance since the stored one (none if unset) minus twice the number of colliding pairs |
| Rewards.TotalDist | onpolicy/envs/mpe/scenarios/simple_spread.py:126-129 | the total agent-landmark distance is non-negative, and zero without landmarks |
| Rewards.MinDistSum | onpolicy/envs/mpe/scenarios/simple_spread.py:183-186 | the summed nearest-agent distances are non-negative |
| Rewards.ClosestAgents | onpolicy/envs/mpe/scenarios/simple_spread.py:168 | for every landmark the chosen agent is a valid index, no agent is nearer to that landmark, and every agent before it in world order is strictly farther (the first nearest, as `np.argmin` picks) |
| Rewards.CoverageBonus | onpolicy/envs/mpe/scenarios/simple_spread.py:167-169 | the coverage bonus is at least 1 when there are landmarks and at most min(#agents, #landmarks) |
| Rewards.PartiallyShared | onpolicy/envs/mpe/scenarios/simple_spread.py:147-171 | `partially_shared` fails exactly when there are no landmarks; otherwise it stores the current total and returns 0.6 times the LAST agent's negated nearest distance plus 0.4 times the progress plus 0.04 per covering agent, bounded when there is no progress |
| Rewards.Original | onpolicy/envs/mpe/scenarios/simple_spread.py:181-192 | `original` is never positive, is at most -1 for a colliding agent with positive radius (self-collision), is minus the summed nearest distances when `collide` is off, and with `collide` on is that minus the number of agents, self included, colliding with it |
| Rewards.SelfCountPositive | onpolicy/envs/mpe/scenarios/simple_spread.py:188-191 | scanning all agents for collisions with one of positive radius finds at least one, itself |
| Rewards.Reward | onpolicy/envs/mpe/scenarios/simple_spread.py:173-194 | the unknown-type error arises exactly for names outside the four regimes; `shared` and `original` never fail; only `shared` and `partially_shared` move the accumulator, to the current total; each of the four names yields exactly its own regime's result (`individual` with the accumulator unchanged, `shared` and `partially_shared` as computed, `original` with the accumulator unchanged) |
| Observation.FlattenAt | onpolicy/envs/mpe/scenarios/simple_spread.py:214 | concatenating equal-width vectors puts component d of vector k at offset k * width + d |
| Observation.Observe | onpolicy/envs/mpe/scenarios/simple_spread.py:197-214 | the observation starts with the agent's own velocity, component by component, then its own position |
| Observation.ObservationSize | onpolicy/envs/mpe/scenarios/simple_spread.py:197-214 | every observation has length 2 * dim_p + dim_p * L + (N - 1) * (dim_p + dim_c) |
| Observation.LandmarkAt | onpolicy/envs/mpe/scenarios/simple_spread.py:199-201 | next come every landmark's position relative to the agent, in world order |
| Observation.OtherPositionAt | onpolicy/envs/mpe/scenarios/simple_spread.py:207-213 | next come every other agent's position relative to the agent, in world order, skipping the agent itself |
| Observation.CommAt | onpolicy/envs/mpe/scenarios/simple_spread.py:207-214 | the observation ends with every other agent's communication vector, in world order, skipping the agent itself |
| Observation.ObservationIgnoresColors | onpolicy/envs/mpe/scenarios/simple_spread.py:202-205 | recolouring agents and landmarks leaves every observation unchanged: the collected colours are never used |
| Scenario.ResetWorld | onpolicy/envs/mpe/scenarios/simple_spread.py:38-51 | after a reset agent j sits at its draw and landmark k at 0.8 times its draw, so agents lie in [-1, 1] and landmarks in [-0.8, 0.8]; velocities and communication are zero, names, radii and flags are kept, colours are the assigned ones, and the episode length, the collaboration flag and both accumulator attributes are untouched |
| Scenario.MakeWorld | onpolicy/envs/mpe/scenarios/simple_spread.py:12-36 | a new world has the requested counts, colliding silent agents of radius 0.15, fixed non-colliding landmarks, dim_c 2, no collaboration, and no accumulator value in either attribute; after the reset it performs, agents are named `agent j` and sit at their draws, landmarks are named `landmark k` and sit at 0.8 times their draws, velocities and communication are zero, and colours are the assigned ones |
| Benchmark.CountBelowExtremes | onpolicy/envs/mpe/scenarios/simple_spread.py:63-64 | no landmark is occupied exactly when every nearest distance is at least 0.1, and all are exactly when every one is below it |
| Benchmark.TallyLandmarks | onpolicy/envs/mpe/scenarios/simple_spread.py:58-64 | the landmark loop sums the nearest-agent distances, takes the same amount off the reward, and counts the landmarks with an agent within 0.1 |
| Benchmark.TallyCollisions | onpolicy/envs/mpe/scenarios/simple_spread.py:65-69 | the collision loop takes one off the reward for each agent, self included, that collides with the given agent |
| Benchmark.Collect | onpolicy/envs/mpe/scenarios/simple_spread.py:53-70 | the tally satisfies rew = -min_dists - collisions, has no collisions when `collide` is off, at most L occupied landmarks, and its reward equals the `original` reward |
| Episodes.SharedSecondCall | onpolicy/envs/mpe/scenarios/simple_spread.py:131-135 | a second `shared` call on an unchanged world has no progress term, only the collision penalty |
| Episodes.PartiallySharedSecondCall | onpolicy/envs/mpe/scenarios/simple_spread.py:161-171 | a second `partially_shared` call on an unchanged world keeps the same accumulator and has no progress term |
| Episodes.TeamRewardsIgnoreAgent | onpolicy/envs/mpe/scenarios/simple_spread.py:147-171 | `shared` and `partially_shared` give every agent of a world the same result |
| Episodes.FirstSharedRewardHasNoProgress | onpolicy/envs/mpe/scenarios/simple_spread.py:131-132 | on a freshly made world the attribute the rewards read is unset, so the first `shared` reward is only the collision penalty |
| Episodes.AccumulatorSurvivesReset | onpolicy/envs/mpe/scenarios/simple_spread.py:33-51 | after a reset the first `shared` reward is measured against the total the previous episode's last call stored |
| Episodes.ProximityBySquares | onpolicy/envs/mpe/scenarios/simple_spread.py:109-114 | the bonus band 0.15 < d < 0.35 is 0.0225 < d² < 0.1225, and likewise for the two penalties |
| Episodes.ClosestAgentBySquares | onpolicy/envs/mpe/scenarios/simple_spread.py:168 | the first nearest agent to a landmark is the same whether distances or squared distances are compared |
| LogMetrics.Peek | logging/log_metrics.py:41-42 | the reward and entropy lines are read one line past their guard: exactly at the end of the log the read raises, past it the line is empty |
| LogMetrics.Record | logging/log_metrics.py:44-70 | a block is recorded exactly when both lines match and convert, with those numbers; after a block, a matching and convertible evaluation line is always recorded with its number; the advance is 5 exactly when an evaluation is recorded, 4 on a failed match, 1 on a failed conversion |
| LogMetrics.Step | logging/log_metrics.py:32-75 | every pass advances the index by 1 to 5; a non-marker, or a marker two or three lines from the end, advances by 1 and records nothing; a recorded block carries the marker's episode and timestep |
| LogMetrics.StepRecordsBlock | logging/log_metrics.py:47-68 | a marker whose next-but-one and next-but-two lines match and convert records exactly those numbers, records the evaluation number of the fourth line exactly when that line matches, and advances by 5 exactly when it is a convertible evaluation |
| LogMetrics.StepSkipsUnmatched | logging/log_metrics.py:55-58 | a marker whose reward or entropy line does not match skips four lines and records nothing |
| LogMetrics.StepAtLastLine | logging/log_metrics.py:41-42 | a marker on the last line reads two empty lines and never records an evaluation |
| LogMetrics.ProvenanceAddBlock | logging/log_metrics.py:51-54 | appending a block keeps the four training lists parallel and every earlier block traceable |
| LogMetrics.ProvenanceAddEval | logging/log_metrics.py:63-66 | appending an evaluation keeps the evaluation lists parallel, no longer than the training lists, and tied to the block just recorded |
| LogMetrics.Scan | logging/log_metrics.py:30-75 | the reference scan collects nothing from past the end of the log; from any other line it takes what that line's pass records and continues where that pass moves the index |
| LogMetrics.SkippedMarkerHidesNextBlock | logging/log_metrics.py:55-58 | in the log `marker, marker, junk, reward, entropy` the second marker heads a complete block, yet the scan yields nothing, because the failed first block skips four lines |
| LogMetrics.ParseLog | logging/log_metrics.py:30-75 | the result is exactly the reference scan from line 0, so the loop visits the same lines and records the same values; the loop ends; the four training lists are parallel; the evaluation lists are parallel and no longer; every block and evaluation traces back to the marker that produced it, in log order, each evaluation repeating its block's episode; there are no more blocks than lines |
| LogMetrics.NoMarkersNoMetrics | logging/log_metrics.py:34-36 | a log without a single episode marker yields six empty lists |

## Left out

- Square roots are not computed. Every distance takes a `sqrt` function that satisfies `Geometry.IsSqrt`.
- Floating point is not modelled: positions and rewards are exact reals, so rounding in `np.linalg.norm` and in the running sums is not represented.
- The random draws of `reset_world` (`np.random.uniform`) are inputs. They must have the world's dimension and components in [-1, 1).
- `assign_agent_colors` and `assign_landmark_colors` are not modelled. The colours they produce are inputs to `Scenario.ResetWorld`.
- `core.py` is not part of this model. The `World`, `Agent` and `Landmark` attributes the scenario never touches are not kept (masses, speeds, the physics integrator). The counters `num_agents` and `num_landmarks`, which `make_world` sets (simple_spread.py lines 17-18), are not kept either: they equal `|agents|` and `|landmarks|`, which `Scenario.MakeWorld` states. `Scenario.PositionDim` assumes the physics default `dim_p = 2`.
- `onpolicy/envs/mpe/MPE_env.py` is not modelled. It is wiring: it loads the scenario, sets `reward_type` and builds the environment.
- The agent passed to `reward`, `observation` and `benchmark_data` is given by its index in the world. An agent object that is not in the world is outside the model.
- Rewards.ProximityReward: the band edges are exact reals. In doubles `0.35 - 0.25` is `0.09999999999999998 < 0.1`, so the code gives the bonus at `min_dist == 0.35`, where the model gives the far penalty. At 0.15 the double difference is exactly `0.1` and both give the close penalty.
- `Rewards.PartiallyShared` requires at least one agent. It is only reached from `Rewards.Reward`, which already has an agent index.
- `Geometry.SqDist` stops at the shorter of two vectors of different lengths, where numpy would broadcast or raise. Well-formed worlds (`Entities.WellFormed`) never compare vectors of different lengths.
- The log plotter's argument parsing, file reading, `strip().splitlines()`, warning prints and plotting (logging/log_metrics.py lines 1-30 and 77-98) are I/O. `LogMetrics.ParseLog` takes the list of lines.
- The regular expressions, per-line `strip()`, `int()` and `float()` are abstract (`LogMetrics.Patterns`). `int()` of a `\d+` capture cannot fail, so the episode pattern yields integers directly.
- The exception handler is modelled for the only two exceptions the block can raise: the index error and a failed `float()`.
