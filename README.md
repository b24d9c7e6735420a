# Queueing-theoretic speculation with proactive dreaming — a verified model

This project models the simulation core of a research scaffold for speculative
execution with "dreaming". In that scaffold a server that is not fully loaded
spends part of its idle time on background work. The model covers these parts:

- **Speculative server** (`QueueModel`). A single-server FIFO queue with a
  speculation timeout `tau`. A job whose raw service time exceeds `tau` gets a
  duplicate launched at `tau`, and it completes when the first of the two
  finishes. Each tick does three things:
  - it appends the tick's arrivals to the tail;
  - it drains the queue as a resumable fluid server for `dt` time units;
  - it spends part of the left-over idle time on background work, bounded by
    the idle budget scaled to the tick, `max(0, beta * (1 - rho_tau)) * dt`.

  The drain loop is specified by a reference function `Drain(q, p)`. Lemmas
  about `Drain` state the following:
  - work is conserved;
  - the idle time is bounded;
  - the loop stops only when the queue is empty or the budget is spent;
  - no job is lost;
  - completed jobs are a prefix of the queue, and ties complete;
  - only the next job can be partially served, and it is reduced by exactly the
    remaining budget.
- **Budget formula** (`Budget`). The scheduler's clamped formula
  `max(0, beta * (1 - min(0.999, rho)))`, with its monotonicity and bounds.
- **Failure/repair environment** (`Env`). `DreamEnv` is a bounded integer
  state machine. Each step does the following in order:
  - it admits or drops a job;
  - it fails the server and then maybe repairs it;
  - it logs down intervals;
  - it processes one job.

  The model proves queue bounds and job-accounting invariants for it.
- **Metrics helpers** (`Utils`). `compute_metrics` and `compute_mttr`.
- **Epsilon-greedy bandit** (`Bandit`). The count and value arrays are updated
  in place. The model proves that each value is the mean of the rewards given to
  that arm, tying the arrays to the log of all `update` calls.
- **Q-learning agent** (`QAgent`). A three-dimensional Q-table array. One cell
  is updated per `learn` call, and the exploration rate decays toward a floor.
- **Reactive agent** (`ReactiveAgent`). A memoryless decision rule.
- **Incident proxy** (`EvalMetrics`). The run-length scan `mttr_proxy`. It
  finds every maximal run of latencies above a threshold and returns the runs'
  mean length.
- **Scheduling loop** (`DreamScheduler`). `DreamScheduler.run`, over an
  abstract environment and the concrete bandit.

Common helpers (sums, means, argmax) are in `Stats`.

Modelling choices:

- Floating-point values are modelled as `real`. The drain guard `1e-12` is the
  constant `QueueModel.Eps`.
- Random draws are inputs:
  - a sampled job is a `ServiceDraw(raw, dup)`; the duplicate's sample is used
    only when speculation triggers;
  - a tick's number of arrivals is the number of arrival draws supplied;
  - the Monte Carlo utilisation estimate receives its batch of draws;
  - the environment's two `random.random() < p` tests are booleans;
  - each agent's exploration coin and random choice are a boolean and an index.
- In `SpeculativeServer.Serve` the drain loop works on a local copy of the
  queue, the budget and the completed jobs. It writes `queue`, `latencies` and
  `completions` once, after the loop. Nothing else can observe the fields while
  the loop runs, so the resulting state is the same as updating them on every
  iteration.

Three behaviours of the code are modelled as written:

- The latency recorded for a completed job is the head's *remaining* time when
  it is popped, not its original effective service time
  (`src/simulator/queue_model.py:83`). `QueueModel.SpeculativeServer.Serve`
  appends exactly the values `Drain` completes.
- The budget formula clamps `rho` only from above. A negative `rho` gives a
  budget above `beta`, as `Budget.NegativeRhoExceedsBeta` states.
- `step` has no check of its own that `dt` is positive, but its first call,
  `rng.poisson(lam * dt)`, raises for a negative mean. `QueueModel.SpeculativeServer.Step`
  therefore requires `lam * dt >= 0`. With `lam = 0` a negative `dt` still
  passes, as it does in the code: no job arrives and time moves backwards. The
  bounds `0 <= idle <= dt` and "background work within idle time" are stated
  under the hypothesis `dt >= 0`.

## Model

| member | source | states |
|---|---|---|
| Stats.ArgMax | src/rl/bandit.py:14 | the index returned holds a maximal value, and every earlier index holds a strictly smaller one (the first maximum, as `np.argmax`) |
| Stats.MeanTimesLength | src/evaluation/metrics.py:27 | `np.mean` of a non-empty sequence: the mean times the length is the sum |
| Stats.MaxOf | src/simulator/q_agent.py:76 | `np.max` of a non-empty row: the result is one of the entries and no entry exceeds it |
| Stats.MeanSnoc | src/rl/bandit.py:18-20 | the mean after one more reward `x` is the old mean plus `(x - mean) / (count + 1)`: the incremental update computes the arithmetic mean |
| QueueModel.EffectiveService | src/simulator/queue_model.py:36-48 | speculation triggers exactly when `s > tau`; without a duplicate the time is `s`; with one it is `min(s, tau + s2)`, which lies in `(tau, s]` for a positive duplicate sample; never above `s`; non-negative for non-negative inputs |
| QueueModel.EffTimes | src/simulator/queue_model.py:53-56 | one effective time per draw, in draw order |
| QueueModel.RhoTau | src/simulator/queue_model.py:50-58 | the value `estimate_rho_tau` returns: never above 0.999, and exactly `lam * mean(effective times)` whenever that is within the cap |
| QueueModel.ServerBudget | src/simulator/queue_model.py:62 | `max(0, beta * (1 - rho))`: never negative, either 0 or `beta * (1 - rho)`, and the latter for `beta >= 0` and `rho <= 1` |
| QueueModel.Drain | src/simulator/queue_model.py:78-88 | the reference definition of the drain loop (a head that fits, ties included, completes; one that does not is reduced by the whole remaining budget); a budget at or below `1e-12` serves nothing, and no more jobs complete than were queued |
| QueueModel.DreamTime | src/simulator/queue_model.py:91-93 | background time is at most the idle time and at most `budget * dt`, and equals one of them |
| QueueModel.RhoTauBounds | src/simulator/queue_model.py:50-58 | for `lam >= 0`, `tau >= 0` and non-negative samples, the estimate lies in `[0, 0.999]` |
| QueueModel.RhoTauMonotoneInLam | src/simulator/queue_model.py:50-58 | for the same samples, a larger arrival rate never gives a smaller estimate |
| QueueModel.ServerBudgetAgrees | src/simulator/queue_model.py:60-62 | for `rho <= 0.999` the server's `max(0, beta * (1 - rho))` equals the scheduler's budget formula |
| QueueModel.ServerBudgetBounds | src/simulator/queue_model.py:60-62 | for `beta >= 0` and an estimate in `[0, 0.999]`: `beta * 0.001 <= budget <= beta` |
| QueueModel.LowerLoadLargerBudget | src/simulator/queue_model.py:50-62 | with the same samples, a lower arrival rate gives an idle budget at least as large |
| QueueModel.DrainConservesWork | src/simulator/queue_model.py:78-88 | the total work removed from the queue equals `dt - idle` |
| QueueModel.DrainIdleBounds | src/simulator/queue_model.py:78-91 | with a non-negative budget and queue, `0 <= idle <= dt` |
| QueueModel.DrainStops | src/simulator/queue_model.py:79 | on exit the queue is empty or the left-over budget is at most `1e-12` |
| QueueModel.DrainCounts | src/simulator/queue_model.py:79-88 | every job is either completed or still queued: completed plus remaining equals the queue length before |
| QueueModel.DrainNonNegative | src/simulator/queue_model.py:79-88 | draining a non-negative queue leaves non-negative remaining times and records non-negative latencies |
| QueueModel.DrainCompletesPrefix | src/simulator/queue_model.py:80-85 | the completed jobs are exactly a prefix of the queue, in order |
| QueueModel.DrainCompletedFit | src/simulator/queue_model.py:79-81 | each completed job found more than `1e-12` of budget left and fitted in it, ties included |
| QueueModel.DrainLeavesTail | src/simulator/queue_model.py:79-88 | after the completed prefix, either the rest is untouched and the left-over budget is idle (at most `1e-12` unless the queue emptied), or the next job alone is reduced by exactly the remaining budget, the jobs behind it are untouched and no idle time remains |
| QueueModel.SpeculativeServer.constructor | src/simulator/queue_model.py:11-31 | requires `mu > 0`, `lam >= 0`, `tau >= 0`; starts with an empty queue, no latencies, zero completions, zero dream seconds and zero dream events; the ghost arrival, idle-time and tick counters start at 0, so `DreamWithinIdle` bounds all background work by the idle time summed since construction and `dreamEvents <= ticks` bounds dream events by the number of `Step` calls |
| QueueModel.SpeculativeServer.EstimateRhoTau | src/simulator/queue_model.py:50-58 | the loop computes `min(0.999, lam * mean(effective times))` over the batch, and the result lies in `[0, 0.999]` for non-negative inputs |
| QueueModel.SpeculativeServer.IdleBudget | src/simulator/queue_model.py:60-62 | the server's budget from a fresh estimate agrees with the scheduler's formula and lies in `[beta * 0.001, beta]` for `beta >= 0` |
| QueueModel.SpeculativeServer.Arrive | src/simulator/queue_model.py:71-75 | the effective times of the draws are appended to the tail in draw order; the entries already queued are unchanged |
| QueueModel.SpeculativeServer.Serve | src/simulator/queue_model.py:78-88 | the drain loop leaves the queue, the idle time and the appended latencies that `Drain` describes; `len(latencies) == completions` and `len(queue) + completions == arrivals` are kept |
| QueueModel.SpeculativeServer.Step | src/simulator/queue_model.py:64-98 | requires `lam * dt >= 0` (the Poisson draw rejects a negative mean) and no arrival when `lam * dt = 0`; the new state is arrivals then `Drain`; dream seconds grow by `min(idle, budget * dt)` and dream events by one exactly when that is positive; time grows by exactly `dt`; for `dt >= 0`, `0 <= idle <= dt` and cumulative dream seconds stay within cumulative idle time |
| QueueModel.SpeculativeServer.Metrics | src/simulator/queue_model.py:100-113 | the snapshot's completions and queue length add up to the arrivals, completions equal the number of latencies, dream seconds are non-negative and dream events are at most the number of ticks |
| Budget.IdleBudget | src/scheduler/budget.py:1-2 | the budget is never negative |
| Budget.FactorAtLeastFloor | src/scheduler/budget.py:2 | the capped factor `1 - min(0.999, rho)` is at least 0.001 |
| Budget.OuterClampInactive | src/scheduler/budget.py:2 | for `beta >= 0` the outer `max` never binds: the budget is exactly `beta * (1 - min(0.999, rho))`, and at least `beta * 0.001` |
| Budget.AntitoneInRho | src/scheduler/budget.py:2 | for `beta >= 0` the budget is non-increasing in `rho` |
| Budget.SaturatedBudget | src/scheduler/budget.py:2 | every `rho >= 0.999` gives the same budget, `beta * 0.001` when `beta >= 0` |
| Budget.MonotoneInBeta | src/scheduler/budget.py:2 | the budget is non-decreasing in `beta` |
| Budget.AtMostBeta | src/scheduler/budget.py:2 | for `beta >= 0` and `rho >= 0` the budget is at most `beta` |
| Budget.NegativeRhoExceedsBeta | src/scheduler/budget.py:2 | with no lower clamp on `rho`, `beta > 0` and `rho < 0` give a budget above `beta` |
| Env.ServerAfter | src/simulator/env.py:60-66 | a down server is up exactly when the repair test passes; an up server stays up unless it fails and is not repaired in the same call |
| Env.DreamEnv.constructor | src/simulator/env.py:13-26 | keeps the parameters, the action space `[0, 1]`, an empty downtime log and no open down interval, then resets |
| Env.DreamEnv.GetObs | src/simulator/env.py:38-39 | the observation is the queue length and 1 or 0 for an up or down server |
| Env.DreamEnv.Reset | src/simulator/env.py:28-36 | queue, counters and steps are zero, the server is up, no down interval is open, the downtime log is unchanged, and the observation is `[0, 1]` |
| Env.DreamEnv.AdmitOrDrop | src/simulator/env.py:48-55 | action 1 admits a job when the queue has room and drops it (one more drop) when it is full; any other action changes nothing |
| Env.DreamEnv.UpdateServer | src/simulator/env.py:57-76 | the server status follows the failure then repair tests; an up-to-down change opens a down interval at the current step; a down-to-up change logs `steps - start` and closes it; a fail-and-repair in one call logs nothing |
| Env.DreamEnv.Process | src/simulator/env.py:79-83 | a job is processed exactly when the server is up and the queue is non-empty |
| Env.DreamEnv.Step | src/simulator/env.py:41-88 | keeps `0 <= queue_len <= max_queue`, `processed + queue_len == admitted`, `admitted + dropped == action-1 steps`, and logged down intervals at least 1 step long; the reward is served minus dropped, in `[-1, 1]`; action 0 never drops; steps grow by one and `done` holds exactly when steps reach 50; downtime logging as in `UpdateServer` |
| Utils.StepsDivisor | src/simulator/utils.py:7-8 | `max(1, steps)` is at least 1 and at least `steps`, and equals `steps` once a step was taken |
| Utils.RatioInUnit | src/simulator/utils.py:7-8 | a count between 0 and the step count, divided by `max(1, steps)`, lies in `[0, 1]` |
| Utils.ComputeMetrics | src/simulator/utils.py:3-19 | throughput and drop rate times `max(1, steps)` give the processed and dropped counts; fault avoidance is `1 - drop_rate`; both counts are passed through |
| Utils.MetricsInUnit | src/simulator/utils.py:7-11 | for a valid `DreamEnv` throughput, drop rate and fault avoidance rate all lie in `[0, 1]` |
| Utils.ComputeMttr | src/simulator/utils.py:22-28 | 0 for an empty downtime log; otherwise a value whose product with the log length is the sum of the logged durations (their mean) |
| Utils.MttrAtLeastOne | src/simulator/utils.py:26-28 | for a valid `DreamEnv` with a non-empty log the MTTR is at least 1 |
| Bandit.MeanValues | src/rl/bandit.py:18-20 | the value table for a log: each arm's entry is the mean of its rewards, 0 when never pulled |
| Bandit.EpsilonGreedyBandit.constructor | src/rl/bandit.py:4-9 | `n` zero counts and `n` zero values, an empty update log |
| Bandit.EpsilonGreedyBandit.Select | src/rl/bandit.py:11-14 | the result is in `[0, n)`; exploring returns the supplied arm; exploiting returns the first arm of maximal value, that is the argmax of the log's mean rewards |
| Bandit.EpsilonGreedyBandit.Update | src/rl/bandit.py:16-20 | `counts[a]` grows by one and no other count or value changes; after it `values[a]` is the mean of all rewards given to `a`; the count sum is the number of updates |
| Bandit.TablesSnoc | src/rl/bandit.py:16-20 | one update step applied to tables that describe a log gives the tables of the log extended by that pull |
| Bandit.CountsSnoc | src/rl/bandit.py:17 | the count step keeps each count equal to the arm's pull count and the count sum equal to the number of pulls |
| Bandit.ValuesSnoc | src/rl/bandit.py:18-20 | the running-mean step turns the mean of an arm's rewards into the mean of its rewards plus the new one, and leaves the other arms' means alone |
| Bandit.ValueWithinRewards | src/rl/bandit.py:20 | each pulled arm's value lies between any lower and upper bound on the rewards it received |
| QAgent.QUpdate | src/simulator/q_agent.py:79 | `lr = 0` keeps the current value, `lr = 1` gives the target, and `lr` in `[0, 1]` gives a value between current and target |
| QAgent.Decayed | src/simulator/q_agent.py:88 | the decayed rate is never below the floor, is either the floor or `epsilon * rate`, and does not exceed `epsilon` when `0 <= epsilon`, `floor <= epsilon` and `rate <= 1` |
| QAgent.QLearningAgent.constructor | src/simulator/q_agent.py:10-34 | the table has shape `(max_queue + 1) x 2 x len(action_space)` and is all zeros; the hyperparameters are kept |
| QAgent.QLearningAgent.Row | src/simulator/q_agent.py:56 | the row of one state holds one Q-value per action, read from the table |
| QAgent.QLearningAgent.Act | src/simulator/q_agent.py:47-56 | explore returns the chosen element of the action space; exploit returns the first index of a maximal Q-value in the state's row |
| QAgent.QLearningAgent.Learn | src/simulator/q_agent.py:68-82 | the cell `[queue_len, status, action]` becomes `current + lr * (reward + gamma * max_next - current)`; every other cell is unchanged |
| QAgent.QLearningAgent.DecayEpsilon | src/simulator/q_agent.py:84-88 | epsilon becomes `max(min_epsilon, epsilon * rate)` and is never below the floor |
| QAgent.ObservationsIndexable | src/simulator/q_agent.py:47 | observations of a valid `DreamEnv` with the same queue bound are valid table indices |
| ReactiveAgent.Act | src/simulator/reactive_agent.py:13-30 | the action is 0 or 1, and it is 1 exactly when the server is up and the queue is below 10 |
| ReactiveAgent.RequestsAreAdmitted | src/simulator/reactive_agent.py:27 | against a valid `DreamEnv` whose bound is at least 10, a request by the agent is admitted and never dropped |
| ReactiveAgent.SmallQueueCanDrop | src/simulator/reactive_agent.py:27 | with a queue bound of 5, the agent requests a job at queue length 5 and the environment drops it |
| EvalMetrics.CountAbove | src/evaluation/metrics.py:16-26 | the number of entries above the threshold is at most the series length |
| EvalMetrics.MttrProxy | src/evaluation/metrics.py:10-27 | the result is 0 exactly when no entry is above the threshold; otherwise it is the mean of the lengths of the maximal runs above it, which is at least 1; the runs are maximal, ordered, and their lengths add up to the number of entries above the threshold |
| EvalMetrics.CollectRuns | src/evaluation/metrics.py:15-26 | the scan records one length per maximal run, left to right, each at least 1, summing to the count of entries above the threshold |
| EvalMetrics.ScanRun | src/evaluation/metrics.py:21-23 | the inner loop stops at the first entry not above the threshold or at the end, so every entry it passed is above the threshold |
| EvalMetrics.MeanLength | src/evaluation/metrics.py:27 | 0 for no runs; otherwise the mean length, which is at least 1 |
| EvalMetrics.MeanTimesRuns | src/evaluation/metrics.py:27 | the mean run length times the number of runs is the number of entries above the threshold |
| DreamScheduler.PullsSnoc | src/scheduler/dream_scheduler.py:22-23 | one more history entry adds exactly its action and reward to the bandit's update log |
| DreamScheduler.Run | src/scheduler/dream_scheduler.py:16-25 | parameters default to `episodes = 50` and `dt = 1.0`; reset is applied once, to the initial environment; the history has exactly `episodes` entries in tick order; `done` never stops the loop; the bandit's log is extended by one `(action, reward)` per tick |
| DreamScheduler.RecordedFacts | src/scheduler/dream_scheduler.py:19-24 | `Recorded` unfolded as a reading aid for `Run`'s contract: for each tick, the environment is stepped with the entry's action; the entry holds that step's reward and metrics; the action is the supplied arm when exploring and the first arm of maximal mean reward over the log so far otherwise |
| DreamScheduler.RecordedSnoc | src/scheduler/dream_scheduler.py:19-24 | one loop iteration extends a recorded run by exactly one consistent entry |
| DreamScheduler.CountsAfterRun | src/scheduler/dream_scheduler.py:20-22 | after a run the bandit's counts add up to the updates made before plus one per tick (`episodes` for a fresh bandit) |

## Left out

- Random number generation and its distributions (`rng.exponential`,
  `rng.poisson`, `rng.random`, `rng.integers`, `random.random`,
  `random.choice`) and the seeds. The draws are inputs instead.
- IEEE floating-point rounding, NaN and infinities. All values are mathematical
  reals.
- QueueModel.SpeculativeServer.Metrics: the latency percentiles and the NaN
  sentinel are not modelled. The utilisation estimate and idle budget it
  recomputes are available as `EstimateRhoTau` and `IdleBudget`.
- QueueModel.SpeculativeServer.EstimateRhoTau: requires at least one draw. The
  source always draws 2000, and the mean of an empty batch is NaN.
- `busy_until`, `failures`, `recoveries`, `last_failure_end` and the
  `inject_failure` parameter of `SpeculativeServer` are never used, so they are
  not modelled. `draw_service` is replaced by the supplied draws.
- EvalMetrics.MttrProxy: the threshold is a parameter. The source computes it
  as 1.5 times `np.nanmedian` of the series, and the median is not modelled.
  The `pandas` column extraction and `summarize` are left out too.
- QAgent.QLearningAgent.Act: states are integer pairs. The `int()`
  conversion of a `float32` observation is not modelled.
- QAgent.Decayed: the "never increases" clause also needs `0 <= epsilon`. With
  a negative `epsilon` and a rate below 1, `epsilon * rate` exceeds `epsilon`.
- DreamScheduler.Run: the environment is abstract (a state type with `reset`
  and `step` function values), because the repository's `DreamEnv` has neither
  `env.K` nor a `step(a, dt=dt)`. The bandit is the concrete
  `EpsilonGreedyBandit`. Re-binding `state` each tick is not modelled, because
  its value is never read.
- `DreamEnv.render` (printing) and the constant `observation_space` are left out.
- `src/simulator/faults.py` (constant data only) and the command-line drivers
  under `scripts/` are not part of this model.
