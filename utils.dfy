/**
 * Episode-level metrics of a `DreamEnv`: throughput, drop rate, fault
 * avoidance rate and the mean time to recovery from the downtime log.
 */
module Utils {
  import opened Stats
  import Env

  datatype EpisodeMetrics = EpisodeMetrics(
    throughput: real,
    dropRate: real,
    processed: int,
    dropped: int,
    faultAvoidanceRate: real)

  /** `max(1, steps)`: the divisor that keeps the rates defined at step 0. */
  function StepsDivisor(steps: int): (d: int)
    ensures d >= 1 && d >= steps
    ensures steps >= 1 ==> d == steps
  {
    if steps >= 1 then steps else 1
  }

  /** A count that grows by at most one per step, over the step divisor, lies in [0, 1]. */
  lemma RatioInUnit(count: int, steps: int)
    requires 0 <= count <= steps || count == 0
    ensures 0.0 <= (count as real) / (StepsDivisor(steps) as real) <= 1.0
  {
    var d := StepsDivisor(steps) as real;
    assert count as real <= d;
    assert (count as real) / d * d == count as real;
  }

  function ComputeMetrics(env: Env.DreamEnv): (m: EpisodeMetrics)
    reads env
    ensures m.processed == env.jobsProcessed && m.dropped == env.jobsDropped
    ensures m.throughput * (StepsDivisor(env.steps) as real) == env.jobsProcessed as real
    ensures m.dropRate * (StepsDivisor(env.steps) as real) == env.jobsDropped as real
    ensures m.faultAvoidanceRate == 1.0 - m.dropRate
  {
    var throughput := (env.jobsProcessed as real) / (StepsDivisor(env.steps) as real);
    var dropRate := (env.jobsDropped as real) / (StepsDivisor(env.steps) as real);
    var faultAvoidanceRate := 1.0 - dropRate;
    EpisodeMetrics(throughput, dropRate, env.jobsProcessed, env.jobsDropped, faultAvoidanceRate)
  }

  /** A `DreamEnv` adds at most one processed job and one drop per step, so both rates lie in [0, 1]. */
  lemma MetricsInUnit(env: Env.DreamEnv)
    requires env.Valid()
    ensures var m := ComputeMetrics(env);
      0.0 <= m.throughput <= 1.0 && 0.0 <= m.dropRate <= 1.0 && 0.0 <= m.faultAvoidanceRate <= 1.0
  {
    RatioInUnit(env.jobsProcessed, env.steps);
    RatioInUnit(env.jobsDropped, env.steps);
  }

  /** Mean time to recovery: 0 for an empty log, otherwise the mean logged duration. */
  function ComputeMttr(env: Env.DreamEnv): (r: real)
    reads env
    ensures env.serverDownTime == [] ==> r == 0.0
    ensures env.serverDownTime != [] ==>
              r * (|env.serverDownTime| as real) == SumInt(env.serverDownTime) as real
  {
    var log := env.serverDownTime;
    if log == [] then 0.0
    else
      SumToReals(log);
      Mean(ToReals(log))
  }

  /** Every logged down interval is at least one step, so a non-empty log has MTTR at least 1. */
  lemma MttrAtLeastOne(env: Env.DreamEnv)
    requires env.Valid() && env.serverDownTime != []
    ensures ComputeMttr(env) >= 1.0
  {
    var log := ToReals(env.serverDownTime);
    assert forall i :: 0 <= i < |log| ==> log[i] >= 1.0;
    MeanBounds(log, 1.0, MaxOf(log));
  }
}
