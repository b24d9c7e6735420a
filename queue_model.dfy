/**
 * The speculative single-server queue `SpeculativeServer`.
 *
 * A job whose raw service time exceeds the timeout `tau` gets a duplicate at
 * `tau`; it completes when the first of the two finishes. Each `Step(dt)`
 * appends the tick's arrivals, drains the FIFO queue as a fluid server for
 * `dt` time units, and spends part of the left-over idle time on background
 * ("dream") work, bounded by the idle budget.
 *
 * Random draws are inputs: a job is a `ServiceDraw` (its raw sample and the
 * duplicate's sample, the latter consumed only when speculation triggers),
 * the tick's arrival count is the number of arrival draws supplied, and a
 * Monte Carlo utilisation estimate receives its batch of draws.
 */
module QueueModel {
  import opened Stats
  import Budget

  /** Guard of the drain loop: budgets at or below this are treated as spent. */
  const Eps: real := 0.000000000001

  /** Cap on the utilisation estimate. */
  const RhoCap: real := 0.999

  /** One sampled job: its raw service time and the sample its duplicate would take. */
  datatype ServiceDraw = ServiceDraw(raw: real, dup: real)

  /** Exponential samples are never negative. */
  predicate NonNegative(d: ServiceDraw)
  {
    d.raw >= 0.0 && d.dup >= 0.0
  }

  predicate AllNonNegative(ds: seq<ServiceDraw>)
  {
    forall i :: 0 <= i < |ds| ==> NonNegative(ds[i])
  }

  /** Effective completion time and whether a duplicate was launched. */
  datatype Speculated = Speculated(time: real, triggered: bool)

  /**
   * Completion time of a job with raw sample `s` under timeout `tau`, given
   * the sample `s2` that a duplicate launched at `tau` would take.
   */
  function EffectiveService(tau: real, s: real, s2: real): (r: Speculated)
    ensures r.triggered <==> s > tau
    ensures !r.triggered ==> r.time == s
    // With a duplicate, the job ends when the original or the duplicate does, whichever is first.
    ensures r.triggered ==> r.time == Min(s, tau + s2)
    ensures r.time <= s
    ensures r.triggered && s2 > 0.0 ==> tau < r.time
    ensures tau >= 0.0 && s >= 0.0 && s2 >= 0.0 ==> r.time >= 0.0
  {
    if s <= tau then Speculated(s, false)
    else
      var rem := s - tau;
      Speculated(tau + Min(rem, s2), true)
  }

  /** Effective completion times of a batch of draws, in draw order. */
  function EffTimes(tau: real, ds: seq<ServiceDraw>): (r: seq<real>)
    ensures |r| == |ds|
    ensures forall i :: 0 <= i < |ds| ==> r[i] == EffectiveService(tau, ds[i].raw, ds[i].dup).time
  {
    if ds == [] then []
    else EffTimes(tau, ds[..|ds| - 1]) + [EffectiveService(tau, ds[|ds| - 1].raw, ds[|ds| - 1].dup).time]
  }

  /** Monte Carlo estimate of the speculation-adjusted utilisation, capped at 0.999. */
  function RhoTau(lam: real, tau: real, ds: seq<ServiceDraw>): (r: real)
    ensures r <= RhoCap
    ensures r == RhoCap || r == lam * Mean(EffTimes(tau, ds))
    ensures lam * Mean(EffTimes(tau, ds)) <= RhoCap ==> r == lam * Mean(EffTimes(tau, ds))
  {
    Min(RhoCap, lam * Mean(EffTimes(tau, ds)))
  }

  /** The server's own budget formula: `max(0, beta * (1 - rho))`, with no clamp on `rho`. */
  function ServerBudget(beta: real, rho: real): (b: real)
    ensures b >= 0.0
    ensures beta >= 0.0 && rho <= 1.0 ==> b == beta * (1.0 - rho)
    ensures b == 0.0 || b == beta * (1.0 - rho)
  {
    ProductNonNegative(beta, 1.0 - rho);
    Max(0.0, beta * (1.0 - rho))
  }

  /** Background work done in a tick: the idle time, bounded by the budget scaled to the tick. */
  function DreamTime(idle: real, rate: real, dt: real): (d: real)
    ensures d <= idle
    ensures d <= rate * dt
    ensures d == idle || d == rate * dt
  {
    Min(idle, rate * dt)
  }

  lemma EffTimesNonNegative(tau: real, ds: seq<ServiceDraw>)
    requires tau >= 0.0 && AllNonNegative(ds)
    ensures forall i :: 0 <= i < |ds| ==> EffTimes(tau, ds)[i] >= 0.0
  {
  }

  /** The estimate lies in [0, 0.999] for non-negative rates and samples. */
  lemma RhoTauBounds(lam: real, tau: real, ds: seq<ServiceDraw>)
    requires lam >= 0.0 && tau >= 0.0 && AllNonNegative(ds)
    ensures 0.0 <= RhoTau(lam, tau, ds) <= RhoCap
  {
    EffTimesNonNegative(tau, ds);
    MeanNonNegative(EffTimes(tau, ds));
    assert lam * Mean(EffTimes(tau, ds)) >= 0.0;
  }

  /** For the same draws, a higher arrival rate never lowers the estimate. */
  lemma RhoTauMonotoneInLam(lam1: real, lam2: real, tau: real, ds: seq<ServiceDraw>)
    requires 0.0 <= lam1 <= lam2 && tau >= 0.0 && AllNonNegative(ds)
    ensures RhoTau(lam1, tau, ds) <= RhoTau(lam2, tau, ds)
  {
    EffTimesNonNegative(tau, ds);
    var m := Mean(EffTimes(tau, ds));
    MeanNonNegative(EffTimes(tau, ds));
    assert lam1 * m <= lam2 * m;
  }

  /** Within the cap the server's formula and the scheduler's formula agree. */
  lemma ServerBudgetAgrees(beta: real, rho: real)
    requires rho <= RhoCap
    ensures ServerBudget(beta, rho) == Budget.IdleBudget(beta, rho)
  {
  }

  /** For `beta >= 0` and an estimate in [0, 0.999]: `beta * 0.001 <= budget <= beta`. */
  lemma ServerBudgetBounds(beta: real, rho: real)
    requires beta >= 0.0 && 0.0 <= rho <= RhoCap
    ensures beta * (1.0 - RhoCap) <= ServerBudget(beta, rho) <= beta
  {
    assert beta * (1.0 - rho) <= beta * 1.0;
    assert beta * (1.0 - RhoCap) <= beta * (1.0 - rho);
  }

  /** Lower load, same draws: the idle budget is at least as large. */
  lemma LowerLoadLargerBudget(beta: real, lam1: real, lam2: real, tau: real, ds: seq<ServiceDraw>)
    requires beta >= 0.0 && 0.0 <= lam1 <= lam2 && tau >= 0.0 && AllNonNegative(ds)
    ensures ServerBudget(beta, RhoTau(lam2, tau, ds)) <= ServerBudget(beta, RhoTau(lam1, tau, ds))
  {
    RhoTauMonotoneInLam(lam1, lam2, tau, ds);
    RhoTauBounds(lam1, tau, ds);
    RhoTauBounds(lam2, tau, ds);
    ServerBudgetAgrees(beta, RhoTau(lam1, tau, ds));
    ServerBudgetAgrees(beta, RhoTau(lam2, tau, ds));
    Budget.AntitoneInRho(beta, RhoTau(lam1, tau, ds), RhoTau(lam2, tau, ds));
  }

  /** Outcome of draining a queue: what is left, the unused budget, and the completed jobs. */
  datatype Drained = Drained(queue: seq<real>, idle: real, completed: seq<real>)

  /**
   * Reference definition of the drain loop: serve the head while the budget
   * `p` exceeds `Eps`; a head that fits (ties included) completes, one that
   * does not is reduced by the whole remaining budget.
   */
  function Drain(q: seq<real>, p: real): (r: Drained)
    // A spent budget serves nothing.
    ensures p <= Eps ==> r == Drained(q, p, [])
    ensures |r.completed| <= |q|
    decreases |q|
  {
    if p <= Eps || q == [] then Drained(q, p, [])
    else if q[0] <= p then
      var r := Drain(q[1..], p - q[0]);
      Drained(r.queue, r.idle, [q[0]] + r.completed)
    else Drained([q[0] - p] + q[1..], 0.0, [])
  }

  predicate AllAtLeastZero(s: seq<real>)
  {
    forall i :: 0 <= i < |s| ==> s[i] >= 0.0
  }

  /** Work is conserved: the queue loses exactly the budget that was not left idle. */
  lemma {:induction false} DrainConservesWork(q: seq<real>, p: real)
    ensures Sum(q) - Sum(Drain(q, p).queue) == p - Drain(q, p).idle
  {
    if p <= Eps || q == [] {
    } else if q[0] <= p {
      DrainConservesWork(q[1..], p - q[0]);
    } else {
      assert ([q[0] - p] + q[1..])[1..] == q[1..];
    }
  }

  /** With a non-negative budget and queue, the idle time lies in [0, p]. */
  lemma {:induction false} DrainIdleBounds(q: seq<real>, p: real)
    requires p >= 0.0 && AllAtLeastZero(q)
    ensures 0.0 <= Drain(q, p).idle <= p
  {
    if p <= Eps || q == [] {
    } else if q[0] <= p {
      DrainIdleBounds(q[1..], p - q[0]);
    }
  }

  /** On exit either the queue is empty or the budget is spent down to `Eps`. */
  lemma {:induction false} DrainStops(q: seq<real>, p: real)
    ensures Drain(q, p).queue == [] || Drain(q, p).idle <= Eps
  {
    if p <= Eps || q == [] {
    } else if q[0] <= p {
      DrainStops(q[1..], p - q[0]);
    }
  }

  /** Every job is either completed or still queued. */
  lemma {:induction false} DrainCounts(q: seq<real>, p: real)
    ensures |Drain(q, p).completed| + |Drain(q, p).queue| == |q|
  {
    if p <= Eps || q == [] {
    } else if q[0] <= p {
      DrainCounts(q[1..], p - q[0]);
    }
  }

  /** Draining keeps entries non-negative, and completed jobs are non-negative too. */
  lemma {:induction false} DrainNonNegative(q: seq<real>, p: real)
    requires AllAtLeastZero(q)
    ensures AllAtLeastZero(Drain(q, p).queue)
    ensures AllAtLeastZero(Drain(q, p).completed)
  {
    if p <= Eps || q == [] {
    } else if q[0] <= p {
      DrainNonNegative(q[1..], p - q[0]);
    } else {
      assert forall i :: 1 <= i < |q| ==> ([q[0] - p] + q[1..])[i] == q[i];
    }
  }

  /** The budget left when job `j` reaches the head. */
  function Left(q: seq<real>, p: real, j: nat): real
    requires j <= |q|
  {
    p - Sum(q[..j])
  }

  lemma LeftStep(q: seq<real>, p: real, j: nat)
    requires 0 < |q| && j < |q|
    ensures Left(q, p, j + 1) == Left(q[1..], p - q[0], j)
  {
    assert q[..j + 1] == [q[0]] + q[1..][..j];
    assert ([q[0]] + q[1..][..j])[1..] == q[1..][..j];
  }

  /** The completed jobs are exactly a prefix of the queue. */
  lemma {:induction false} DrainCompletesPrefix(q: seq<real>, p: real)
    ensures |Drain(q, p).completed| <= |q|
    ensures Drain(q, p).completed == q[..|Drain(q, p).completed|]
  {
    if p <= Eps || q == [] {
      assert q[..0] == [];
    } else if q[0] <= p {
      var r' := Drain(q[1..], p - q[0]);
      DrainCompletesPrefix(q[1..], p - q[0]);
      var k := |r'.completed| + 1;
      assert q[..k] == [q[0]] + q[1..][..k - 1];
    } else {
      assert q[..0] == [];
    }
  }

  /** Each completed job fitted in the budget left when it reached the head, ties included. */
  lemma {:induction false} DrainCompletedFit(q: seq<real>, p: real)
    ensures |Drain(q, p).completed| <= |q|
    ensures forall j :: 0 <= j < |Drain(q, p).completed| ==> Eps < Left(q, p, j) && q[j] <= Left(q, p, j)
  {
    DrainCounts(q, p);
    if p <= Eps || q == [] {
    } else if q[0] <= p {
      var r' := Drain(q[1..], p - q[0]);
      DrainCompletedFit(q[1..], p - q[0]);
      forall j | 0 <= j < |r'.completed| + 1
        ensures Eps < Left(q, p, j) && q[j] <= Left(q, p, j)
      {
        if j > 0 {
          LeftStep(q, p, j - 1);
        } else {
          assert q[..0] == [];
        }
      }
    }
  }

  /**
   * What follows the completed prefix of `k` jobs: either the rest of the
   * queue is untouched and the left-over budget is idle (spent down to `Eps`
   * unless the queue emptied), or the next job is served partially, reduced by
   * exactly the remaining budget, with every job behind it untouched.
   */
  ghost predicate DrainTail(q: seq<real>, p: real, k: nat, r: Drained)
    requires k <= |q|
  {
    || (r.queue == q[k..] && r.idle == Left(q, p, k) && (k < |q| ==> r.idle <= Eps))
    || (k < |q| && Eps < Left(q, p, k) < q[k] && r.idle == 0.0
        && r.queue == [q[k] - Left(q, p, k)] + q[k + 1..])
  }

  lemma {:induction false} DrainLeavesTail(q: seq<real>, p: real)
    ensures |Drain(q, p).completed| <= |q|
    ensures DrainTail(q, p, |Drain(q, p).completed|, Drain(q, p))
  {
    DrainCounts(q, p);
    var r := Drain(q, p);
    if p <= Eps || q == [] {
      assert q[..0] == [] && q[0..] == q;
    } else if q[0] <= p {
      var r' := Drain(q[1..], p - q[0]);
      var k := |r'.completed| + 1;
      DrainLeavesTail(q[1..], p - q[0]);
      assert DrainTail(q[1..], p - q[0], k - 1, r');
      LeftStep(q, p, k - 1);
      assert q[k..] == q[1..][k - 1..];
      if k < |q| {
        assert q[k + 1..] == q[1..][k..];
      }
    } else {
      assert q[..0] == [] && q[1..] == q[0 + 1..];
    }
  }

  /** A drain in progress: `done` already completed, `q` still queued with budget `p` left. */
  ghost function Resume(done: seq<real>, q: seq<real>, p: real): Drained
  {
    var r := Drain(q, p);
    Drained(r.queue, r.idle, done + r.completed)
  }

  /** Completing the head moves it to `done` and charges its time to the budget. */
  lemma ResumeHead(done: seq<real>, q: seq<real>, p: real)
    requires p > Eps && q != [] && q[0] <= p
    ensures Resume(done, q, p) == Resume(done + [q[0]], q[1..], p - q[0])
  {
    var rest := Drain(q[1..], p - q[0]);
    assert done + ([q[0]] + rest.completed) == (done + [q[0]]) + rest.completed;
  }

  /** A head that does not fit absorbs the whole remaining budget. */
  lemma ResumePartial(done: seq<real>, q: seq<real>, p: real)
    requires p > Eps && q != [] && q[0] > p
    ensures Resume(done, q, p) == Resume(done, q[0 := q[0] - p], 0.0)
  {
    assert q[0 := q[0] - p] == [q[0] - p] + q[1..];
    assert done + [] == done;
  }

  /** Once the budget is spent or the queue is empty, the drain is over. */
  lemma ResumeStop(done: seq<real>, q: seq<real>, p: real)
    requires p <= Eps || q == []
    ensures Resume(done, q, p) == Drained(q, p, done)
  {
    assert done + [] == done;
  }

  /** Draining a non-negative queue keeps both the queue and the latency log non-negative, and loses no job. */
  lemma ServeKeepsValid(q: seq<real>, p: real, lat: seq<real>)
    requires AllAtLeastZero(q) && AllAtLeastZero(lat)
    ensures var d := Drain(q, p);
      && AllAtLeastZero(d.queue) && AllAtLeastZero(lat + d.completed)
      && |d.completed| + |d.queue| == |q|
  {
    var d := Drain(q, p);
    DrainNonNegative(q, p);
    DrainCounts(q, p);
    forall i | 0 <= i < |lat + d.completed|
      ensures (lat + d.completed)[i] >= 0.0
    {
      if i >= |lat| {
        assert (lat + d.completed)[i] == d.completed[i - |lat|];
      }
    }
  }

  /** Counters visible in a metrics snapshot (percentiles and estimates are not modelled). */
  datatype Snapshot = Snapshot(time: real, completions: nat, qLen: nat, dreamCpuSecs: real, dreamEvents: nat)

  class SpeculativeServer {
    const mu: real
    const lam: real
    const tau: real
    const beta: real

    /** Remaining service times of pending jobs, head first. */
    var queue: seq<real>
    var time: real
    var latencies: seq<real>
    var completions: nat
    var dreamCpuSecs: real
    var dreamEvents: nat

    /** Jobs ever appended to the queue. */
    ghost var arrivals: nat
    /** Idle time summed over all ticks. */
    ghost var idleTime: real
    /** Number of `Step` calls. */
    ghost var ticks: nat

    ghost predicate Valid()
      reads this
    {
      && mu > 0.0 && lam >= 0.0 && tau >= 0.0
      && |latencies| == completions
      && |queue| + completions == arrivals
      && AllAtLeastZero(queue)
      && AllAtLeastZero(latencies)
      && dreamCpuSecs >= 0.0
      && dreamEvents <= ticks
    }

    /** Background work never exceeded the idle time it ran in. */
    ghost predicate DreamWithinIdle()
      reads this
    {
      dreamCpuSecs <= idleTime
    }

    constructor (mu: real, lam: real, tau: real, beta: real := 0.2)
      requires mu > 0.0 && lam >= 0.0 && tau >= 0.0
      ensures Valid() && DreamWithinIdle()
      ensures this.mu == mu && this.lam == lam && this.tau == tau && this.beta == beta
      ensures queue == [] && time == 0.0 && latencies == [] && completions == 0
      ensures dreamCpuSecs == 0.0 && dreamEvents == 0 && arrivals == 0
      ensures idleTime == 0.0 && ticks == 0
    {
      this.mu, this.lam, this.tau, this.beta := mu, lam, tau, beta;
      queue, time, latencies, completions := [], 0.0, [], 0;
      dreamCpuSecs, dreamEvents := 0.0, 0;
      arrivals, idleTime, ticks := 0, 0.0, 0;
    }

    /** Monte Carlo estimate of rho_tau = lam * E[effective service], from the given batch. */
    method EstimateRhoTau(draws: seq<ServiceDraw>) returns (rho: real)
      requires |draws| > 0
      ensures rho == RhoTau(lam, tau, draws)
      ensures lam >= 0.0 && tau >= 0.0 && AllNonNegative(draws) ==> 0.0 <= rho <= RhoCap
    {
      var eff: seq<real> := [];
      for i := 0 to |draws|
        invariant eff == EffTimes(tau, draws[..i])
      {
        var e := EffectiveService(tau, draws[i].raw, draws[i].dup);
        assert draws[..i + 1][..i] == draws[..i];
        eff := eff + [e.time];
      }
      assert draws[..|draws|] == draws;
      var est := Mean(eff);
      rho := Min(RhoCap, lam * est);
      if lam >= 0.0 && tau >= 0.0 && AllNonNegative(draws) {
        RhoTauBounds(lam, tau, draws);
      }
    }

    /** Idle budget rate for this server, from a fresh estimate over the given batch. */
    method IdleBudget(draws: seq<ServiceDraw>) returns (b: real)
      requires |draws| > 0
      ensures b == ServerBudget(beta, RhoTau(lam, tau, draws))
      ensures b == Budget.IdleBudget(beta, RhoTau(lam, tau, draws))
      ensures lam >= 0.0 && tau >= 0.0 && beta >= 0.0 && AllNonNegative(draws) ==>
                beta * (1.0 - RhoCap) <= b <= beta
    {
      var rho := EstimateRhoTau(draws);
      b := Max(0.0, beta * (1.0 - rho));
      assert rho <= RhoCap;
      ServerBudgetAgrees(beta, rho);
      if lam >= 0.0 && tau >= 0.0 && beta >= 0.0 && AllNonNegative(draws) {
        ServerBudgetBounds(beta, rho);
      }
    }

    /** Arrival phase: each arrival's effective time is appended to the tail, in draw order. */
    method Arrive(draws: seq<ServiceDraw>)
      requires Valid() && AllNonNegative(draws)
      modifies this
      ensures Valid()
      ensures queue == old(queue) + EffTimes(tau, draws)
      ensures queue[..|old(queue)|] == old(queue)
      ensures arrivals == old(arrivals) + |draws|
      ensures latencies == old(latencies) && completions == old(completions)
      ensures time == old(time) && dreamCpuSecs == old(dreamCpuSecs) && dreamEvents == old(dreamEvents)
      ensures idleTime == old(idleTime) && ticks == old(ticks)
    {
      EffTimesNonNegative(tau, draws);
      for i := 0 to |draws|
        invariant Valid()
        invariant queue == old(queue) + EffTimes(tau, draws[..i])
        invariant arrivals == old(arrivals) + i
        invariant latencies == old(latencies) && completions == old(completions)
        invariant time == old(time) && dreamCpuSecs == old(dreamCpuSecs) && dreamEvents == old(dreamEvents)
        invariant idleTime == old(idleTime) && ticks == old(ticks)
      {
        var s := draws[i].raw;
        var effS := EffectiveService(tau, s, draws[i].dup);
        assert draws[..i + 1][..i] == draws[..i];
        queue := queue + [effS.time];
        arrivals := arrivals + 1;
      }
      assert draws[..|draws|] == draws;
    }

    /** Drain phase: serve the queue with budget `dt`; returns the unused (idle) budget. */
    method Serve(dt: real) returns (idle: real)
      requires Valid()
      modifies this
      ensures Valid()
      ensures var d := Drain(old(queue), dt);
        && queue == d.queue && idle == d.idle
        && latencies == old(latencies) + d.completed
        && completions == old(completions) + |d.completed|
      ensures arrivals == old(arrivals)
      ensures time == old(time) && dreamCpuSecs == old(dreamCpuSecs) && dreamEvents == old(dreamEvents)
      ensures idleTime == old(idleTime) && ticks == old(ticks)
    {
      var q, procTime := queue, dt;
      var done: seq<real> := [];
      while procTime > Eps && |q| > 0
        invariant Drain(old(queue), dt) == Resume(done, q, procTime)
        modifies {}
        decreases |q| + (if procTime > Eps then 1 else 0)
      {
        var job := q[0];
        if job <= procTime {
          ResumeHead(done, q, procTime);
          procTime := procTime - job;
          done := done + [job];
          q := q[1..];
        } else {
          ResumePartial(done, q, procTime);
          q := q[0 := job - procTime];
          procTime := 0.0;
        }
      }
      ResumeStop(done, q, procTime);
      ServeKeepsValid(queue, dt, latencies);
      queue, latencies, completions := q, latencies + done, completions + |done|;
      idle := procTime;
    }

    /**
     * Advance simulated time by `dt`: arrivals, drain, then background work
     * `min(idle, budget * dt)`, which is recorded only when positive.
     * `dt` is not checked for positivity.
     */
    method Step(dt: real, arrivalDraws: seq<ServiceDraw>, budgetDraws: seq<ServiceDraw>)
      requires Valid() && AllNonNegative(arrivalDraws) && |budgetDraws| > 0
      // `rng.poisson(lam * dt)` rejects a negative mean, and a zero mean draws no arrival.
      requires lam * dt >= 0.0
      requires lam * dt == 0.0 ==> arrivalDraws == []
      modifies this
      ensures Valid()
      ensures var d := Drain(old(queue) + EffTimes(tau, arrivalDraws), dt);
        var dream := DreamTime(d.idle, ServerBudget(beta, RhoTau(lam, tau, budgetDraws)), dt);
        && queue == d.queue
        && latencies == old(latencies) + d.completed
        && completions == old(completions) + |d.completed|
        && idleTime == old(idleTime) + d.idle
        && dreamCpuSecs == old(dreamCpuSecs) + (if dream > 0.0 then dream else 0.0)
        && dreamEvents == old(dreamEvents) + (if dream > 0.0 then 1 else 0)
      ensures arrivals == old(arrivals) + |arrivalDraws|
      ensures time == old(time) + dt
      ensures ticks == old(ticks) + 1
      ensures dt >= 0.0 ==> 0.0 <= idleTime - old(idleTime) <= dt
      ensures dt >= 0.0 ==> dreamCpuSecs - old(dreamCpuSecs) <= idleTime - old(idleTime)
      ensures dt >= 0.0 && old(DreamWithinIdle()) ==> DreamWithinIdle()
    {
      Arrive(arrivalDraws);
      ghost var q := queue;
      assert q == old(queue) + EffTimes(tau, arrivalDraws);
      var idle := Serve(dt);
      ghost var d := Drain(q, dt);
      assert idle == d.idle;
      if dt >= 0.0 {
        DrainIdleBounds(q, dt);
      }
      var rate := IdleBudget(budgetDraws);
      var dreamTime := DreamTime(idle, rate, dt);
      if dreamTime > 0.0 {
        dreamCpuSecs := dreamCpuSecs + dreamTime;
        dreamEvents := dreamEvents + 1;
      }
      time := time + dt;
      idleTime := idleTime + idle;
      ticks := ticks + 1;
    }

    /** The counters of a metrics snapshot; reading them changes nothing. */
    function Metrics(): (m: Snapshot)
      reads this
      requires Valid()
      ensures m.completions + m.qLen == arrivals
      ensures m.completions == |latencies|
      ensures m.dreamCpuSecs >= 0.0 && m.dreamEvents <= ticks
    {
      Snapshot(time, completions, |queue|, dreamCpuSecs, dreamEvents)
    }
  }
}
