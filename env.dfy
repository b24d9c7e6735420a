/**
 * The discrete failure/repair environment `DreamEnv`.
 *
 * Each step may admit one job (action 1) into a bounded queue or drop it when
 * the queue is full, then the server may fail and, when down, may be
 * repaired, and finally an up server processes one queued job. Completed
 * down intervals are logged for the mean time to recovery.
 *
 * The two `random.random() < p` draws are inputs: `failDraw` stands for
 * "the failure draw fell below fail_prob" and `repairDraw` for "the repair
 * draw fell below repair_prob"; each is consulted only when the source
 * would draw it.
 */
module Env {

  datatype Option<T> = None | Some(value: T)

  /** Steps in an episode. */
  const EpisodeLength: int := 50

  /** Observation `[queue_length, server_status]`. */
  datatype Obs = Obs(queueLen: int, serverStatus: int)

  datatype StepResult = StepResult(obs: Obs, reward: int, done: bool)

  /** Action 1 on a queue that has room: the job is admitted. */
  predicate Admits(action: int, queueLen: int, maxQueue: int)
  {
    action == 1 && queueLen < maxQueue
  }

  /** Action 1 on a full queue: the job is dropped. */
  predicate Drops(action: int, queueLen: int, maxQueue: int)
  {
    action == 1 && queueLen >= maxQueue
  }

  /** Server status after the failure draw and then the repair draw. */
  function ServerAfter(up: bool, failDraw: bool, repairDraw: bool): (r: bool)
    ensures !up ==> (r <==> repairDraw)
    ensures up ==> (r <==> !failDraw || repairDraw)
  {
    var afterFail := if up && failDraw then false else up;
    if !afterFail && repairDraw then true else afterFail
  }

  class DreamEnv {
    const maxQueue: nat
    const failProb: real
    const repairProb: real
    const actionSpace: seq<int>

    var queueLen: int
    var serverUp: bool
    var jobsProcessed: nat
    var jobsDropped: nat
    var steps: nat
    var downtimeStart: Option<int>
    /** Durations of completed down intervals; kept across resets. */
    var serverDownTime: seq<int>

    /** Jobs admitted since the last reset. */
    ghost var admitted: nat
    /** Action-1 steps since the last reset. */
    ghost var addRequests: nat

    /** Every logged down interval lasted at least one step. */
    ghost predicate LogValid()
      reads this
    {
      forall i :: 0 <= i < |serverDownTime| ==> serverDownTime[i] >= 1
    }

    ghost predicate Valid()
      reads this
    {
      && 0 <= queueLen <= maxQueue
      && jobsProcessed + queueLen == admitted
      && admitted + jobsDropped == addRequests
      && addRequests <= steps && jobsProcessed <= steps
      && (serverUp <==> downtimeStart.None?)
      && (downtimeStart.Some? ==> 0 <= downtimeStart.value < steps)
      && LogValid()
    }

    constructor (maxQueue: nat := 10, failProb: real := 0.05, repairProb: real := 0.2)
      ensures Valid()
      ensures this.maxQueue == maxQueue && this.failProb == failProb && this.repairProb == repairProb
      ensures actionSpace == [0, 1]
      ensures serverDownTime == [] && downtimeStart == None
      ensures queueLen == 0 && serverUp && jobsProcessed == 0 && jobsDropped == 0 && steps == 0
    {
      this.maxQueue, this.failProb, this.repairProb := maxQueue, failProb, repairProb;
      actionSpace := [0, 1];
      serverDownTime := [];
      downtimeStart := None;
      new;
      var _ := Reset();
    }

    /** `[queue_length, int(server_up)]`. */
    function GetObs(): (o: Obs)
      reads this
      ensures o.queueLen == queueLen
      ensures (o.serverStatus == 1 <==> serverUp) && (o.serverStatus == 0 <==> !serverUp)
    {
      Obs(queueLen, if serverUp then 1 else 0)
    }

    /** Start a new episode; the downtime log is left as it is. */
    method Reset() returns (obs: Obs)
      requires LogValid()
      modifies this
      ensures Valid()
      ensures queueLen == 0 && serverUp && jobsProcessed == 0 && jobsDropped == 0 && steps == 0
      ensures downtimeStart == None && serverDownTime == old(serverDownTime)
      ensures admitted == 0 && addRequests == 0
      ensures obs == Obs(0, 1)
    {
      queueLen := 0;
      serverUp := true;
      jobsProcessed := 0;
      jobsDropped := 0;
      steps := 0;
      downtimeStart := None;
      admitted, addRequests := 0, 0;
      obs := GetObs();
    }

    /** One tick: admission or drop, failure and repair draws, downtime logging, service. */
    method Step(action: int, failDraw: bool, repairDraw: bool) returns (r: StepResult)
      requires Valid()
      modifies this
      ensures Valid()
      ensures var mid := if Admits(action, old(queueLen), maxQueue) then old(queueLen) + 1 else old(queueLen);
        var dropped := Drops(action, old(queueLen), maxQueue);
        var served := serverUp && mid > 0;
        && serverUp == ServerAfter(old(serverUp), failDraw, repairDraw)
        && queueLen == (if served then mid - 1 else mid)
        && jobsProcessed == old(jobsProcessed) + (if served then 1 else 0)
        && jobsDropped == old(jobsDropped) + (if dropped then 1 else 0)
        && r.reward == (if served then 1 else 0) - (if dropped then 1 else 0)
      ensures action != 1 ==> jobsDropped == old(jobsDropped)
      ensures -1 <= r.reward <= 1
      ensures admitted == old(admitted) + (if Admits(action, old(queueLen), maxQueue) then 1 else 0)
      ensures addRequests == old(addRequests) + (if action == 1 then 1 else 0)
      ensures steps == old(steps) + 1 && (r.done <==> steps >= EpisodeLength)
      ensures r.obs == GetObs()
      // Downtime logging.
      ensures old(serverUp) && !serverUp ==>
                downtimeStart == Some(old(steps)) && serverDownTime == old(serverDownTime)
      ensures !old(serverUp) && serverUp ==>
                downtimeStart == None
                && serverDownTime == old(serverDownTime) + [old(steps) - old(downtimeStart).value]
      ensures old(serverUp) == serverUp ==>
                downtimeStart == old(downtimeStart) && serverDownTime == old(serverDownTime)
      ensures old(serverUp) && failDraw && repairDraw ==> serverUp && serverDownTime == old(serverDownTime)
    {
      var dropped := AdmitOrDrop(action);
      UpdateServer(failDraw, repairDraw);
      var served := Process();
      var reward := (if served then 1 else 0) - (if dropped then 1 else 0);
      steps := steps + 1;
      var done := steps >= EpisodeLength;
      r := StepResult(GetObs(), reward, done);
    }

    /** Arrival phase of `Step`: action 1 admits a job if there is room and drops it otherwise. */
    method AdmitOrDrop(action: int) returns (dropped: bool)
      requires Valid()
      modifies this
      ensures dropped == Drops(action, old(queueLen), maxQueue)
      ensures queueLen == if Admits(action, old(queueLen), maxQueue) then old(queueLen) + 1 else old(queueLen)
      ensures 0 <= queueLen <= maxQueue
      ensures jobsDropped == old(jobsDropped) + (if dropped then 1 else 0)
      ensures admitted == old(admitted) + (if Admits(action, old(queueLen), maxQueue) then 1 else 0)
      ensures addRequests == old(addRequests) + (if action == 1 then 1 else 0)
      ensures jobsProcessed + queueLen == admitted && admitted + jobsDropped == addRequests
      ensures serverUp == old(serverUp) && downtimeStart == old(downtimeStart)
      ensures serverDownTime == old(serverDownTime)
      ensures jobsProcessed == old(jobsProcessed) && steps == old(steps)
    {
      dropped := false;
      if action == 1 {
        if queueLen < maxQueue {
          queueLen := queueLen + 1;
          admitted := admitted + 1;
        } else {
          // Queue overflow: the job is dropped.
          jobsDropped := jobsDropped + 1;
          dropped := true;
        }
        addRequests := addRequests + 1;
      }
    }

    /** Failure and repair draws of `Step`, with the downtime bookkeeping. */
    method UpdateServer(failDraw: bool, repairDraw: bool)
      requires (serverUp <==> downtimeStart.None?)
      requires (downtimeStart.Some? ==> 0 <= downtimeStart.value < steps)
      requires LogValid()
      modifies this
      ensures serverUp == ServerAfter(old(serverUp), failDraw, repairDraw)
      ensures (serverUp <==> downtimeStart.None?)
      ensures (downtimeStart.Some? ==> 0 <= downtimeStart.value <= steps)
      ensures LogValid()
      ensures old(serverUp) && !serverUp ==>
                downtimeStart == Some(old(steps)) && serverDownTime == old(serverDownTime)
      ensures !old(serverUp) && serverUp ==>
                downtimeStart == None
                && serverDownTime == old(serverDownTime) + [old(steps) - old(downtimeStart).value]
      ensures old(serverUp) == serverUp ==>
                downtimeStart == old(downtimeStart) && serverDownTime == old(serverDownTime)
      ensures queueLen == old(queueLen) && jobsProcessed == old(jobsProcessed)
      ensures jobsDropped == old(jobsDropped) && steps == old(steps)
      ensures admitted == old(admitted) && addRequests == old(addRequests)
    {
      var prevServerStatus := serverUp;
      if serverUp && failDraw {
        serverUp := false;
      }
      if !serverUp && repairDraw {
        serverUp := true;
      }

      if prevServerStatus && !serverUp {
        // The server just failed.
        downtimeStart := Some(steps);
      } else if !prevServerStatus && serverUp && downtimeStart.Some? {
        // The server just recovered.
        var downtimeDuration := steps - downtimeStart.value;
        serverDownTime := serverDownTime + [downtimeDuration];
        downtimeStart := None;
      }
    }

    /** Service phase of `Step`: an up server processes one queued job. */
    method Process() returns (served: bool)
      modifies this
      ensures served == (old(serverUp) && old(queueLen) > 0)
      ensures queueLen == if served then old(queueLen) - 1 else old(queueLen)
      ensures jobsProcessed == old(jobsProcessed) + (if served then 1 else 0)
      ensures serverUp == old(serverUp) && downtimeStart == old(downtimeStart)
      ensures serverDownTime == old(serverDownTime)
      ensures jobsDropped == old(jobsDropped) && steps == old(steps)
      ensures admitted == old(admitted) && addRequests == old(addRequests)
    {
      served := false;
      if serverUp && queueLen > 0 {
        queueLen := queueLen - 1;
        jobsProcessed := jobsProcessed + 1;
        served := true;
      }
    }
  }
}
