/**
 * The memoryless baseline `ReactiveAgent`: it asks for a new job exactly when
 * the server is up and the queue is below its hard-wired bound of 10.
 */
module ReactiveAgent {
  import Env

  /** The queue bound the agent assumes; it matches `DreamEnv`'s default `max_queue`. */
  const AssumedMaxQueue: int := 10

  /** Action 1 ("add a job") when the server is up and the queue has room, action 0 otherwise. */
  function Act(state: Env.Obs): (a: int)
    ensures a == 0 || a == 1
    ensures a == 1 <==> state.serverStatus == 1 && state.queueLen < AssumedMaxQueue
    ensures state.serverStatus != 1 ==> a == 0
    ensures state.queueLen >= AssumedMaxQueue ==> a == 0
  {
    if state.serverStatus == 1 && state.queueLen < AssumedMaxQueue then 1 else 0
  }

  /**
   * Against a `DreamEnv` whose queue holds at least 10 jobs (the default holds
   * exactly 10), a request by this agent is always admitted and never dropped.
   */
  lemma RequestsAreAdmitted(env: Env.DreamEnv)
    requires env.Valid() && env.maxQueue >= AssumedMaxQueue
    ensures Act(env.GetObs()) == 1 ==> Env.Admits(1, env.queueLen, env.maxQueue)
    ensures !Env.Drops(Act(env.GetObs()), env.queueLen, env.maxQueue)
  {
    var o := env.GetObs();
    assert o.queueLen == env.queueLen;
  }

  /** With a smaller queue the agent can ask for a job the environment then drops. */
  lemma SmallQueueCanDrop()
    ensures var o := Env.Obs(5, 1);
      Act(o) == 1 && Env.Drops(Act(o), o.queueLen, 5)
  {
  }
}
