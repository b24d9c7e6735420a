/**
 * The tick loop `DreamScheduler.run`: reset the environment once, then for
 * each tick let the bandit select an action, step the environment with it,
 * feed the reward back to the bandit and record the tick in the history.
 *
 * The environment is abstract: its state is a value of type `S` threaded
 * through `reset` and `step`, its observations have type `O` and the metrics
 * map each step returns has type `I`. The bandit is the concrete
 * `EpsilonGreedyBandit`, whose random draws for tick `t` are `explore[t]` and
 * `arms[t]`.
 */
module DreamScheduler {
  import opened Stats
  import Bandit

  /** What one `env.step(a, dt=dt)` returns: the new environment, then `(next_state, reward, done, metrics)`. */
  datatype Transition<S, O, I> = Transition(env: S, obs: O, reward: real, done: bool, info: I)

  /** One history entry: the step's metrics together with the action and the reward. */
  datatype Entry<I> = Entry(info: I, action: int, reward: real)

  /** The `agent.update` calls a history stands for, in tick order. */
  function Pulls<I>(history: seq<Entry<I>>): (p: seq<Bandit.Pull>)
    ensures |p| == |history|
    ensures forall t :: 0 <= t < |history| ==> p[t] == Bandit.Pull(history[t].action, history[t].reward)
  {
    seq(|history|, t requires 0 <= t < |history| => Bandit.Pull(history[t].action, history[t].reward))
  }

  /** Appending a tick to the history appends its pull to the bandit log. */
  lemma PullsSnoc<I>(log0: seq<Bandit.Pull>, history: seq<Entry<I>>, e: Entry<I>)
    ensures log0 + Pulls(history + [e]) == (log0 + Pulls(history)) + [Bandit.Pull(e.action, e.reward)]
  {
    assert forall t :: 0 <= t < |history| ==> (history + [e])[t] == history[t];
    assert Pulls(history + [e]) == Pulls(history) + [Bandit.Pull(e.action, e.reward)];
  }

  /**
   * Run `episodes` ticks. `envs[t]` is the environment before tick `t`; the
   * `done` flag is ignored, so every tick runs.
   */
  method Run<S, O, I>(agent: Bandit.EpsilonGreedyBandit, env0: S, reset: S -> (S, O),
                      step: (S, int, real) -> Transition<S, O, I>,
                      explore: seq<bool>, arms: seq<int>, episodes: nat := 50, dt: real := 1.0)
    returns (history: seq<Entry<I>>, ghost envs: seq<S>)
    requires agent.Valid() && agent.n > 0
    requires |explore| >= episodes && |arms| >= episodes
    requires forall t :: 0 <= t < episodes && explore[t] ==> 0 <= arms[t] < agent.n
    modifies agent, agent.counts, agent.values
    ensures agent.Valid()
    ensures |history| == episodes && |envs| == episodes + 1
    ensures envs[0] == reset(env0).0
    ensures Recorded(old(agent.log), agent.n, step, dt, explore, arms, envs, history)
    ensures agent.log == old(agent.log) + Pulls(history)
  {
    ghost var log0 := agent.log;
    history := [];
    var start := reset(env0);
    var env := start.0;
    var state := start.1;
    envs := [env];
    for t := 0 to episodes
      invariant agent.Valid()
      invariant |history| == t
      invariant agent.log == log0 + Pulls(history)
      invariant Recorded(log0, agent.n, step, dt, explore, arms, envs, history)
      invariant |envs| == t + 1 && envs[t] == env
      invariant envs[0] == reset(env0).0
    {
      var a := agent.Select(explore[t], arms[t]);
      var tr := step(env, a, dt);
      agent.Update(a, tr.reward);
      var e := Entry(tr.info, a, tr.reward);
      env := tr.env;
      RecordedSnoc(log0, agent.n, step, dt, explore, arms, envs, history, e, env);
      PullsSnoc(log0, history, e);
      history := history + [e];
      envs := envs + [env];
    }
  }

  /**
   * `history` and `envs` are the first `|history|` ticks of a run whose bandit
   * log started as `log0` with `n` arms.
   */
  ghost predicate Recorded<S, O, I>(log0: seq<Bandit.Pull>, n: nat, step: (S, int, real) -> Transition<S, O, I>,
                                    dt: real, explore: seq<bool>, arms: seq<int>,
                                    envs: seq<S>, history: seq<Entry<I>>)
  {
    && |envs| == |history| + 1 && |history| <= |explore| && |history| <= |arms|
    && (forall k :: 0 <= k < |history| ==>
          var tr := step(envs[k], history[k].action, dt);
          envs[k + 1] == tr.env && history[k].reward == tr.reward && history[k].info == tr.info)
    && (forall k :: 0 <= k < |history| ==> 0 <= history[k].action < n)
    && (forall k :: 0 <= k < |history| && explore[k] ==> history[k].action == arms[k])
    && (forall k :: 0 <= k < |history| && !explore[k] ==>
          history[k].action == ArgMax(Bandit.MeanValues(log0 + Pulls(history[..k]), n)))
  }

  /**
   * `Recorded` unfolded, as a reading aid for the contract of `Run`; it adds
   * no fact beyond that predicate. What a recorded run says about each tick `t`: the environment moved by
   * `step` with the entry's action, the entry holds that step's reward and
   * metrics, and the action is the supplied random arm when exploring and the
   * first arm of maximal mean reward over the log so far otherwise.
   */
  lemma RecordedFacts<S, O, I>(log0: seq<Bandit.Pull>, n: nat, step: (S, int, real) -> Transition<S, O, I>,
                               dt: real, explore: seq<bool>, arms: seq<int>,
                               envs: seq<S>, history: seq<Entry<I>>)
    requires n > 0
    requires Recorded(log0, n, step, dt, explore, arms, envs, history)
    ensures forall t :: 0 <= t < |history| ==>
              var tr := step(envs[t], history[t].action, dt);
              envs[t + 1] == tr.env && history[t].reward == tr.reward && history[t].info == tr.info
    ensures forall t :: 0 <= t < |history| ==> 0 <= history[t].action < n
    ensures forall t :: 0 <= t < |history| && explore[t] ==> history[t].action == arms[t]
    ensures forall t :: 0 <= t < |history| && !explore[t] ==>
              history[t].action == ArgMax(Bandit.MeanValues(log0 + Pulls(history[..t]), n))
  {
  }

  /** One more tick, taken as the loop body of `Run` takes it, extends a recorded run by one entry. */
  lemma RecordedSnoc<S, O, I>(log0: seq<Bandit.Pull>, n: nat, step: (S, int, real) -> Transition<S, O, I>,
                              dt: real, explore: seq<bool>, arms: seq<int>,
                              envs: seq<S>, history: seq<Entry<I>>, e: Entry<I>, env': S)
    requires n > 0
    requires Recorded(log0, n, step, dt, explore, arms, envs, history)
    requires |history| < |explore| && |history| < |arms|
    requires var t := |history|;
      var tr := step(envs[t], e.action, dt);
      && env' == tr.env && e.reward == tr.reward && e.info == tr.info
      && 0 <= e.action < n
      && (explore[t] ==> e.action == arms[t])
      && (!explore[t] ==> e.action == ArgMax(Bandit.MeanValues(log0 + Pulls(history), n)))
    ensures Recorded(log0, n, step, dt, explore, arms, envs + [env'], history + [e])
  {
    var history', envs' := history + [e], envs + [env'];
    forall k | 0 <= k < |history'|
      ensures var tr := step(envs'[k], history'[k].action, dt);
        envs'[k + 1] == tr.env && history'[k].reward == tr.reward && history'[k].info == tr.info
      ensures 0 <= history'[k].action < n
      ensures explore[k] ==> history'[k].action == arms[k]
      ensures !explore[k] ==> history'[k].action == ArgMax(Bandit.MeanValues(log0 + Pulls(history'[..k]), n))
    {
      assert envs'[k] == envs[k];
      if k < |history| {
        assert history'[k] == history[k] && envs'[k + 1] == envs[k + 1];
        assert history'[..k] == history[..k];
      } else {
        assert history'[k] == e && envs'[k + 1] == env';
        assert history'[..k] == history;
      }
    }
  }

  /** After a run the pull counts add up to the calls made before plus one per tick. */
  lemma CountsAfterRun<I>(agent: Bandit.EpsilonGreedyBandit, log0: seq<Bandit.Pull>, history: seq<Entry<I>>)
    requires agent.Valid() && agent.log == log0 + Pulls(history)
    ensures SumInt(agent.counts[..]) == |log0| + |history|
  {
  }
}
