/**
 * The tabular Q-learning agent `QLearningAgent` for `DreamEnv`: a Q-table
 * indexed by (queue length, server status, action), updated one cell at a
 * time, and an exploration rate that decays toward a floor.
 *
 * The exploration coin and `random.choice` are inputs: `explore` stands for
 * "the uniform draw fell below epsilon" and `choice` for the position that
 * `random.choice(action_space)` would pick.
 */
module QAgent {
  import opened Stats
  import Env

  /** `current + lr * (target - current)`: one step of the Q-learning update toward `target`. */
  function QUpdate(current: real, lr: real, target: real): (r: real)
    ensures lr == 0.0 ==> r == current
    ensures lr == 1.0 ==> r == target
    ensures 0.0 <= lr <= 1.0 ==> Min(current, target) <= r <= Max(current, target)
  {
    InterpolationBounds(current, lr, target);
    current + lr * (target - current)
  }

  lemma InterpolationBounds(current: real, lr: real, target: real)
    ensures 0.0 <= lr <= 1.0 ==>
              Min(current, target) <= current + lr * (target - current) <= Max(current, target)
  {
    if 0.0 <= lr <= 1.0 {
      var d := target - current;
      assert (1.0 - lr) * d == d - lr * d;
      if d >= 0.0 {
        ProductNonNegative(lr, d);
        ProductNonNegative(1.0 - lr, d);
      } else {
        ProductNonNegative(lr, -d);
        ProductNonNegative(1.0 - lr, -d);
        assert lr * (-d) == -(lr * d);
        assert (1.0 - lr) * (-d) == -((1.0 - lr) * d);
      }
    }
  }

  /** `max(min_epsilon, epsilon * rate)`. */
  function Decayed(epsilon: real, minEpsilon: real, rate: real): (r: real)
    ensures r >= minEpsilon
    ensures r == minEpsilon || r == epsilon * rate
    ensures 0.0 <= epsilon && minEpsilon <= epsilon && rate <= 1.0 ==> r <= epsilon
  {
    ScaledNotAbove(epsilon, rate);
    Max(minEpsilon, epsilon * rate)
  }

  lemma ScaledNotAbove(x: real, rate: real)
    ensures 0.0 <= x && rate <= 1.0 ==> x * rate <= x
  {
    if 0.0 <= x && rate <= 1.0 {
      assert x * rate <= x * 1.0;
    }
  }

  class QLearningAgent {
    const actionSpace: seq<int>
    const maxQueue: nat
    const learningRate: real
    const discountFactor: real
    const epsilonDecayRate: real
    const minEpsilon: real
    var epsilon: real
    const qTable: array3<real>

    /** The table has shape (max_queue + 1) x 2 x |action_space|. */
    ghost predicate Valid()
      reads this
    {
      qTable.Length0 == maxQueue + 1 && qTable.Length1 == 2 && qTable.Length2 == |actionSpace|
    }

    /** A state whose components are usable as table indices. */
    predicate Indexable(state: Env.Obs)
    {
      0 <= state.queueLen <= maxQueue && 0 <= state.serverStatus <= 1
    }

    constructor (actionSpace: seq<int>, env: Env.DreamEnv, learningRate: real := 0.1,
                 discountFactor: real := 0.95, epsilon: real := 1.0,
                 epsilonDecayRate: real := 0.995, minEpsilon: real := 0.01)
      ensures Valid() && fresh(qTable)
      ensures this.actionSpace == actionSpace && maxQueue == env.maxQueue
      ensures this.learningRate == learningRate && this.discountFactor == discountFactor
      ensures this.epsilon == epsilon && this.epsilonDecayRate == epsilonDecayRate
      ensures this.minEpsilon == minEpsilon
      ensures forall i, j, k :: 0 <= i < qTable.Length0 && 0 <= j < 2 && 0 <= k < |actionSpace| ==>
                qTable[i, j, k] == 0.0
    {
      this.actionSpace := actionSpace;
      maxQueue := env.maxQueue;
      this.learningRate := learningRate;
      this.discountFactor := discountFactor;
      this.epsilon := epsilon;
      this.epsilonDecayRate := epsilonDecayRate;
      this.minEpsilon := minEpsilon;
      qTable := new real[env.maxQueue + 1, 2, |actionSpace|]((i, j, k) => 0.0);
    }

    /** The Q-values of one state, one per action. */
    function Row(queueLen: int, status: int): (r: seq<real>)
      reads this, qTable
      requires Valid() && 0 <= queueLen <= maxQueue && 0 <= status <= 1
      ensures |r| == |actionSpace|
      ensures forall k :: 0 <= k < |actionSpace| ==> r[k] == qTable[queueLen, status, k]
    {
      seq(|actionSpace|, k requires 0 <= k < |actionSpace| reads qTable => qTable[queueLen, status, k])
    }

    /** Epsilon-greedy choice: the supplied random action, or the first action of maximal Q-value. */
    function Act(state: Env.Obs, explore: bool, choice: int): (a: int)
      reads this, qTable
      requires Valid() && Indexable(state) && |actionSpace| > 0
      requires explore ==> 0 <= choice < |actionSpace|
      ensures explore ==> a == actionSpace[choice] && a in actionSpace
      ensures !explore ==> 0 <= a < |actionSpace|
      ensures !explore ==> forall k :: 0 <= k < |actionSpace| ==>
                qTable[state.queueLen, state.serverStatus, k] <= qTable[state.queueLen, state.serverStatus, a]
      ensures !explore ==> forall k :: 0 <= k < a ==>
                qTable[state.queueLen, state.serverStatus, k] < qTable[state.queueLen, state.serverStatus, a]
    {
      if explore then actionSpace[choice]
      else ArgMax(Row(state.queueLen, state.serverStatus))
    }

    /** Bellman update of the single cell (state, action); every other cell is unchanged. */
    method Learn(state: Env.Obs, action: int, reward: real, nextState: Env.Obs)
      requires Valid() && Indexable(state) && Indexable(nextState)
      requires 0 <= action < |actionSpace|
      modifies qTable
      ensures Valid()
      ensures qTable[state.queueLen, state.serverStatus, action]
           == QUpdate(old(qTable[state.queueLen, state.serverStatus, action]), learningRate,
                      reward + discountFactor * MaxOf(old(Row(nextState.queueLen, nextState.serverStatus))))
      ensures forall i, j, k ::
                (0 <= i < qTable.Length0 && 0 <= j < 2 && 0 <= k < |actionSpace|
                 && (i != state.queueLen || j != state.serverStatus || k != action)) ==>
                qTable[i, j, k] == old(qTable[i, j, k])
    {
      var queueLen, serverStatus := state.queueLen, state.serverStatus;
      var nextQueueLen, nextServerStatus := nextState.queueLen, nextState.serverStatus;
      var currentQ := qTable[queueLen, serverStatus, action];
      var maxNextQ := MaxOf(Row(nextQueueLen, nextServerStatus));
      var newQ := QUpdate(currentQ, learningRate, reward + discountFactor * maxNextQ);
      qTable[queueLen, serverStatus, action] := newQ;
    }

    /** Shrink the exploration rate by the decay factor, never below its floor. */
    method DecayEpsilon()
      modifies this`epsilon
      ensures epsilon == Decayed(old(epsilon), minEpsilon, epsilonDecayRate)
      ensures epsilon >= minEpsilon
    {
      epsilon := Max(minEpsilon, epsilon * epsilonDecayRate);
    }
  }

  /** Observations of a `DreamEnv` with the same queue bound are valid table indices. */
  lemma ObservationsIndexable(env: Env.DreamEnv, agent: QLearningAgent)
    requires env.Valid() && agent.maxQueue == env.maxQueue
    ensures agent.Indexable(env.GetObs())
  {
  }
}
