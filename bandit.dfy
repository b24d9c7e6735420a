/**
 * The epsilon-greedy bandit `EpsilonGreedyBandit`: per-arm pull counts and
 * running mean rewards, kept in two arrays updated in place.
 *
 * The random branch of `select` is an input: `explore` stands for
 * "the uniform draw fell below eps" and `randomArm` for the arm
 * `rng.integers(n)` would return.
 */
module Bandit {
  import opened Stats

  /** One `update(a, reward)` call. */
  datatype Pull = Pull(arm: int, reward: real)

  /** The rewards given to arm `a`, in call order. */
  function RewardsOf(log: seq<Pull>, a: int): (r: seq<real>)
    ensures |r| <= |log|
  {
    if log == [] then []
    else
      var last := log[|log| - 1];
      RewardsOf(log[..|log| - 1], a) + (if last.arm == a then [last.reward] else [])
  }

  /** The value table an update log determines: the mean reward of each arm, 0 if never pulled. */
  function MeanValues(log: seq<Pull>, n: nat): (v: seq<real>)
    ensures |v| == n
    ensures forall a :: 0 <= a < n ==> v[a] == Mean(RewardsOf(log, a))
  {
    seq(n, a => Mean(RewardsOf(log, a)))
  }

  lemma RewardsOfSnoc(log: seq<Pull>, p: Pull, a: int)
    ensures RewardsOf(log + [p], a) == RewardsOf(log, a) + (if p.arm == a then [p.reward] else [])
  {
    assert (log + [p])[..|log + [p]| - 1] == log;
  }

  /**
   * The count and value tables an update log determines for `n` arms: each
   * arm's count is its number of pulls, its value the mean of its rewards,
   * and the counts add up to the number of pulls.
   */
  ghost predicate Tables(log: seq<Pull>, n: nat, counts: seq<int>, values: seq<real>)
  {
    && |counts| == n && |values| == n
    && (forall i :: 0 <= i < |log| ==> 0 <= log[i].arm < n)
    && (forall a :: 0 <= a < n ==> counts[a] == |RewardsOf(log, a)|)
    && values == MeanValues(log, n)
    && SumInt(counts) == |log|
  }

  class EpsilonGreedyBandit {
    const n: nat
    const eps: real
    const counts: array<int>
    const values: array<real>

    /** Every `update` call so far. */
    ghost var log: seq<Pull>

    ghost predicate Valid()
      reads this, counts, values
    {
      counts.Length == n && values.Length == n && Tables(log, n, counts[..], values[..])
    }

    constructor (nActions: nat, eps: real := 0.1)
      ensures Valid() && fresh(counts) && fresh(values)
      ensures n == nActions && this.eps == eps && log == []
      ensures forall a :: 0 <= a < n ==> counts[a] == 0 && values[a] == 0.0
    {
      n := nActions;
      this.eps := eps;
      counts := new int[nActions](_ => 0);
      values := new real[nActions](_ => 0.0);
      log := [];
      new;
      SumIntZeros(counts[..]);
      assert values[..] == MeanValues([], n);
    }

    /** Explore with the supplied arm, or exploit: the first arm of maximal value. */
    method Select(explore: bool, randomArm: int) returns (a: int)
      requires Valid() && n > 0
      requires explore ==> 0 <= randomArm < n
      ensures 0 <= a < n
      ensures explore ==> a == randomArm
      ensures !explore ==> a == ArgMax(MeanValues(log, n))
      ensures !explore ==> forall j :: 0 <= j < n ==> values[j] <= values[a]
      ensures !explore ==> forall j :: 0 <= j < a ==> values[j] < values[a]
    {
      if explore {
        return randomArm;
      }
      a := ArgMax(values[..]);
    }

    /** Record reward `reward` for arm `a`: one more pull, and the running mean moves toward it. */
    method Update(a: int, reward: real)
      requires Valid() && 0 <= a < n
      modifies this, counts, values
      ensures Valid()
      ensures log == old(log) + [Pull(a, reward)]
      ensures counts[..] == old(counts[..])[a := old(counts[a]) + 1]
      ensures values[..] == old(values[..])[a := values[a]]
      ensures values[a] == Mean(RewardsOf(old(log), a) + [reward])
    {
      ghost var oldCounts, oldValues := counts[..], values[..];
      counts[a] := counts[a] + 1;
      var cnt := counts[a];
      var q := values[a];
      values[a] := q + (reward - q) / (cnt as real);
      TablesSnoc(log, n, oldCounts, oldValues, a, reward);
      log := log + [Pull(a, reward)];
      assert counts[..] == oldCounts[a := oldCounts[a] + 1];
      assert values[..] == oldValues[a := oldValues[a] + (reward - oldValues[a]) / ((oldCounts[a] + 1) as real)];
    }
  }

  /** One `update(a, reward)` step on the tables gives the tables of the extended log. */
  lemma TablesSnoc(log: seq<Pull>, n: nat, counts: seq<int>, values: seq<real>, a: int, reward: real)
    requires Tables(log, n, counts, values) && 0 <= a < n
    ensures var counts', values' := counts[a := counts[a] + 1],
                                    values[a := values[a] + (reward - values[a]) / ((counts[a] + 1) as real)];
      && Tables(log + [Pull(a, reward)], n, counts', values')
      && values'[a] == Mean(RewardsOf(log, a) + [reward])
  {
    CountsSnoc(log, n, counts, a, reward);
    ValuesSnoc(log, n, counts, values, a, reward);
  }

  /** The count step of `update`: one more pull for arm `a`, none for the others. */
  lemma CountsSnoc(log: seq<Pull>, n: nat, counts: seq<int>, a: int, reward: real)
    requires |counts| == n && 0 <= a < n
    requires forall i :: 0 <= i < |log| ==> 0 <= log[i].arm < n
    requires forall b :: 0 <= b < n ==> counts[b] == |RewardsOf(log, b)|
    requires SumInt(counts) == |log|
    ensures var log', counts' := log + [Pull(a, reward)], counts[a := counts[a] + 1];
      && (forall i :: 0 <= i < |log'| ==> 0 <= log'[i].arm < n)
      && (forall b :: 0 <= b < n ==> counts'[b] == |RewardsOf(log', b)|)
      && SumInt(counts') == |log'|
  {
    var p := Pull(a, reward);
    var log' := log + [p];
    SumIntIncrement(counts, a);
    forall b | 0 <= b < n
      ensures counts[a := counts[a] + 1][b] == |RewardsOf(log', b)|
    {
      RewardsOfSnoc(log, p, b);
    }
    assert forall i :: 0 <= i < |log| ==> log'[i] == log[i];
  }

  /** The value step of `update`: arm `a`'s running mean absorbs the reward, the others keep theirs. */
  lemma ValuesSnoc(log: seq<Pull>, n: nat, counts: seq<int>, values: seq<real>, a: int, reward: real)
    requires |counts| == n && 0 <= a < n
    requires counts[a] == |RewardsOf(log, a)|
    requires values == MeanValues(log, n)
    ensures var values' := values[a := values[a] + (reward - values[a]) / ((counts[a] + 1) as real)];
      && values' == MeanValues(log + [Pull(a, reward)], n)
      && values'[a] == Mean(RewardsOf(log, a) + [reward])
  {
    var p := Pull(a, reward);
    var log' := log + [p];
    var values' := values[a := values[a] + (reward - values[a]) / ((counts[a] + 1) as real)];
    MeanSnoc(RewardsOf(log, a), reward);
    forall b | 0 <= b < n
      ensures values'[b] == Mean(RewardsOf(log', b))
    {
      RewardsOfSnoc(log, p, b);
      if b == a {
        assert RewardsOf(log', b) == RewardsOf(log, b) + [reward];
        assert values[a] == Mean(RewardsOf(log, a));
      } else {
        assert RewardsOf(log', b) == RewardsOf(log, b);
        assert values'[b] == values[b] == MeanValues(log, n)[b];
      }
    }
    assert values' == MeanValues(log', n);
  }

  /** Each arm's value lies between the smallest and largest reward that arm received. */
  lemma ValueWithinRewards(b: EpsilonGreedyBandit, a: int, lo: real, hi: real)
    requires b.Valid() && 0 <= a < b.n
    requires RewardsOf(b.log, a) != []
    requires forall i :: 0 <= i < |RewardsOf(b.log, a)| ==> lo <= RewardsOf(b.log, a)[i] <= hi
    ensures lo <= b.values[a] <= hi
  {
    assert b.values[a] == b.values[..][a] == Mean(RewardsOf(b.log, a));
    MeanBounds(RewardsOf(b.log, a), lo, hi);
  }
}
