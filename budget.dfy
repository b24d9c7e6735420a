/**
 * The stand-alone idle-budget formula of the scheduler:
 * `max(0, beta * (1 - min(0.999, rho_tau)))`.
 */
module Budget {
  import opened Stats

  /** Utilisation cap applied before the budget is taken. */
  const RhoCap: real := 0.999

  /** Spare-capacity allowance for scale `beta` at utilisation `rho`. */
  function IdleBudget(beta: real, rho: real): (b: real)
    ensures b >= 0.0
  {
    Max(0.0, beta * (1.0 - Min(RhoCap, rho)))
  }

  /** The capped factor `1 - min(0.999, rho)` is never below 0.001. */
  lemma FactorAtLeastFloor(rho: real)
    ensures 1.0 - Min(RhoCap, rho) >= 1.0 - RhoCap
  {
  }

  /** For `beta >= 0` the outer `max(0, ...)` never binds. */
  lemma OuterClampInactive(beta: real, rho: real)
    requires beta >= 0.0
    ensures IdleBudget(beta, rho) == beta * (1.0 - Min(RhoCap, rho))
    ensures IdleBudget(beta, rho) >= beta * (1.0 - RhoCap)
  {
    FactorAtLeastFloor(rho);
    assert beta * (1.0 - Min(RhoCap, rho)) >= beta * (1.0 - RhoCap) >= 0.0;
  }

  /** Higher utilisation never gives a larger budget (for `beta >= 0`). */
  lemma AntitoneInRho(beta: real, rho1: real, rho2: real)
    requires beta >= 0.0
    requires rho1 <= rho2
    ensures IdleBudget(beta, rho2) <= IdleBudget(beta, rho1)
  {
    OuterClampInactive(beta, rho1);
    OuterClampInactive(beta, rho2);
    var f1, f2 := 1.0 - Min(RhoCap, rho1), 1.0 - Min(RhoCap, rho2);
    assert f2 <= f1;
    assert beta * f2 <= beta * f1;
    assert IdleBudget(beta, rho1) == beta * f1;
    assert IdleBudget(beta, rho2) == beta * f2;
  }

  /** At or above the cap the budget no longer depends on `rho`. */
  lemma SaturatedBudget(beta: real, rho: real)
    requires rho >= RhoCap
    ensures IdleBudget(beta, rho) == IdleBudget(beta, RhoCap)
    ensures beta >= 0.0 ==> IdleBudget(beta, rho) == beta * (1.0 - RhoCap)
  {
  }

  /** A larger scale never gives a smaller budget, whatever `rho` is. */
  lemma MonotoneInBeta(beta1: real, beta2: real, rho: real)
    requires beta1 <= beta2
    ensures IdleBudget(beta1, rho) <= IdleBudget(beta2, rho)
  {
    var f := 1.0 - Min(RhoCap, rho);
    FactorAtLeastFloor(rho);
    assert beta1 * f <= beta2 * f;
  }

  /** For a non-negative utilisation the budget is at most `beta`. */
  lemma AtMostBeta(beta: real, rho: real)
    requires beta >= 0.0 && rho >= 0.0
    ensures IdleBudget(beta, rho) <= beta
  {
    OuterClampInactive(beta, rho);
    var f := 1.0 - Min(RhoCap, rho);
    assert f <= 1.0;
    assert beta * f <= beta * 1.0;
  }

  /** `rho` has no lower clamp: a negative utilisation gives more than `beta`. */
  lemma NegativeRhoExceedsBeta(beta: real, rho: real)
    requires beta > 0.0 && rho < 0.0
    ensures IdleBudget(beta, rho) > beta
  {
    OuterClampInactive(beta, rho);
    var f := 1.0 - Min(RhoCap, rho);
    assert f > 1.0;
    assert beta * f > beta * 1.0;
  }
}
