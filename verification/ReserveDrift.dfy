/** How far the reserve unit may fall behind the reserve balance over a run of a vault. */
module ReserveDrift {
  import opened BigNumbers
  import opened MathUtils
  import opened NavAccounting
  import opened NavIssuance
  import opened StreamingFee
  import opened Vault

  /** What the reserve balance holds beyond the unrounded claims, scaled by UNIT. */
  function Unclaimed(v: Vault): int {
    v.reserveBalance * UNIT - v.reserveUnit * v.supply
  }

  /** The most that one step's roundings leave unclaimed. */
  function StepSlack(supply: int, multiplier: int, unit: int): int
    requires multiplier > 0
  {
    UNIT + 2 * supply + supply * UNIT / multiplier + unit
  }

  /** Accounting for an amount that the old claim entered rounded down. */
  lemma AccountsSlack(claim: int, balance: int, net: int, supply: int, multiplier: int, unit: int)
    requires claim >= 0 && supply > 0 && multiplier > 0
    requires Accounts(claim / UNIT + net, supply, multiplier, unit)
    ensures var growth := (balance + net) * UNIT - unit * supply - (balance * UNIT - claim);
            0 <= growth <= UNIT + 2 * supply + supply * UNIT / multiplier
  {
    var gap := (claim / UNIT + net) * UNIT - unit * supply;
    assert multiplier * (gap - 2 * supply) < supply * UNIT;
    DivGalois(gap - 2 * supply, supply * UNIT, multiplier);
  }

  lemma IssueUnclaimed(v: Vault, q: int, valuation: int, terms: Terms)
    requires v.supply > 0 && ReserveCovered(v.reserveUnit, v.supply, v.reserveBalance)
    requires var step := Issue(q, valuation, terms);
             TakesEffect(v, step) && SupplyAfterStep(v, step) > 0 && MultiplierAfterStep(v, step) > 0
    ensures var v' := Next(v, Issue(q, valuation, terms));
            0 <= Unclaimed(v') - Unclaimed(v) <= StepSlack(v'.supply, v'.multiplier, v.reserveUnit)
  {
    hide Accounts, ExpectedPostFeeQuantity, ExpectedIssuePositionUnit, PreciseMul;
    var v' := Next(v, Issue(q, valuation, terms));
    var net := ExpectedPostFeeQuantity(q, terms.managerFee, terms.protocolFee);
    IssueUnitAccounts(
      v.reserveUnit, q, v.supply, v'.supply, v'.multiplier, terms.managerFee, terms.protocolFee);
    ClaimFloor(v.supply, v.reserveUnit);
    AccountsSlack(v.supply * v.reserveUnit, v.reserveBalance, net, v'.supply, v'.multiplier, v'.reserveUnit);
  }

  lemma RedeemUnclaimed(v: Vault, quantity: int, valuation: int, terms: Terms)
    requires v.supply > 0 && ReserveCovered(v.reserveUnit, v.supply, v.reserveBalance)
    requires var step := Redeem(quantity, valuation, terms);
             TakesEffect(v, step) && SupplyAfterStep(v, step) > 0 && MultiplierAfterStep(v, step) > 0
    ensures var v' := Next(v, Redeem(quantity, valuation, terms));
            0 <= Unclaimed(v') - Unclaimed(v) <= StepSlack(v'.supply, v'.multiplier, v.reserveUnit)
  {
    hide Accounts, RedeemOutflow, ExpectedRedeemPositionUnit, PreciseMul;
    var v' := Next(v, Redeem(quantity, valuation, terms));
    var out := RedeemOutflow(quantity, valuation, terms);
    RedeemUnitAccounts(v.reserveUnit, quantity, valuation, v.supply, v'.supply, v'.multiplier, terms);
    ClaimFloor(v.supply, v.reserveUnit);
    AccountsSlack(v.supply * v.reserveUnit, v.reserveBalance, -out, v'.supply, v'.multiplier, v'.reserveUnit);
  }

  lemma ClaimFloor(supply: int, unit: int)
    requires supply > 0 && unit >= 0
    ensures supply * unit >= 0 && PreciseMul(supply, unit) == supply * unit / UNIT
  {
    MulMono2(0, supply, 0, unit);
  }

  /** One step: the reserve is never claimed further, and what its roundings leave unclaimed is bounded. */
  lemma StepUnclaimed(v: Vault, step: Step)
    requires v.supply > 0 && v.multiplier > 0 && ReserveCovered(v.reserveUnit, v.supply, v.reserveBalance)
    ensures var v' := Next(v, step);
            && v'.supply > 0 && v'.multiplier > 0
            && 0 <= Unclaimed(v') - Unclaimed(v) <= StepSlack(v'.supply, v'.multiplier, v.reserveUnit)
  {
    hide StepLoss;
    SlackNonNeg(v.supply, v.multiplier, v.reserveUnit);
    if TakesEffect(v, step) {
      ScaledSupplyStep(v, step);
      match step
      case Issue(q, valuation, terms) =>
        IssueUnclaimed(v, q, valuation, terms);
      case Redeem(quantity, valuation, terms) =>
        RedeemUnclaimed(v, quantity, valuation, terms);
      case AccrueFee(f) =>
        AccrualUnclaimed(v.reserveUnit, v.supply, f);
        SlackNonNeg(Accrue(v.supply, f), MultiplierAfterStep(v, step), v.reserveUnit);
    }
  }

  lemma SlackNonNeg(supply: int, multiplier: int, unit: int)
    requires supply > 0 && multiplier > 0 && unit >= 0
    ensures StepSlack(supply, multiplier, unit) >= 2 * supply + unit
  {
    DivGalois(0, supply * UNIT, multiplier);
  }

  /** Supply, multiplier and reserve unit stay within fixed limits over the run. */
  predicate Within(v: Vault, steps: seq<Step>, supply: int, multiplier: int, unit: int)
    decreases |steps|
  {
    && v.supply <= supply && multiplier <= v.multiplier && v.reserveUnit <= unit
    && (steps != [] ==> Within(Next(v, steps[0]), steps[1..], supply, multiplier, unit))
  }

  lemma SlackMono(supply: int, multiplier: int, unit: int, supply': int, multiplier': int, unit': int)
    requires 0 < supply <= supply' && 0 < multiplier' <= multiplier && 0 <= unit <= unit'
    ensures 0 <= StepSlack(supply, multiplier, unit) <= StepSlack(supply', multiplier', unit')
  {
    SlackNonNeg(supply, multiplier, unit);
    var q := supply * UNIT / multiplier;
    DivBounds(supply * UNIT, multiplier);
    DivGalois(0, supply * UNIT, multiplier);
    MulMono(multiplier', multiplier, q);
    DivGalois(q, supply' * UNIT, multiplier');
  }

  /** Bounded reserve drift: over a run the reserve is never claimed further, and every step leaves at most a
      fixed amount unclaimed, set by the largest supply and unit and the smallest multiplier of the run. */
  lemma {:induction false} RunReserveDrift(
    v: Vault, steps: seq<Step>, supply: int, multiplier: int, unit: int)
    requires v.supply > 0 && v.multiplier > 0 && ReserveCovered(v.reserveUnit, v.supply, v.reserveBalance)
    requires multiplier > 0 && Within(v, steps, supply, multiplier, unit)
    ensures 0 <= Unclaimed(Run(v, steps)) - Unclaimed(v) <= |steps| * StepSlack(supply, multiplier, unit)
    decreases |steps|
  {
    hide Unclaimed, StepSlack, Next;
    if steps != [] {
      var v' := Next(v, steps[0]);
      StepUnclaimed(v, steps[0]);
      StepKeepsReserve(v, steps[0]);
      SlackMono(v'.supply, v'.multiplier, v.reserveUnit, supply, multiplier, unit);
      RunReserveDrift(v', steps[1..], supply, multiplier, unit);
      var slack := StepSlack(supply, multiplier, unit);
      assert |steps| * slack == (|steps| - 1) * slack + slack;
    }
  }
}
