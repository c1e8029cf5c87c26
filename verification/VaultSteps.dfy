/** What each transaction does to a vault, from its inputs alone: when it is refused, and the whole new vault when
    it is not. */
module VaultSteps {
  import opened BigNumbers
  import opened MathUtils
  import opened NavExactness
  import opened NavIssuance
  import opened NavProperties
  import opened Options
  import opened StreamingFee
  import opened Vault

  /** The vaults that transactions start from. */
  predicate Open(v: Vault) {
    v.supply > 0 && v.multiplier > 0 && ReserveCovered(v.reserveUnit, v.supply, v.reserveBalance)
  }

  /** The multiplier that keeps the components' real amounts when the supply changes. */
  function Rescaled(multiplier: int, previous: int, current: int): int
    requires current > 0
  {
    multiplier * (UNIT * previous / current) / UNIT
  }

  /** Only supply, multiplier and reserve changed; the reserve unit is the largest that the amount supports. */
  ghost predicate Moved(v: Vault, v': Vault, supply: int, multiplier: int, balance: int, amount: int)
    requires supply > 0 && multiplier > 0
  {
    && v' == v.(supply := supply, multiplier := multiplier, reserveUnit := v'.reserveUnit, reserveBalance := balance)
    && LargestStored(amount, supply, multiplier, v'.reserveUnit)
  }

  /** An issue into a vault of at least the minimum supply mints exactly the expected quantity and takes in the deposit
      net of fees; otherwise, or when the multiplier would vanish, it is refused. */
  lemma IssueStep(v: Vault, q: int, valuation: int, terms: Terms)
    requires Open(v) && q >= 0 && valuation >= 0 && terms.Valid()
    ensures var v' := Next(v, Issue(q, valuation, terms));
            match ExpectedSetTokenIssueQuantity(valuation, v.supply, q, terms)
            case None => v' == v
            case Some(out) =>
              && out >= 0
              && var supply, deposit := v.supply + out, PostFee(q, terms.managerFee, terms.protocolFee);
                 var multiplier := Rescaled(v.multiplier, v.supply, supply);
                 if v.supply >= v.minimumSupply && multiplier > 0 then
                   Moved(
                     v, v', supply, multiplier, v.reserveBalance + deposit,
                     v.supply * v.reserveUnit / UNIT + deposit)
                 else v' == v
  {
    hide ExpectedIssuePositionUnit, LargestStored, ExpectedIssuePositionMultiplier, PostFee;
    IssueNeverDilutes(valuation, v.supply, q, terms);
    match ExpectedSetTokenIssueQuantity(valuation, v.supply, q, terms)
    case None =>
    case Some(out) =>
      var supply := v.supply + out;
      MultipliersAreScaledRatio(v.multiplier, v.supply, supply);
      ScaledRatioLoss(v.multiplier, v.supply, supply);
      PostFeeQuantityExact(q, terms.managerFee, terms.protocolFee);
      PostFeeIs(q, terms.managerFee, terms.protocolFee);
      var multiplier := Rescaled(v.multiplier, v.supply, supply);
      if multiplier > 0 {
        IssueUnitExact(v.reserveUnit, q, v.supply, supply, multiplier, terms.managerFee, terms.protocolFee);
      }
  }

  lemma PostFeeIs(q: int, f1: int, f2: int)
    requires q >= 0 && f1 >= 0 && f2 >= 0 && f1 + f2 <= UNIT
    ensures ExpectedPostFeeQuantity(q, f1, f2) == PostFee(q, f1, f2)
  {
    PostFeeQuantityExact(q, f1, f2);
  }

  /** A redeem burns its quantity and pays out the value before fees, at any valuation; it is refused if it would leave
      no supply or less than the minimum, or pay more than the reserve unit accounts for. */
  lemma RedeemStep(v: Vault, quantity: int, valuation: int, terms: Terms)
    requires Open(v) && quantity >= 0 && valuation >= 0 && terms.Valid()
    ensures var v' := Next(v, Redeem(quantity, valuation, terms));
            var outflow := RedeemValue(quantity, valuation, terms.premium) * terms.baseUnits / UNIT;
            var supply, held := v.supply - quantity, v.supply * v.reserveUnit / UNIT;
            if supply > 0 && supply >= v.minimumSupply && outflow <= held then
              var multiplier := Rescaled(v.multiplier, v.supply, supply);
              multiplier >= v.multiplier
              && Moved(v, v', supply, multiplier, v.reserveBalance - outflow, held - outflow)
            else v' == v
  {
    hide ExpectedRedeemPositionUnit, LargestStored, ExpectedRedeemPositionMultiplier, RedeemOutflow, RedeemValue;
    RedeemExact(quantity, valuation, terms);
    ProductFloors(v.supply, v.reserveUnit);
    var supply := v.supply - quantity;
    if supply > 0 {
      MultipliersAreScaledRatio(v.multiplier, v.supply, supply);
      RescaledGrows(v.multiplier, v.supply, supply);
      var multiplier := Rescaled(v.multiplier, v.supply, supply);
      if RedeemOutflow(quantity, valuation, terms) <= v.supply * v.reserveUnit / UNIT {
        RedeemUnitExact(v.reserveUnit, quantity, valuation, v.supply, supply, multiplier, terms);
      }
    }
  }

  lemma RescaledGrows(multiplier: int, previous: int, current: int)
    requires multiplier >= 0 && 0 < current <= previous
    ensures Rescaled(multiplier, previous, current) >= multiplier
  {
    DivGalois(UNIT, UNIT * previous, current);
    MulMono(UNIT, UNIT * previous / current, multiplier);
    DivGalois(multiplier, multiplier * (UNIT * previous / current), UNIT);
  }

  /** An accrual mints the fee's share and takes it out of every unit; the balances stay. */
  lemma AccrualStepExact(v: Vault, f: int)
    requires Open(v)
    ensures var v' := Next(v, AccrueFee(f));
            if 0 <= f < UNIT && v.multiplier * (UNIT - f) >= UNIT then
              v' == v.(supply := v.supply * UNIT / (UNIT - f),
              multiplier := v.multiplier * (UNIT - f) / UNIT,
              reserveUnit := v.reserveUnit * (UNIT - f) / UNIT)
            else v' == v
  {
    if 0 <= f < UNIT {
      SupplyAfterAccrual(f, v.supply);
      ProductFloors(v.multiplier, UNIT - f);
      DivGalois(1, v.multiplier * (UNIT - f), UNIT);
      PostFeeUnitIsFloor(v.reserveUnit, f);
    }
  }

  // ----- Supply over runs

  /** No transaction takes the supply below the minimum, or further below it. */
  lemma StepKeepsMinimum(v: Vault, step: Step)
    requires Open(v)
    ensures Next(v, step).supply >= if v.supply < v.minimumSupply then v.supply else v.minimumSupply
    ensures Next(v, step).minimumSupply == v.minimumSupply
    ensures v.supply < v.minimumSupply && !step.AccrueFee? ==> Next(v, step) == v
  {
    match step
    case Issue(q, valuation, terms) =>
      if Accepted(v, step) {
        IssueNeverDilutes(valuation, v.supply, q, terms);
      }
    case Redeem(_, _, _) =>
    case AccrueFee(f) =>
      if Accepted(v, step) {
        SupplyAfterAccrual(f, v.supply);
      }
  }

  lemma StepKeepsOpen(v: Vault, step: Step)
    requires Open(v)
    ensures Open(Next(v, step))
  {
    StepKeepsReserve(v, step);
    if Accepted(v, step) {
      ScaledSupplyStep(v, step);
    }
  }

  /** Over any run the supply stays at or above the minimum once it is there. */
  lemma {:induction false} RunKeepsMinimum(v: Vault, steps: seq<Step>)
    requires Open(v)
    ensures Run(v, steps).supply >= if v.supply < v.minimumSupply then v.supply else v.minimumSupply
    ensures Run(v, steps).minimumSupply == v.minimumSupply
    decreases |steps|
  {
    hide Next, Open;
    if steps != [] {
      StepKeepsMinimum(v, steps[0]);
      StepKeepsOpen(v, steps[0]);
      RunKeepsMinimum(Next(v, steps[0]), steps[1..]);
    }
  }

  /** A run is its transactions one after the other. */
  lemma {:induction false} RunAppend(v: Vault, first: seq<Step>, second: seq<Step>)
    ensures Run(v, first + second) == Run(Run(v, first), second)
    decreases |first|
  {
    hide Next;
    if first == [] {
      assert first + second == second;
    } else {
      assert (first + second)[1..] == first[1..] + second;
      RunAppend(Next(v, first[0]), first[1..], second);
    }
  }
}
