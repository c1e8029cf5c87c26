/** A set token with one reserve asset and any number of other components, changed by issuing, redeeming
    and fee accrual as the reference functions predict, and its solvency over every run. */
module Vault {
  import opened BigNumbers
  import opened MathUtils
  import opened NavAccounting
  import opened NavIssuance
  import opened NavProperties
  import opened Options
  import opened StreamingFee

  /** A component other than the reserve: stored as a virtual unit, it moves with the multiplier only. */
  datatype Component = Component(virtualUnit: int, balance: int)

  /** minimumSupply is the issuance setting below which nothing is issued or redeemed. */
  datatype Vault = Vault(
    supply: int, multiplier: int, reserveUnit: int, reserveBalance: int, components: seq<Component>,
    minimumSupply: int)

  datatype Step =
    | Issue(reserveQuantity: int, valuation: int, terms: Terms)
    | Redeem(setTokenQuantity: int, valuation: int, terms: Terms)
    | AccrueFee(inflation: int)

  function IssuedQuantity(v: Vault, q: int, valuation: int, terms: Terms): Option<int> {
    ExpectedSetTokenIssueQuantity(valuation, v.supply, q, terms)
  }

  function SupplyAfterStep(v: Vault, step: Step): int {
    match step
    case Issue(q, valuation, terms) =>
      (match IssuedQuantity(v, q, valuation, terms)
       case None => v.supply
       case Some(out) => v.supply + out)
    case Redeem(quantity, _, _) => v.supply - quantity
    case AccrueFee(f) => if f == UNIT then v.supply else Accrue(v.supply, f)
  }

  function MultiplierAfterStep(v: Vault, step: Step): int {
    var supply := SupplyAfterStep(v, step);
    match step
    case Issue(_, _, _) => ExpectedIssuePositionMultiplier(v.multiplier, v.supply, supply)
    case Redeem(_, _, _) =>
      if supply == 0 then 0 else ExpectedRedeemPositionMultiplier(v.multiplier, v.supply, supply)
    case AccrueFee(f) => PreciseMul(v.multiplier, UNIT - f)
  }

  /** Sensible arguments, no division by zero, enough supply and collateral, and supply left after a redeem. */
  predicate Accepted(v: Vault, step: Step) {
    match step
    case Issue(q, valuation, terms) =>
      && q >= 0 && valuation >= 0 && terms.Valid() && IssuedQuantity(v, q, valuation, terms).Some?
      && v.supply >= v.minimumSupply
    case Redeem(quantity, valuation, terms) =>
      && 0 <= quantity < v.supply && valuation >= 0 && terms.Valid()
      && v.supply - quantity >= v.minimumSupply
      && RedeemOutflow(quantity, valuation, terms) <= PreciseMul(v.supply, v.reserveUnit)
    case AccrueFee(f) => 0 <= f < UNIT
  }

  /** Accepted, and not scaling every unit to zero. */
  predicate TakesEffect(v: Vault, step: Step) {
    Accepted(v, step) && SupplyAfterStep(v, step) != 0 && MultiplierAfterStep(v, step) != 0
  }

  /** One transaction; one that cannot take effect is refused and changes nothing. */
  function Next(v: Vault, step: Step): Vault {
    if !TakesEffect(v, step) then v
    else
      var supply, multiplier := SupplyAfterStep(v, step), MultiplierAfterStep(v, step);
      match step
      case Issue(q, _, terms) =>
        v.(supply := supply,
        multiplier := multiplier,
        reserveUnit := ExpectedIssuePositionUnit(
          v.reserveUnit, q, v.supply, supply, multiplier, terms.managerFee, terms.protocolFee),
        reserveBalance := v.reserveBalance + ExpectedPostFeeQuantity(q, terms.managerFee, terms.protocolFee))
      case Redeem(quantity, valuation, terms) =>
        v.(supply := supply,
        multiplier := multiplier,
        reserveUnit := ExpectedRedeemPositionUnit(
          v.reserveUnit, quantity, valuation, v.supply, supply, multiplier, terms),
        reserveBalance := v.reserveBalance - RedeemOutflow(quantity, valuation, terms))
      case AccrueFee(f) =>
        v.(supply := supply, multiplier := multiplier, reserveUnit := PostFeeUnit(v.reserveUnit, f))
  }

  function Run(v: Vault, steps: seq<Step>): Vault
    decreases |steps|
  {
    if steps == [] then v else Run(Next(v, steps[0]), steps[1..])
  }

  // ----- Solvency

  /** The check reconcileBalances makes: every real unit times the supply is covered by the balance. */
  predicate Reconciles(v: Vault) {
    && PreciseMul(v.reserveUnit, v.supply) <= v.reserveBalance
    && forall i :: 0 <= i < |v.components| ==>
         PreciseMul(PreciseMul(v.components[i].virtualUnit, v.multiplier), v.supply) <= v.components[i].balance
  }

  /** The unrounded claim on a component stays below one unit more than its balance. */
  predicate Backed(c: Component, scaledSupply: int) {
    && c.virtualUnit >= 0
    && c.virtualUnit * scaledSupply < (c.balance + 1) * (UNIT * UNIT)
  }

  predicate ReserveCovered(unit: int, supply: int, balance: int) {
    unit >= 0 && PreciseMul(unit, supply) <= balance
  }

  /** The vaults that reconcile now and after every run. */
  predicate Solvent(v: Vault) {
    && v.supply > 0 && v.multiplier > 0
    && ReserveCovered(v.reserveUnit, v.supply, v.reserveBalance)
    && forall i :: 0 <= i < |v.components| ==> Backed(v.components[i], v.multiplier * v.supply)
  }

  lemma SolventReconciles(v: Vault)
    requires Solvent(v)
    ensures Reconciles(v)
  {
    forall i | 0 <= i < |v.components|
      ensures PreciseMul(PreciseMul(v.components[i].virtualUnit, v.multiplier), v.supply) <= v.components[i].balance
    {
      var c := v.components[i];
      assert Backed(c, v.multiplier * v.supply);
      FlooredClaim(c.virtualUnit, v.multiplier, v.supply, c.balance);
    }
  }

  lemma FlooredClaim(unit: int, m: int, s: int, balance: int)
    requires unit >= 0 && m > 0 && s > 0
    requires unit * (m * s) < (balance + 1) * (UNIT * UNIT)
    ensures PreciseMul(PreciseMul(unit, m), s) <= balance
  {
    MulMono2(0, unit, 0, m);
    var realUnit := PreciseMul(unit, m);
    MulMono2(0, realUnit, 0, s);
    var claim := PreciseMul(realUnit, s);
    MulMono(realUnit * UNIT, unit * m, s);
    MulMono(claim * UNIT, realUnit * s, UNIT);
    assert realUnit * UNIT * s == realUnit * s * UNIT;
    assert unit * m * s == unit * (m * s);
    MulCancelStrict(claim, balance + 1, UNIT * UNIT);
  }

  /** A redeem that pays nothing only rescales. */
  lemma FreeRedeem(v: Vault, quantity: int)
    requires 0 < quantity < v.supply && v.supply - quantity >= v.minimumSupply && v.reserveUnit == 0
    requires ExpectedRedeemPositionMultiplier(v.multiplier, v.supply, v.supply - quantity) != 0
    ensures var v' := Next(v, Redeem(quantity, 0, Terms(1, 0, 0, 0)));
            && v'.supply == v.supply - quantity
            && v'.multiplier == ExpectedRedeemPositionMultiplier(v.multiplier, v.supply, v.supply - quantity)
            && v'.components == v.components
  {
  }

  lemma MultiplierDoubles()
    ensures ExpectedRedeemPositionMultiplier(UNIT + UNIT / 2, 2 * UNIT, 2 * UNIT - UNIT) == 3 * UNIT
  {
  }

  /** The floored check alone is not kept: at one and a half tokens a unit and two units out, three tokens
      are claimed and the floor sees two; redeeming half the supply uncovers the third. */
  lemma ReconcilesIsNotInductive()
    ensures var v := Vault(2 * UNIT, UNIT + UNIT / 2, 0, 0, [Component(1, 2)], 0);
            && Reconciles(v) && !Reconciles(Next(v, Redeem(UNIT, 0, Terms(1, 0, 0, 0))))
            && !Backed(v.components[0], v.multiplier * v.supply)
  {
    var v := Vault(2 * UNIT, UNIT + UNIT / 2, 0, 0, [Component(1, 2)], 0);
    MultiplierDoubles();
    FreeRedeem(v, UNIT);
    Uncovered(Next(v, Redeem(UNIT, 0, Terms(1, 0, 0, 0))));
    HiddenByFloor(v);
  }

  lemma HiddenByFloor(v: Vault)
    requires v == Vault(2 * UNIT, UNIT + UNIT / 2, 0, 0, [Component(1, 2)], 0)
    ensures Reconciles(v)
  {
  }

  lemma Uncovered(v: Vault)
    requires v.supply == UNIT && v.multiplier == 3 * UNIT && v.components == [Component(1, 2)]
    ensures !Reconciles(v)
  {
    assert v.components[0] == Component(1, 2);
    assert PreciseMul(1, 3 * UNIT) == 3 && PreciseMul(3, UNIT) == 3;
  }

  /** Spreading an amount over the supply and rounding the unit down never claims more than the amount. */
  lemma SpreadUnit(amount: int, supply: int, multiplier: int)
    requires amount >= 0 && supply > 0 && multiplier > 0
    ensures ReserveCovered(RoundToVirtual(PreciseDiv(amount, supply), multiplier), supply, amount)
  {
    SpreadUnitAccounts(amount, supply, multiplier);
    var unit := RoundToVirtual(PreciseDiv(amount, supply), multiplier);
    MulMono2(0, unit, 0, supply);
    MulCancel(PreciseMul(unit, supply), amount, UNIT);
  }

  /** What rounding may take from the scaled supply (multiplier times supply) in one step. */
  function StepLoss(v: Vault, step: Step): int {
    match step
    case AccrueFee(f) => SupplyAfterStep(v, step) * UNIT + v.multiplier * (UNIT - f)
    case _ => SupplyAfterStep(v, step) * (v.multiplier + UNIT)
  }

  /** Every accepted step rescales supply and multiplier so that their product does not grow. */
  lemma ScaledSupplyStep(v: Vault, step: Step)
    requires v.supply > 0 && v.multiplier > 0 && Accepted(v, step)
    ensures SupplyAfterStep(v, step) > 0
    ensures MultiplierAfterStep(v, step) >= 0
    ensures MultiplierAfterStep(v, step) * SupplyAfterStep(v, step) <= v.multiplier * v.supply
    ensures UNIT * (v.multiplier * v.supply - MultiplierAfterStep(v, step) * SupplyAfterStep(v, step))
            < StepLoss(v, step)
  {
    match step
    case Issue(q, valuation, terms) =>
      IssueNeverDilutes(valuation, v.supply, q, terms);
      MultipliersAreScaledRatio(v.multiplier, v.supply, SupplyAfterStep(v, step));
      ScaledRatioLoss(v.multiplier, v.supply, SupplyAfterStep(v, step));
    case Redeem(quantity, valuation, terms) =>
      MultipliersAreScaledRatio(v.multiplier, v.supply, SupplyAfterStep(v, step));
      ScaledRatioLoss(v.multiplier, v.supply, SupplyAfterStep(v, step));
    case AccrueFee(f) =>
      SupplyAfterAccrual(f, v.supply);
      DivBounds(v.supply * UNIT, UNIT - f);
      MulMono2(0, v.multiplier, 0, UNIT - f);
      AssetStep(v.multiplier, v.supply, UNIT - f, Accrue(v.supply, f), PreciseMul(v.multiplier, UNIT - f));
      AccrualLoss(v.multiplier, v.supply, UNIT - f, Accrue(v.supply, f), PreciseMul(v.multiplier, UNIT - f));
  }

  lemma IssueKeepsReserve(
    unit: int, balance: int, q: int, previous: int, current: int, multiplier: int, f1: int, f2: int)
    requires ReserveCovered(unit, previous, balance) && previous > 0 && current > 0 && multiplier > 0
    requires q >= 0 && f1 >= 0 && f2 >= 0 && f1 + f2 <= UNIT
    ensures ReserveCovered(
              ExpectedIssuePositionUnit(unit, q, previous, current, multiplier, f1, f2), current,
              balance + ExpectedPostFeeQuantity(q, f1, f2))
  {
    PostFeeQuantityExact(q, f1, f2);
    MulMono2(0, previous, 0, unit);
    assert previous * unit == unit * previous;
    SpreadUnit(PreciseMul(previous, unit) + ExpectedPostFeeQuantity(q, f1, f2), current, multiplier);
  }

  lemma RedeemKeepsReserve(
    unit: int, balance: int, quantity: int, valuation: int, previous: int, current: int, multiplier: int, terms: Terms)
    requires ReserveCovered(unit, previous, balance) && previous > 0 && current > 0 && multiplier > 0
    requires RedeemOutflow(quantity, valuation, terms) <= PreciseMul(previous, unit)
    ensures ReserveCovered(
              ExpectedRedeemPositionUnit(unit, quantity, valuation, previous, current, multiplier, terms), current,
              balance - RedeemOutflow(quantity, valuation, terms))
  {
    assert previous * unit == unit * previous;
    SpreadUnit(PreciseMul(previous, unit) - RedeemOutflow(quantity, valuation, terms), current, multiplier);
  }

  lemma AccrualKeepsReserve(unit: int, balance: int, supply: int, f: int)
    requires ReserveCovered(unit, supply, balance) && supply > 0 && 0 <= f < UNIT
    ensures ReserveCovered(PostFeeUnit(unit, f), Accrue(supply, f), balance)
  {
    AccrualStep(unit, supply, f);
    PostFeeUnitIsFloor(unit, f);
    DivMono(PostFeeUnit(unit, f) * Accrue(supply, f), unit * supply, UNIT);
  }

  lemma StepKeepsReserve(v: Vault, step: Step)
    requires v.supply > 0 && v.multiplier > 0 && ReserveCovered(v.reserveUnit, v.supply, v.reserveBalance)
    ensures var v' := Next(v, step); ReserveCovered(v'.reserveUnit, v'.supply, v'.reserveBalance)
  {
    if Accepted(v, step) {
      ScaledSupplyStep(v, step);
      var supply, multiplier := SupplyAfterStep(v, step), MultiplierAfterStep(v, step);
      if multiplier != 0 {
        match step
        case Issue(q, _, terms) =>
          IssueKeepsReserve(
            v.reserveUnit, v.reserveBalance, q, v.supply, supply, multiplier, terms.managerFee, terms.protocolFee);
        case Redeem(quantity, valuation, terms) =>
          RedeemKeepsReserve(
            v.reserveUnit, v.reserveBalance, quantity, valuation, v.supply, supply, multiplier, terms);
        case AccrueFee(f) =>
          AccrualKeepsReserve(v.reserveUnit, v.reserveBalance, v.supply, f);
      }
    }
  }

  lemma StepKeepsSolvent(v: Vault, step: Step)
    requires Solvent(v)
    ensures Solvent(Next(v, step))
  {
    StepKeepsReserve(v, step);
    if Accepted(v, step) {
      ScaledSupplyStep(v, step);
    }
    var v' := Next(v, step);
    assert v'.multiplier * v'.supply <= v.multiplier * v.supply;
    forall i | 0 <= i < |v'.components|
      ensures Backed(v'.components[i], v'.multiplier * v'.supply)
    {
      assert v'.components[i] == v.components[i];
      assert Backed(v.components[i], v.multiplier * v.supply);
      MulMono(v'.multiplier * v'.supply, v.multiplier * v.supply, v.components[i].virtualUnit);
    }
  }

  /** Solvency over whole runs: whatever is issued, redeemed and accrued, in any order and at any
      valuations, the balances stay reconciled. */
  lemma {:induction false} RunStaysSolvent(v: Vault, steps: seq<Step>)
    requires Solvent(v)
    ensures Solvent(Run(v, steps)) && Reconciles(Run(v, steps))
    decreases |steps|
  {
    SolventReconciles(v);
    if steps != [] {
      StepKeepsSolvent(v, steps[0]);
      RunStaysSolvent(Next(v, steps[0]), steps[1..]);
    }
  }

  /** Redeeming all but one token for nothing moves the whole scaled supply into the multiplier. */
  lemma RedeemToOne(v: Vault)
    requires v.supply > 0 && v.multiplier > 0 && ReserveCovered(v.reserveUnit, v.supply, v.reserveBalance)
    requires v.minimumSupply <= 1
    ensures var v' := Next(v, Redeem(v.supply - 1, 0, Terms(1, 0, 0, 0)));
            v'.supply == 1 && v'.multiplier == v.multiplier * v.supply && v'.components == v.components
  {
    MulMono2(1, v.multiplier, 1, v.supply);
    MulMono2(0, v.supply, 0, v.reserveUnit);
    assert RedeemOutflow(v.supply - 1, 0, Terms(1, 0, 0, 0)) == 0;
    MultipliersAreScaledRatio(v.multiplier, v.supply, 1);
    assert UNIT * v.supply / 1 == UNIT * v.supply;
    assert v.multiplier * (UNIT * v.supply) == v.multiplier * v.supply * UNIT;
  }

  lemma ClaimOfOne(unit: int, scaledSupply: int, balance: int)
    requires unit >= 0 && scaledSupply > 0
    requires PreciseMul(PreciseMul(unit, scaledSupply), 1) <= balance
    ensures unit * scaledSupply < (balance + 1) * (UNIT * UNIT)
  {
    MulMono2(0, unit, 0, scaledSupply);
  }

  /** A vault that still reconciles after this redeem is solvent. */
  lemma ReconciledToOne(v: Vault)
    requires v.supply > 0 && v.multiplier > 0 && ReserveCovered(v.reserveUnit, v.supply, v.reserveBalance)
    requires v.minimumSupply <= 1 && forall i :: 0 <= i < |v.components| ==> v.components[i].virtualUnit >= 0
    requires Reconciles(Next(v, Redeem(v.supply - 1, 0, Terms(1, 0, 0, 0))))
    ensures Solvent(v)
  {
    hide Next;
    RedeemToOne(v);
    MulMono2(1, v.multiplier, 1, v.supply);
    forall i | 0 <= i < |v.components|
      ensures Backed(v.components[i], v.multiplier * v.supply)
    {
      ClaimOfOne(v.components[i].virtualUnit, v.multiplier * v.supply, v.components[i].balance);
    }
  }

  ghost predicate AlwaysReconciles(v: Vault) {
    forall steps :: Reconciles(Run(v, steps))
  }

  /** Exactly when, if redeems may leave a single unit of supply: the balance check holds after every run iff it holds
      for the reserve now and every other unrounded claim, virtual unit times multiplier times supply, stays below one
      unit more than its balance. */
  lemma SolventIffAlwaysReconciles(v: Vault)
    requires v.supply > 0 && v.multiplier > 0 && v.reserveUnit >= 0
    requires v.minimumSupply <= 1 && forall i :: 0 <= i < |v.components| ==> v.components[i].virtualUnit >= 0
    ensures AlwaysReconciles(v) <==>
            && ReserveCovered(v.reserveUnit, v.supply, v.reserveBalance)
            && forall i :: 0 <= i < |v.components| ==> Backed(v.components[i], v.multiplier * v.supply)
  {
    hide Next, PreciseMul;
    var redeem := Redeem(v.supply - 1, 0, Terms(1, 0, 0, 0));
    RunOne(v, redeem);
    if AlwaysReconciles(v) {
      assert Reconciles(Run(v, [])) && Reconciles(Run(v, [redeem]));
      ReconciledToOne(v);
    }
    if Solvent(v) {
      forall steps
        ensures Reconciles(Run(v, steps))
      {
        RunStaysSolvent(v, steps);
      }
    }
  }

  lemma RunOne(v: Vault, step: Step)
    ensures Run(v, [step]) == Next(v, step)
  {
    assert Run(Next(v, step), []) == Next(v, step);
  }

  /** What rounding may take from the scaled supply over a run, step by step. */
  function RunLoss(v: Vault, steps: seq<Step>): int
    decreases |steps|
  {
    if steps == [] then 0
    else
      (if TakesEffect(v, steps[0]) then StepLoss(v, steps[0]) else 0)
      + RunLoss(Next(v, steps[0]), steps[1..])
  }

  /** Bounded drift: multiplier times supply never grows over a run, and shrinks by at most the sum of the
      rounding losses of its steps. */
  lemma {:induction false} RunDriftBounded(v: Vault, steps: seq<Step>)
    requires Solvent(v)
    ensures var v' := Run(v, steps);
            && v'.multiplier * v'.supply <= v.multiplier * v.supply
            && UNIT * (v.multiplier * v.supply - v'.multiplier * v'.supply) <= RunLoss(v, steps)
    decreases |steps|
  {
    if steps != [] {
      StepKeepsSolvent(v, steps[0]);
      if Accepted(v, steps[0]) {
        ScaledSupplyStep(v, steps[0]);
      }
      RunDriftBounded(Next(v, steps[0]), steps[1..]);
    }
  }

  // ----- Issue and redeem undo each other

  /** Issuing and redeeming the issued quantity, at any valuation the assets back, brings the supply back and
      leaves the vault no poorer: its reserve balance does not fall, its multiplier does not rise and the
      other components are untouched. */
  lemma RoundTripNeverDrains(v: Vault, q: int, valuation: int, terms: Terms, valuation': int, redeemTerms: Terms)
    requires Solvent(v) && terms.baseUnits == redeemTerms.baseUnits != 0
    ensures var issue := Issue(q, valuation, terms);
            match ExpectedSetTokenIssueQuantity(valuation, v.supply, q, terms)
            case None => true
            case Some(out) =>
              var v1, redeem := Next(v, issue), Redeem(out, valuation', redeemTerms);
              var v2 := Next(v1, redeem);
              && TakesEffect(v, issue) && TakesEffect(v1, redeem)
              && valuation' * v1.supply <=
                 (PreciseMul(v.supply, valuation) + QuoteIssue(valuation, v.supply, q, terms).normalizedSubFees) * UNIT
              ==>
              && v2.supply == v.supply && v2.components == v.components
              && v2.reserveBalance >= v.reserveBalance
              && v2.multiplier <= v.multiplier
  {
    hide QuoteIssue;
    var issue := Issue(q, valuation, terms);
    match ExpectedSetTokenIssueQuantity(valuation, v.supply, q, terms)
    case None =>
    case Some(out) =>
      var v1, redeem := Next(v, issue), Redeem(out, valuation', redeemTerms);
      if TakesEffect(v, issue) && TakesEffect(v1, redeem) {
        RoundTripMultiplier(v, issue, redeem);
        var feeless := redeemTerms.(managerFee := 0, protocolFee := 0);
        OutflowIsFeelessPayout(out, valuation', redeemTerms);
        RoundTripNeverProfits(valuation, v.supply, q, terms, valuation', feeless);
        DepositBounds(valuation, v.supply, q, terms);
        SubFeesIsPostFee(valuation, v.supply, q, terms);
      }
  }

  lemma SubFeesIsPostFee(valuation: int, supply: int, q: int, terms: Terms)
    requires terms.baseUnits != 0
    ensures QuoteIssue(valuation, supply, q, terms).subFees ==
            ExpectedPostFeeQuantity(q, terms.managerFee, terms.protocolFee)
  {
  }

  lemma RoundTripMultiplier(v: Vault, issue: Step, redeem: Step)
    requires Solvent(v) && TakesEffect(v, issue) && TakesEffect(Next(v, issue), redeem)
    requires SupplyAfterStep(Next(v, issue), redeem) == v.supply
    ensures MultiplierAfterStep(Next(v, issue), redeem) <= v.multiplier
  {
    var v1 := Next(v, issue);
    StepKeepsSolvent(v, issue);
    ScaledSupplyStep(v, issue);
    ScaledSupplyStep(v1, redeem);
    MulCancel(MultiplierAfterStep(v1, redeem), v.multiplier, v.supply);
  }
}
