/** The seven reference functions of utils/common/navIssuanceModuleUtils.ts. Valuations and supplies
    that the source awaits from the chain are plain inputs; dividing by zero throws in the source. */
module NavIssuance {
  import opened MathUtils
  import opened Options

  /** The parameters of an issue or a redeem that stay fixed while quantities vary. */
  datatype Terms = Terms(baseUnits: int, managerFee: int, protocolFee: int, premium: int) {
    /** Percentages are fractions of UNIT; the two fees together take at most everything. */
    predicate Valid() {
      && baseUnits > 0
      && 0 <= managerFee && 0 <= protocolFee && managerFee + protocolFee <= UNIT
      && 0 <= premium <= UNIT
    }
  }

  /** The intermediate quantities of an issue. */
  datatype IssueQuote = IssueQuote(
    subFees: int, subFeesAndPremium: int,
    normalizedSubFees: int, normalizedSubFeesAndPremium: int,
    denominator: int)

  function ExpectedIssuePositionMultiplier(
    previousPositionMultiplier: int, previousSupply: int, currentSupply: int): int
  {
    var inflation := PreciseDivCeil(currentSupply - previousSupply, currentSupply);
    PreciseMul(previousPositionMultiplier, UNIT - inflation)
  }

  function ExpectedRedeemPositionMultiplier(
    previousPositionMultiplier: int, previousSupply: int, currentSupply: int): int
    requires currentSupply != 0
  {
    var deflation := PreciseDiv(previousSupply - currentSupply, currentSupply);
    PreciseMul(previousPositionMultiplier, UNIT + deflation)
  }

  function ExpectedPostFeeQuantity(quantity: int, managerFee: int, protocolFee: int): int {
    var managerFees := PreciseMul(quantity, managerFee);
    var protocolDirectFees := PreciseMul(quantity, protocolFee);
    quantity - managerFees - protocolDirectFees
  }

  function QuoteIssue(valuation: int, supply: int, reserveQuantity: int, terms: Terms): IssueQuote
    requires terms.baseUnits != 0
  {
    var subFees := ExpectedPostFeeQuantity(reserveQuantity, terms.managerFee, terms.protocolFee);
    var subFeesAndPremium := subFees - PreciseMul(subFees, terms.premium);
    var normalizedSubFees := PreciseDiv(subFees, terms.baseUnits);
    var normalizedSubFeesAndPremium := PreciseDiv(subFeesAndPremium, terms.baseUnits);
    var denominator := PreciseMul(supply, valuation) + normalizedSubFees - normalizedSubFeesAndPremium;
    IssueQuote(subFees, subFeesAndPremium, normalizedSubFees, normalizedSubFeesAndPremium, denominator)
  }

  /** None where the source throws on a division by zero. */
  function ExpectedSetTokenIssueQuantity(
    valuation: int, supply: int, reserveQuantity: int, terms: Terms): Option<int>
  {
    if terms.baseUnits == 0 then None
    else
      var quote := QuoteIssue(valuation, supply, reserveQuantity, terms);
      if quote.denominator == 0 then None
      else Some(PreciseDiv(PreciseMul(quote.normalizedSubFeesAndPremium, supply), quote.denominator))
  }

  /** A real unit as the contracts return it after storing it as a virtual one. */
  function RoundToVirtual(unit: int, multiplier: int): int
    requires multiplier != 0
  {
    PreciseDiv(PreciseMul(unit, multiplier), multiplier)
  }

  function ExpectedIssuePositionUnit(
    previousUnits: int, issueQuantity: int, previousSupply: int, currentSupply: int,
    newPositionMultiplier: int, managerFee: int, protocolFee: int): int
    requires currentSupply != 0 && newPositionMultiplier != 0
  {
    var issueQuantitySubFees := ExpectedPostFeeQuantity(issueQuantity, managerFee, protocolFee);
    var numerator := PreciseMul(previousSupply, previousUnits) + issueQuantitySubFees;
    RoundToVirtual(PreciseDiv(numerator, currentSupply), newPositionMultiplier)
  }

  /** Value of the redeemed tokens after the premium, before fees. */
  function RedeemSubPremium(setTokenQuantity: int, valuation: int, premium: int): int {
    var totalNotional := PreciseMul(valuation, setTokenQuantity);
    totalNotional - PreciseMulCeil(totalNotional, premium)
  }

  function ExpectedReserveRedeemQuantity(setTokenQuantity: int, valuation: int, terms: Terms): int {
    var subPremium := RedeemSubPremium(setTokenQuantity, valuation, terms.premium);
    PreciseMul(ExpectedPostFeeQuantity(subPremium, terms.managerFee, terms.protocolFee), terms.baseUnits)
  }

  /** What leaves the set on a redeem: the payout and the fees together. */
  function RedeemOutflow(setTokenQuantity: int, valuation: int, terms: Terms): int {
    PreciseMul(RedeemSubPremium(setTokenQuantity, valuation, terms.premium), terms.baseUnits)
  }

  function ExpectedRedeemPositionUnit(
    previousUnits: int, setTokenQuantity: int, valuation: int, previousSupply: int, currentSupply: int,
    newPositionMultiplier: int, terms: Terms): int
    requires currentSupply != 0 && newPositionMultiplier != 0
  {
    var numerator :=
      PreciseMul(previousSupply, previousUnits) - RedeemOutflow(setTokenQuantity, valuation, terms);
    RoundToVirtual(PreciseDiv(numerator, currentSupply), newPositionMultiplier)
  }
}
