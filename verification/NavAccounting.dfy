/** How closely the NAV reference functions follow exact arithmetic: the position unit after an issue or a
    redeem, and the redeemer's payout. */
module NavAccounting {
  import opened BigNumbers
  import opened MathUtils
  import opened NavIssuance
  import opened NavProperties

  // ----- Position units

  lemma RoundToVirtualLoss(unit: int, multiplier: int)
    requires unit >= 0 && multiplier > 0
    ensures 0 <= RoundToVirtual(unit, multiplier) <= unit
    ensures (unit - RoundToVirtual(unit, multiplier)) * multiplier < multiplier + UNIT
  {
  }

  /** The unit accounts for the amount: it never claims more over the whole supply, and what it leaves
      unclaimed is bounded by the two roundings. */
  ghost predicate Accounts(amount: int, supply: int, multiplier: int, unit: int) {
    && unit >= 0
    && unit * supply <= amount * UNIT
    && multiplier * (amount * UNIT - unit * supply) < supply * (2 * multiplier + UNIT)
  }

  lemma SpreadUnitAccounts(amount: int, supply: int, multiplier: int)
    requires amount >= 0 && supply > 0 && multiplier > 0
    ensures Accounts(amount, supply, multiplier, RoundToVirtual(PreciseDiv(amount, supply), multiplier))
  {
    var exact := PreciseDiv(amount, supply);
    RoundToVirtualLoss(exact, multiplier);
    SpreadArithmetic(amount, supply, multiplier, exact, RoundToVirtual(exact, multiplier));
  }

  lemma SpreadArithmetic(amount: int, supply: int, m: int, exact: int, unit: int)
    requires supply > 0 && m > 0 && 0 <= unit <= exact
    requires exact * supply <= amount * UNIT < (exact + 1) * supply
    requires (exact - unit) * m < m + UNIT
    ensures Accounts(amount, supply, m, unit)
  {
  }

  /** After an issue the unit accounts for what the supply was worth before plus the deposit net of fees. */
  lemma IssueUnitAccounts(
    unit: int, q: int, previous: int, current: int, multiplier: int, f1: int, f2: int)
    requires unit >= 0 && q >= 0 && previous >= 0 && current > 0 && multiplier > 0
    requires f1 >= 0 && f2 >= 0 && f1 + f2 <= UNIT
    ensures Accounts(
              PreciseMul(previous, unit) + ExpectedPostFeeQuantity(q, f1, f2), current, multiplier,
              ExpectedIssuePositionUnit(unit, q, previous, current, multiplier, f1, f2))
  {
    PostFeeQuantityExact(q, f1, f2);
    MulMono2(0, previous, 0, unit);
    SpreadUnitAccounts(PreciseMul(previous, unit) + ExpectedPostFeeQuantity(q, f1, f2), current, multiplier);
  }

  /** After a redeem it accounts for what was there before less what left. */
  lemma RedeemUnitAccounts(
    unit: int, quantity: int, valuation: int, previous: int, current: int, multiplier: int, terms: Terms)
    requires current > 0 && multiplier > 0
    requires RedeemOutflow(quantity, valuation, terms) <= PreciseMul(previous, unit)
    ensures Accounts(
              PreciseMul(previous, unit) - RedeemOutflow(quantity, valuation, terms), current, multiplier,
              ExpectedRedeemPositionUnit(unit, quantity, valuation, previous, current, multiplier, terms))
  {
    SpreadUnitAccounts(PreciseMul(previous, unit) - RedeemOutflow(quantity, valuation, terms), current, multiplier);
  }

  // ----- The payout of a redeem

  /** Without fees everything that leaves the set is the payout. */
  lemma OutflowIsFeelessPayout(quantity: int, valuation: int, terms: Terms)
    ensures RedeemOutflow(quantity, valuation, terms) ==
            ExpectedReserveRedeemQuantity(quantity, valuation, terms.(managerFee := 0, protocolFee := 0))
  {
  }

  /** The exact payout, scaled by UNIT to the fourth. */
  function ScaledPayout(quantity: int, valuation: int, terms: Terms): int {
    valuation * quantity * (UNIT - terms.premium) * (UNIT - terms.managerFee - terms.protocolFee) * terms.baseUnits
  }

  /** The payout is valuation times quantity less premium and fees: at most one unit plus twice baseUnits / UNIT
      below the exact value and at most twice baseUnits / UNIT above it. */
  lemma RedeemPaysFairValue(quantity: int, valuation: int, terms: Terms)
    requires quantity >= 0 && valuation >= 0 && terms.Valid()
    ensures var payout := ExpectedReserveRedeemQuantity(quantity, valuation, terms);
            var exact := ScaledPayout(quantity, valuation, terms);
            exact - UNIT * UNIT * UNIT * (2 * terms.baseUnits + UNIT)
            < payout * (UNIT * UNIT * UNIT * UNIT)
            <= exact + UNIT * UNIT * UNIT * (2 * terms.baseUnits)
  {
    var k, g, b := UNIT - terms.premium, UNIT - terms.managerFee - terms.protocolFee, terms.baseUnits;
    MulMono2(0, valuation, 0, quantity);
    var notional := PreciseMul(valuation, quantity);
    PremiumComplement(notional, terms.premium);
    MulMono2(0, notional, 0, k);
    var sub := RedeemSubPremium(quantity, valuation, terms.premium);
    PostFeeQuantityExact(sub, terms.managerFee, terms.protocolFee);
    var net := ExpectedPostFeeQuantity(sub, terms.managerFee, terms.protocolFee);
    MulMono2(0, net, 0, b);
    PremiumStage(valuation * quantity, k, notional, sub);
    FeeStage(valuation * quantity * k, g, sub, net);
    BaseStage(valuation * quantity * k * g, b, net, PreciseMul(net, b));
  }

  lemma PremiumStage(x: int, k: int, notional: int, sub: int)
    requires 0 <= k <= UNIT
    requires notional * UNIT <= x < (notional + 1) * UNIT
    requires sub * UNIT <= notional * k < (sub + 1) * UNIT
    ensures x * k - 2 * UNIT * UNIT < sub * (UNIT * UNIT) <= x * k
  {
    MulMono(notional * UNIT, x, k);
    MulMono(x, (notional + 1) * UNIT, k);
    assert notional * UNIT * k == notional * k * UNIT;
    assert (notional + 1) * UNIT * k == notional * k * UNIT + k * UNIT;
  }

  lemma FeeStage(y: int, g: int, sub: int, net: int)
    requires 0 <= g <= UNIT
    requires y - 2 * UNIT * UNIT < sub * (UNIT * UNIT) <= y
    requires sub * g <= net * UNIT < sub * g + 2 * UNIT
    ensures y * g - 2 * UNIT * UNIT * UNIT <= net * (UNIT * UNIT * UNIT) <= y * g + 2 * UNIT * UNIT * UNIT
  {
    MulMono(sub * (UNIT * UNIT), y, g);
    MulMono(y - 2 * UNIT * UNIT, sub * (UNIT * UNIT), g);
    assert sub * (UNIT * UNIT) * g == sub * g * (UNIT * UNIT);
    assert (y - 2 * UNIT * UNIT) * g == y * g - 2 * UNIT * UNIT * g;
  }

  lemma BaseStage(z: int, b: int, net: int, payout: int)
    requires b > 0
    requires z - 2 * UNIT * UNIT * UNIT <= net * (UNIT * UNIT * UNIT) <= z + 2 * UNIT * UNIT * UNIT
    requires payout * UNIT <= net * b < (payout + 1) * UNIT
    ensures z * b - UNIT * UNIT * UNIT * (2 * b + UNIT)
            < payout * (UNIT * UNIT * UNIT * UNIT)
            <= z * b + UNIT * UNIT * UNIT * (2 * b)
  {
    var cube := UNIT * UNIT * UNIT;
    MulMono(z - 2 * cube, net * cube, b);
    MulMono(net * cube, z + 2 * cube, b);
    assert net * cube * b == net * b * cube;
    assert (z - 2 * cube) * b == z * b - 2 * b * cube;
    assert (z + 2 * cube) * b == z * b + 2 * b * cube;
  }
}
