/** The NAV reference functions pinned down from their inputs alone, rounding by rounding: what an issue mints, what
    a redeem pays, and the position units after either. */
module NavExactness {
  import opened BigNumbers
  import opened MathUtils
  import opened NavIssuance
  import opened NavProperties
  import opened Options

  // ----- The quantities of an issue

  /** What the two separately floored fees leave of a quantity. */
  function PostFee(q: int, f1: int, f2: int): int {
    CeilDiv(q * (UNIT - f1 - f2), UNIT) + (if q * f1 % UNIT + q * f2 % UNIT >= UNIT then 1 else 0)
  }

  lemma PreciseFloors(a: int, b: int)
    requires a >= 0 && b > 0
    ensures PreciseDiv(a, b) == a * UNIT / b >= 0
  {
    DivGalois(0, a * UNIT, b);
  }

  lemma ProductFloors(a: int, b: int)
    requires a >= 0 && b >= 0
    ensures PreciseMul(a, b) == a * b / UNIT >= 0
  {
    MulMono2(0, a, 0, b);
  }

  /** The floored premium leaves the ceiling of the rest. */
  lemma PremiumLeavesCeiling(amount: int, premium: int)
    requires amount >= 0 && 0 <= premium <= UNIT
    ensures amount - PreciseMul(amount, premium) == CeilDiv(amount * (UNIT - premium), UNIT)
  {
    MulMono2(0, amount, 0, premium);
    assert amount * (UNIT - premium) == amount * UNIT - amount * premium;
    CeilUnique(amount * (UNIT - premium), UNIT, amount - PreciseMul(amount, premium));
  }

  /** Every amount of an issue, from the inputs. */
  lemma QuoteExact(valuation: int, supply: int, q: int, terms: Terms)
    requires valuation >= 0 && supply >= 0 && q >= 0 && terms.Valid()
    ensures var quote := QuoteIssue(valuation, supply, q, terms);
            && quote.subFees == PostFee(q, terms.managerFee, terms.protocolFee)
            && quote.subFeesAndPremium == CeilDiv(quote.subFees * (UNIT - terms.premium), UNIT)
            && quote.normalizedSubFees == quote.subFees * UNIT / terms.baseUnits
            && quote.normalizedSubFeesAndPremium == quote.subFeesAndPremium * UNIT / terms.baseUnits
            && quote.denominator ==
               supply * valuation / UNIT + quote.normalizedSubFees - quote.normalizedSubFeesAndPremium
  {
    DepositBounds(valuation, supply, q, terms);
    PostFeeQuantityExact(q, terms.managerFee, terms.protocolFee);
    var quote := QuoteIssue(valuation, supply, q, terms);
    PremiumLeavesCeiling(quote.subFees, terms.premium);
    PreciseFloors(quote.subFees, terms.baseUnits);
    PreciseFloors(quote.subFeesAndPremium, terms.baseUnits);
    ProductFloors(supply, valuation);
  }

  /** The issued quantity is the largest whose share of the denominator the floored product covers. */
  lemma IssuedQuantityIsLargest(valuation: int, supply: int, q: int, terms: Terms, quantity: int)
    requires valuation >= 0 && supply >= 0 && q >= 0 && terms.Valid()
    ensures var quote := QuoteIssue(valuation, supply, q, terms);
            match ExpectedSetTokenIssueQuantity(valuation, supply, q, terms)
            case None => quote.denominator == 0
            case Some(out) =>
              quantity <= out <==>
              quantity * quote.denominator <= quote.normalizedSubFeesAndPremium * supply / UNIT * UNIT
  {
    IssueNeverDilutes(valuation, supply, q, terms);
    DepositBounds(valuation, supply, q, terms);
    var quote := QuoteIssue(valuation, supply, q, terms);
    if quote.denominator != 0 {
      ProductFloors(quote.normalizedSubFeesAndPremium, supply);
      var product := quote.normalizedSubFeesAndPremium * supply / UNIT;
      PreciseFloors(product, quote.denominator);
      DivGalois(quantity, product * UNIT, quote.denominator);
    }
  }

  // ----- The issued quantity against exact arithmetic

  /** The deposit net of fees and premium times the supply, scaled by baseUnits times UNIT. */
  function ScaledDeposit(supply: int, q: int, terms: Terms): int {
    q * (UNIT - terms.managerFee - terms.protocolFee) * (UNIT - terms.premium) * supply
  }

  /** The value of the set and of the premium, scaled likewise. */
  function ScaledAssets(valuation: int, supply: int, q: int, terms: Terms): int {
    supply * valuation * terms.baseUnits
    + q * (UNIT - terms.managerFee - terms.protocolFee) * terms.premium
  }

  /** How far rounding can move the deposit and the assets in this scale. */
  function Rounded(baseUnits: int): int {
    UNIT * (2 * baseUnits + 3 * UNIT)
  }

  lemma ScaledQuote(valuation: int, supply: int, q: int, terms: Terms)
    requires valuation >= 0 && supply >= 0 && q >= 0 && terms.Valid()
    ensures var quote := QuoteIssue(valuation, supply, q, terms);
            var scale, b := UNIT * terms.baseUnits, terms.baseUnits;
            var exact := q * (UNIT - terms.managerFee - terms.protocolFee) * (UNIT - terms.premium);
            && exact - UNIT * b < quote.normalizedSubFeesAndPremium * scale < exact + 3 * UNIT * UNIT
            && ScaledAssets(valuation, supply, q, terms) - Rounded(b)
               < quote.denominator * scale
               < ScaledAssets(valuation, supply, q, terms) + Rounded(b)
  {
    hide QuoteIssue, PostFee, CeilDiv;
    QuoteExact(valuation, supply, q, terms);
    var quote := QuoteIssue(valuation, supply, q, terms);
    var g, k, b := UNIT - terms.managerFee - terms.protocolFee, UNIT - terms.premium, terms.baseUnits;
    PostFeeBounds(q, terms.managerFee, terms.protocolFee);
    DivBounds(quote.subFees * UNIT, b);
    DivBounds(quote.subFeesAndPremium * UNIT, b);
    DivBounds(supply * valuation, UNIT);
    DepositStage(q * g, k, b, quote.subFees, quote.subFeesAndPremium, quote.normalizedSubFeesAndPremium);
    FeesStage(q * g, b, quote.subFees, quote.normalizedSubFees);
    ValueStage(supply * valuation, b, supply * valuation / UNIT);
    DenominatorStage(
      supply * valuation, q * g, terms.premium, b, supply * valuation / UNIT, quote.normalizedSubFees,
      quote.normalizedSubFeesAndPremium);
  }

  lemma PostFeeBounds(q: int, f1: int, f2: int)
    requires q >= 0 && f1 >= 0 && f2 >= 0 && f1 + f2 <= UNIT
    ensures 0 <= q * (UNIT - f1 - f2) <= PostFee(q, f1, f2) * UNIT < q * (UNIT - f1 - f2) + 2 * UNIT
  {
    MulMono2(0, q, 0, UNIT - f1 - f2);
  }

  lemma DenominatorStage(v: int, x: int, premium: int, b: int, value: int, deposit: int, net: int)
    requires b > 0
    requires v * b - UNIT * b < value * (UNIT * b) <= v * b
    requires x * UNIT - UNIT * b < deposit * (UNIT * b) < x * UNIT + 2 * UNIT * UNIT
    requires x * (UNIT - premium) - UNIT * b < net * (UNIT * b) < x * (UNIT - premium) + 3 * UNIT * UNIT
    ensures v * b + x * premium - Rounded(b) < (value + deposit - net) * (UNIT * b) < v * b + x * premium + Rounded(b)
  {
    var scale := UNIT * b;
    assert x * (UNIT - premium) == x * UNIT - x * premium;
    assert (value + deposit - net) * scale == value * scale + deposit * scale - net * scale;
  }

  lemma DepositStage(x: int, k: int, b: int, sub: int, rest: int, net: int)
    requires 0 <= k <= UNIT && b > 0 && x >= 0
    requires x <= sub * UNIT < x + 2 * UNIT
    requires sub * k <= rest * UNIT < sub * k + UNIT
    requires net * b <= rest * UNIT < (net + 1) * b
    ensures x * k - UNIT * b < net * (UNIT * b) < x * k + 3 * UNIT * UNIT
  {
    MulMono(x, sub * UNIT, k);
    MulMono(sub * UNIT, x + 2 * UNIT, k);
    assert sub * UNIT * k == sub * k * UNIT;
    assert (x + 2 * UNIT) * k == x * k + 2 * UNIT * k;
    assert net * (UNIT * b) == net * b * UNIT && (net + 1) * b == net * b + b;
  }

  lemma FeesStage(x: int, b: int, sub: int, deposit: int)
    requires b > 0
    requires x <= sub * UNIT < x + 2 * UNIT
    requires deposit * b <= sub * UNIT < (deposit + 1) * b
    ensures x * UNIT - UNIT * b < deposit * (UNIT * b) < x * UNIT + 2 * UNIT * UNIT
  {
    assert deposit * (UNIT * b) == deposit * b * UNIT && (deposit + 1) * b == deposit * b + b;
  }

  lemma ValueStage(x: int, b: int, value: int)
    requires b > 0 && value * UNIT <= x < (value + 1) * UNIT
    ensures x * b - UNIT * b < value * (UNIT * b) <= x * b
  {
    MulMono(value * UNIT, x, b);
    MulMono(x + 1, (value + 1) * UNIT, b);
    assert value * (UNIT * b) == value * UNIT * b;
    assert (value + 1) * UNIT * b == value * UNIT * b + UNIT * b && (x + 1) * b == x * b + b;
  }

  /** The issued tokens are the deposit net of fees and premium, times the supply, over the assets that stay with the
      others: the bounds collect the roundings of the deposit (one unit down, three up), of the assets, and of
      the two last divisions. */
  lemma IssueMintsFairShare(valuation: int, supply: int, q: int, terms: Terms)
    requires valuation >= 0 && supply >= 0 && q >= 0 && terms.Valid()
    ensures var deposit, assets := ScaledDeposit(supply, q, terms), ScaledAssets(valuation, supply, q, terms);
            var b, slack := terms.baseUnits, Rounded(terms.baseUnits);
            match ExpectedSetTokenIssueQuantity(valuation, supply, q, terms)
            case None => true
            case Some(out) =>
              && out * assets <= deposit + 3 * UNIT * UNIT * supply + out * slack
              && out * assets > deposit - UNIT * b * supply - assets - slack - UNIT * UNIT * b - out * slack
  {
    hide QuoteIssue, ScaledAssets;
    IssueNeverDilutes(valuation, supply, q, terms);
    ScaledQuote(valuation, supply, q, terms);
    var quote := QuoteIssue(valuation, supply, q, terms);
    match ExpectedSetTokenIssueQuantity(valuation, supply, q, terms)
    case None =>
    case Some(out) =>
      var assets := ScaledAssets(valuation, supply, q, terms);
      FairShareArithmetic(
        out, quote.denominator, quote.normalizedSubFeesAndPremium, supply, UNIT * terms.baseUnits,
        q * (UNIT - terms.managerFee - terms.protocolFee) * (UNIT - terms.premium), assets,
        Rounded(terms.baseUnits));
      assert UNIT * (UNIT * terms.baseUnits) == UNIT * UNIT * terms.baseUnits;
  }

  lemma FairShareArithmetic(
    out: int, den: int, net: int, supply: int, scale: int, deposit: int, assets: int, slack: int)
    requires out >= 0 && supply >= 0 && scale > 0
    requires net * supply - den - UNIT < out * den <= net * supply
    requires deposit - scale < net * scale < deposit + 3 * UNIT * UNIT
    requires assets - slack < den * scale < assets + slack
    ensures out * assets <= deposit * supply + 3 * UNIT * UNIT * supply + out * slack
    ensures out * assets > deposit * supply - scale * supply - assets - slack - UNIT * scale - out * slack
  {
    MulMono(assets - slack, den * scale, out);
    MulMono(den * scale, assets + slack, out);
    MulMono(net * scale, deposit + 3 * UNIT * UNIT, supply);
    MulMono(deposit - scale, net * scale, supply);
    MulMono(out * den, net * supply, scale);
    MulMono(net * supply - den - UNIT, out * den, scale);
    assert den * scale * out == out * den * scale && net * scale * supply == net * supply * scale;
    assert (net * supply - den - UNIT) * scale == net * supply * scale - den * scale - UNIT * scale;
    assert out * (assets - slack) == out * assets - out * slack;
    assert out * (assets + slack) == out * assets + out * slack;
    assert (deposit - scale) * supply == deposit * supply - scale * supply;
    assert (deposit + 3 * UNIT * UNIT) * supply == deposit * supply + 3 * UNIT * UNIT * supply;
  }

  // ----- The quantities of a redeem

  /** What the redeemed tokens are worth after the premium, in reserve units, from the inputs. */
  function RedeemValue(quantity: int, valuation: int, premium: int): int {
    (valuation * quantity / UNIT) * (UNIT - premium) / UNIT
  }

  /** The payout and the outflow, from the inputs. */
  lemma RedeemExact(quantity: int, valuation: int, terms: Terms)
    requires quantity >= 0 && valuation >= 0 && terms.Valid()
    ensures var value := RedeemValue(quantity, valuation, terms.premium);
            && ExpectedReserveRedeemQuantity(quantity, valuation, terms) ==
               PostFee(value, terms.managerFee, terms.protocolFee) * terms.baseUnits / UNIT
            && RedeemOutflow(quantity, valuation, terms) == value * terms.baseUnits / UNIT >= 0
  {
    ProductFloors(valuation, quantity);
    var notional := PreciseMul(valuation, quantity);
    PremiumComplement(notional, terms.premium);
    ProductFloors(notional, UNIT - terms.premium);
    var value := RedeemValue(quantity, valuation, terms.premium);
    PostFeeQuantityExact(value, terms.managerFee, terms.protocolFee);
    ProductFloors(ExpectedPostFeeQuantity(value, terms.managerFee, terms.protocolFee), terms.baseUnits);
    ProductFloors(value, terms.baseUnits);
  }

  // ----- Position units

  /** The largest real unit that survives storing as a virtual one, when an amount is spread over the supply: a
      virtual unit v fits if it stands for no more than each token's part, and reads back as v * UNIT / multiplier. */
  ghost predicate LargestStored(amount: int, supply: int, multiplier: int, unit: int)
    requires supply > 0 && multiplier > 0
  {
    var spread := amount * UNIT / supply;
    && (exists v :: 0 <= v && Fits(v, spread, multiplier) && v * UNIT / multiplier == unit)
    && (forall v :: Fits(v, spread, multiplier) ==> v * UNIT / multiplier <= unit)
  }

  ghost predicate Fits(v: int, spread: int, multiplier: int) {
    v * UNIT <= spread * multiplier
  }

  lemma RoundToVirtualExact(spread: int, multiplier: int, v: int)
    requires spread >= 0 && multiplier > 0
    ensures var stored := spread * multiplier / UNIT;
            && 0 <= stored && Fits(stored, spread, multiplier)
            && RoundToVirtual(spread, multiplier) == stored * UNIT / multiplier
            && (Fits(v, spread, multiplier) ==> v * UNIT / multiplier <= stored * UNIT / multiplier)
  {
    ProductFloors(spread, multiplier);
    var stored := spread * multiplier / UNIT;
    PreciseFloors(stored, multiplier);
    DivGalois(stored, spread * multiplier, UNIT);
    if Fits(v, spread, multiplier) {
      DivGalois(v, spread * multiplier, UNIT);
      DivMono(v * UNIT, stored * UNIT, multiplier);
    }
  }

  lemma SpreadUnitExact(amount: int, supply: int, multiplier: int)
    requires amount >= 0 && supply > 0 && multiplier > 0
    ensures LargestStored(amount, supply, multiplier, RoundToVirtual(PreciseDiv(amount, supply), multiplier))
  {
    PreciseFloors(amount, supply);
    var spread := amount * UNIT / supply;
    RoundToVirtualExact(spread, multiplier, 0);
    forall v | Fits(v, spread, multiplier)
      ensures v * UNIT / multiplier <= RoundToVirtual(spread, multiplier)
    {
      RoundToVirtualExact(spread, multiplier, v);
    }
  }

  /** After an issue: the largest such unit for what the supply was worth before plus the deposit net of fees. */
  lemma IssueUnitExact(
    unit: int, q: int, previous: int, current: int, multiplier: int, f1: int, f2: int)
    requires unit >= 0 && q >= 0 && previous >= 0 && current > 0 && multiplier > 0
    requires f1 >= 0 && f2 >= 0 && f1 + f2 <= UNIT
    ensures LargestStored(
              previous * unit / UNIT + PostFee(q, f1, f2), current, multiplier,
              ExpectedIssuePositionUnit(unit, q, previous, current, multiplier, f1, f2))
  {
    PostFeeQuantityExact(q, f1, f2);
    ProductFloors(previous, unit);
    SpreadUnitExact(previous * unit / UNIT + PostFee(q, f1, f2), current, multiplier);
  }

  /** After a redeem: for what it was worth before less what left. */
  lemma RedeemUnitExact(
    unit: int, quantity: int, valuation: int, previous: int, current: int, multiplier: int, terms: Terms)
    requires unit >= 0 && quantity >= 0 && valuation >= 0 && previous >= 0 && current > 0 && multiplier > 0
    requires terms.Valid()
    requires RedeemValue(quantity, valuation, terms.premium) * terms.baseUnits / UNIT <= previous * unit / UNIT
    ensures LargestStored(
              previous * unit / UNIT - RedeemValue(quantity, valuation, terms.premium) * terms.baseUnits / UNIT,
              current, multiplier,
              ExpectedRedeemPositionUnit(unit, quantity, valuation, previous, current, multiplier, terms))
  {
    RedeemExact(quantity, valuation, terms);
    ProductFloors(previous, unit);
    SpreadUnitExact(previous * unit / UNIT - RedeemOutflow(quantity, valuation, terms), current, multiplier);
  }
}
