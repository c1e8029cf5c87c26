/** Fees, premium and multiplier laws, no dilution on issue, and no profit on a round trip. */
module NavProperties {
  import opened BigNumbers
  import opened MathUtils
  import opened NavIssuance
  import opened Options

  // ----- Fees and premium

  /** The exact post-fee quantity: each fee is floored on its own, so one unit more than the ceiling of
      the combined share stays exactly when the two dropped fractions add up to a whole unit. */
  lemma PostFeeQuantityExact(q: int, f1: int, f2: int)
    requires q >= 0 && f1 >= 0 && f2 >= 0 && f1 + f2 <= UNIT
    ensures ExpectedPostFeeQuantity(q, f1, f2) ==
            CeilDiv(q * (UNIT - f1 - f2), UNIT) + (if q * f1 % UNIT + q * f2 % UNIT >= UNIT then 1 else 0)
    ensures 0 <= ExpectedPostFeeQuantity(q, f1, f2) <= q
  {
    var p1, p2 := q * f1, q * f2;
    MulMono2(0, q, 0, f1);
    MulMono2(0, q, 0, f2);
    assert q * (UNIT - f1 - f2) == q * UNIT - p1 - p2;
    var d1, d2 := p1 / UNIT, p2 / UNIT;
    assert PreciseMul(q, f1) == d1 && PreciseMul(q, f2) == d2;
    MulMono2(0, q, 0, UNIT - f1 - f2);
    if p1 % UNIT + p2 % UNIT >= UNIT {
      CeilUnique(q * UNIT - p1 - p2, UNIT, q - d1 - d2 - 1);
    } else {
      CeilUnique(q * UNIT - p1 - p2, UNIT, q - d1 - d2);
    }
  }

  lemma CeilMono(m: int, n: int, d: int)
    requires d > 0 && m <= n
    ensures CeilDiv(m, d) <= CeilDiv(n, d)
  {
  }

  /** A larger deposit can leave less after fees, but never by more than one unit. */
  lemma PostFeeQuantityAlmostMonotone(q: int, q': int, f1: int, f2: int)
    requires 0 <= q <= q' && f1 >= 0 && f2 >= 0 && f1 + f2 <= UNIT
    ensures ExpectedPostFeeQuantity(q', f1, f2) >= ExpectedPostFeeQuantity(q, f1, f2) - 1
  {
    PostFeeQuantityExact(q, f1, f2);
    PostFeeQuantityExact(q', f1, f2);
    MulMono(q, q', UNIT - f1 - f2);
    CeilMono(q * (UNIT - f1 - f2), q' * (UNIT - f1 - f2), UNIT);
  }

  lemma PostFeeQuantityNotMonotone()
    ensures ExpectedPostFeeQuantity(1, UNIT / 2, UNIT / 2) == 1
    ensures ExpectedPostFeeQuantity(2, UNIT / 2, UNIT / 2) == 0
  {
  }

  /** Exactly when a larger deposit leaves less: the ceilings of the combined share are equal, and only the
      smaller deposit keeps the unit that two dropped fractions make up. */
  lemma PostFeeQuantityDrops(q: int, q': int, f1: int, f2: int)
    requires 0 <= q <= q' && f1 >= 0 && f2 >= 0 && f1 + f2 <= UNIT
    ensures ExpectedPostFeeQuantity(q', f1, f2) < ExpectedPostFeeQuantity(q, f1, f2) <==>
            && CeilDiv(q * (UNIT - f1 - f2), UNIT) == CeilDiv(q' * (UNIT - f1 - f2), UNIT)
            && q * f1 % UNIT + q * f2 % UNIT >= UNIT
            && q' * f1 % UNIT + q' * f2 % UNIT < UNIT
  {
    PostFeeQuantityExact(q, f1, f2);
    PostFeeQuantityExact(q', f1, f2);
    MulMono(q, q', UNIT - f1 - f2);
    CeilMono(q * (UNIT - f1 - f2), q' * (UNIT - f1 - f2), UNIT);
  }

  /** Rounding the premium up is the same as rounding what is left down. */
  lemma PremiumComplement(notional: int, premium: int)
    requires notional >= 0 && 0 <= premium <= UNIT
    ensures notional - PreciseMulCeil(notional, premium) == PreciseMul(notional, UNIT - premium)
    ensures 0 <= notional - PreciseMulCeil(notional, premium) <= notional
  {
    var p := notional * premium;
    MulMono2(0, notional, 0, premium);
    MulMono2(0, notional, 0, UNIT - premium);
    assert notional * (UNIT - premium) == notional * UNIT - p;
    DivUnique(notional * UNIT - p, UNIT, notional - PreciseMulCeil(notional, premium));
    DivUnique(notional * UNIT - p, UNIT, PreciseMul(notional, UNIT - premium));
  }

  // ----- Position multiplier

  /** Rounding the inflation up and rounding the deflation down give the same ratio of supplies. */
  lemma MultipliersAreScaledRatio(multiplier: int, previous: int, current: int)
    requires multiplier >= 0 && previous >= 0 && current > 0
    ensures previous <= current ==>
              ExpectedIssuePositionMultiplier(multiplier, previous, current) ==
              multiplier * (UNIT * previous / current) / UNIT
    ensures current <= previous ==>
              ExpectedRedeemPositionMultiplier(multiplier, previous, current) ==
              multiplier * (UNIT * previous / current) / UNIT
  {
    var ratio := UNIT * previous / current;
    assert ratio >= 0 by { DivGalois(0, UNIT * previous, current); }
    MulMono2(0, multiplier, 0, ratio);
    if previous <= current {
      var inflation := PreciseDivCeil(current - previous, current);
      assert (UNIT - inflation) * current == UNIT * current - inflation * current;
      assert (UNIT - inflation + 1) * current == UNIT * current - (inflation - 1) * current;
      DivUnique(UNIT * previous, current, UNIT - inflation);
    }
    if current <= previous {
      var deflation := PreciseDiv(previous - current, current);
      assert (UNIT + deflation) * current == UNIT * current + deflation * current;
      assert (UNIT + deflation + 1) * current == UNIT * current + (deflation + 1) * current;
      DivUnique(UNIT * previous, current, UNIT + deflation);
    }
  }

  /** The new multiplier times the new supply never exceeds the old product, and how much is lost. */
  lemma ScaledRatioLoss(multiplier: int, previous: int, current: int)
    requires multiplier >= 0 && previous >= 0 && current > 0
    ensures var multiplier' := multiplier * (UNIT * previous / current) / UNIT;
            && multiplier' >= 0
            && multiplier' * current <= multiplier * previous
            && UNIT * (multiplier * previous - multiplier' * current) < current * (multiplier + UNIT)
  {
    var ratio := UNIT * previous / current;
    assert ratio >= 0 by { DivGalois(0, UNIT * previous, current); }
    MulMono2(0, multiplier, 0, ratio);
    DivBounds(UNIT * previous, current);
    DivBounds(multiplier * ratio, UNIT);
    ScaledRatioUpper(multiplier, previous, current, ratio, multiplier * ratio / UNIT);
    ScaledRatioLower(multiplier, previous, current, ratio, multiplier * ratio / UNIT);
  }

  lemma ScaledRatioUpper(m: int, previous: int, current: int, ratio: int, m': int)
    requires m >= 0 && current > 0
    requires ratio * current <= UNIT * previous && m' * UNIT <= m * ratio
    ensures m' * current <= m * previous
  {
  }

  lemma ScaledRatioLower(m: int, previous: int, current: int, ratio: int, m': int)
    requires m >= 0 && current > 0
    requires UNIT * previous < (ratio + 1) * current && m * ratio < (m' + 1) * UNIT
    ensures UNIT * (m * previous - m' * current) < current * (m + UNIT)
  {
  }

  // ----- Issuing

  lemma DepositBounds(valuation: int, supply: int, q: int, terms: Terms)
    requires q >= 0 && terms.Valid()
    ensures var quote := QuoteIssue(valuation, supply, q, terms);
            && 0 <= quote.subFeesAndPremium <= quote.subFees <= q
            && 0 <= quote.normalizedSubFeesAndPremium <= quote.normalizedSubFees
            && quote.normalizedSubFeesAndPremium * terms.baseUnits <= quote.subFeesAndPremium * UNIT
  {
    var subFees := ExpectedPostFeeQuantity(q, terms.managerFee, terms.protocolFee);
    PostFeeQuantityExact(q, terms.managerFee, terms.protocolFee);
    var premium := PreciseMul(subFees, terms.premium);
    MulMono2(0, subFees, 0, terms.premium);
    MulMono(terms.premium, UNIT, subFees);
    MulCancel(premium, subFees, UNIT);
    DivMono((subFees - premium) * UNIT, subFees * UNIT, terms.baseUnits);
  }

  /** Issuing never dilutes: the issued tokens' share of the new value is at most the deposit net of fees
      and premium, the value per token of the others does not fall, and rounding keeps back less than
      one token plus one unit of value. It throws exactly when the set is worthless and no premium is left
      after rounding. */
  lemma IssueNeverDilutes(valuation: int, supply: int, q: int, terms: Terms)
    requires valuation >= 0 && supply >= 0 && q >= 0 && terms.Valid()
    ensures var value := PreciseMul(supply, valuation);
            var quote := QuoteIssue(valuation, supply, q, terms);
            var deposit, net := quote.normalizedSubFees, quote.normalizedSubFeesAndPremium;
            && 0 <= value <= quote.denominator
            && (ExpectedSetTokenIssueQuantity(valuation, supply, q, terms).None? <==>
                value == 0 && deposit == net)
            && match ExpectedSetTokenIssueQuantity(valuation, supply, q, terms)
            case None => true
            case Some(out) =>
              && out >= 0
              && net * supply - quote.denominator - UNIT < out * quote.denominator <= net * supply
              && value * (supply + out) <= (value + deposit) * supply
              && (value + deposit) * out <= net * (supply + out)
  {
    MulMono2(0, supply, 0, valuation);
    var quote := QuoteIssue(valuation, supply, q, terms);
    DepositBounds(valuation, supply, q, terms);
    MulMono2(0, quote.normalizedSubFeesAndPremium, 0, supply);
    if quote.denominator != 0 {
      ShareArithmetic(
        PreciseMul(supply, valuation), quote.normalizedSubFees, quote.normalizedSubFeesAndPremium, supply);
    }
  }

  lemma ShareArithmetic(value: int, deposit: int, net: int, supply: int)
    requires value >= 0 && 0 <= net <= deposit && supply >= 0
    requires value + deposit - net > 0
    ensures var d := value + deposit - net;
            var out := PreciseDiv(PreciseMul(net, supply), d);
            && 0 <= out
            && net * supply - d - UNIT < out * d <= net * supply
            && value * (supply + out) <= (value + deposit) * supply
            && (value + deposit) * out <= net * (supply + out)
  {
    var d := value + deposit - net;
    MulMono2(0, net, 0, supply);
    var scaled := PreciseMul(net, supply);
    var out := PreciseDiv(scaled, d);
    assert (out + 1) * d == out * d + d;
    // value * out <= d * out <= net * supply <= deposit * supply
    MulMono(value, d, out);
    MulMono(net, deposit, supply);
    assert value * (supply + out) == value * supply + value * out;
    assert (value + deposit) * supply == value * supply + deposit * supply;
    assert (value + deposit) * out == d * out + net * out;
    assert net * (supply + out) == net * supply + net * out;
  }

  // ----- Redeeming

  /** The redeemer's payout never exceeds what leaves the set, which never exceeds the notional. */
  lemma RedeemBounds(quantity: int, valuation: int, terms: Terms)
    requires quantity >= 0 && valuation >= 0 && terms.Valid()
    ensures 0 <= RedeemSubPremium(quantity, valuation, terms.premium) <= PreciseMul(valuation, quantity)
    ensures 0 <= ExpectedReserveRedeemQuantity(quantity, valuation, terms) <= RedeemOutflow(quantity, valuation, terms)
  {
    MulMono2(0, valuation, 0, quantity);
    PremiumComplement(PreciseMul(valuation, quantity), terms.premium);
    var subPremium := RedeemSubPremium(quantity, valuation, terms.premium);
    PostFeeQuantityExact(subPremium, terms.managerFee, terms.protocolFee);
    var net := ExpectedPostFeeQuantity(subPremium, terms.managerFee, terms.protocolFee);
    MulMono2(0, net, 0, terms.baseUnits);
    MulMono(net, subPremium, terms.baseUnits);
    DivMono(net * terms.baseUnits, subPremium * terms.baseUnits, UNIT);
  }

  /** Issuing and redeeming all issued tokens, at any valuation the assets back, returns at most the
      deposit net of fees and premium, whatever the fees and premium of the redeem. */
  lemma RoundTripNeverProfits(
    valuation: int, supply: int, q: int, terms: Terms, valuation': int, redeemTerms: Terms)
    requires valuation >= 0 && supply >= 0 && q >= 0 && terms.Valid()
    requires redeemTerms.Valid() && redeemTerms.baseUnits == terms.baseUnits
    requires valuation' >= 0
    ensures var quote := QuoteIssue(valuation, supply, q, terms);
            var assets := PreciseMul(supply, valuation) + quote.normalizedSubFees;
            match ExpectedSetTokenIssueQuantity(valuation, supply, q, terms)
            case None => true
            case Some(out) =>
              valuation' * (supply + out) <= assets * UNIT ==>
                ExpectedReserveRedeemQuantity(out, valuation', redeemTerms) <= quote.subFeesAndPremium <= q
  {
    IssueNeverDilutes(valuation, supply, q, terms);
    DepositBounds(valuation, supply, q, terms);
    var quote := QuoteIssue(valuation, supply, q, terms);
    var assets := PreciseMul(supply, valuation) + quote.normalizedSubFees;
    match ExpectedSetTokenIssueQuantity(valuation, supply, q, terms)
    case None =>
    case Some(out) =>
      if valuation' * (supply + out) <= assets * UNIT {
        NotionalBackedByShare(valuation', supply, out, assets, quote.normalizedSubFeesAndPremium);
        PayoutBelowDeposit(out, valuation', redeemTerms, quote.normalizedSubFeesAndPremium, quote.subFeesAndPremium);
      }
  }

  lemma PayoutBelowDeposit(out: int, valuation: int, terms: Terms, net: int, deposit: int)
    requires out >= 0 && valuation >= 0 && terms.Valid()
    requires PreciseMul(valuation, out) <= net && net * terms.baseUnits <= deposit * UNIT
    ensures ExpectedReserveRedeemQuantity(out, valuation, terms) <= deposit
  {
    RedeemBounds(out, valuation, terms);
    var subPremium := RedeemSubPremium(out, valuation, terms.premium);
    MulMono2(0, subPremium, 0, terms.baseUnits);
    MulMono(subPremium, net, terms.baseUnits);
    DivMono(subPremium * terms.baseUnits, deposit * UNIT, UNIT);
  }

  lemma NotionalBackedByShare(valuation: int, supply: int, out: int, assets: int, share: int)
    requires valuation >= 0 && supply >= 0 && out >= 0 && assets >= 0 && share >= 0
    requires valuation * (supply + out) <= assets * UNIT
    requires assets * out <= share * (supply + out)
    ensures PreciseMul(valuation, out) <= share
  {
    MulMono2(0, valuation, 0, out);
    if supply + out > 0 {
      BackedChain(PreciseMul(valuation, out), valuation, out, supply + out, assets, share);
    }
  }

  lemma BackedChain(notional: int, valuation: int, out: int, total: int, assets: int, share: int)
    requires out >= 0 && total > 0
    requires notional * UNIT <= valuation * out
    requires valuation * total <= assets * UNIT
    requires assets * out <= share * total
    ensures notional <= share
  {
  }
}
