/** Streaming fee accrual (utils/common/feeModuleUtils.ts): the fee of a time span, the tokens minted
    for it, and the position units left after it. */
module StreamingFee {
  import opened BigNumbers
  import opened MathUtils

  const ONE_YEAR_IN_SECONDS: int := 31557600

  /** The arithmetic part of getStreamingFee; the rate is read from the module or passed in. */
  function TimeFee(previousTimestamp: int, recentTimestamp: int, rate: int): (fee: int)
    ensures previousTimestamp <= recentTimestamp && rate >= 0 ==>
              0 <= fee * ONE_YEAR_IN_SECONDS <= (recentTimestamp - previousTimestamp) * rate
                   < (fee + 1) * ONE_YEAR_IN_SECONDS
    ensures (recentTimestamp - previousTimestamp) * rate < 0 ==>
              (fee - 1) * ONE_YEAR_IN_SECONDS < (recentTimestamp - previousTimestamp) * rate
                                             <= fee * ONE_YEAR_IN_SECONDS <= 0
  {
    assert previousTimestamp <= recentTimestamp && rate >= 0 ==> (recentTimestamp - previousTimestamp) * rate >= 0;
    TruncDiv((recentTimestamp - previousTimestamp) * rate, ONE_YEAR_IN_SECONDS)
  }

  /** The year of the rate is 365 and a quarter days of 86400 seconds: four of them cost four times the rate. */
  lemma FourYearsFee(t: int, rate: int)
    requires rate >= 0
    ensures TimeFee(t, t + 1461 * 86400, rate) == 4 * rate
  {
    assert 1461 * 86400 * rate == 4 * rate * ONE_YEAR_IN_SECONDS;
  }

  function InflationAmount(inflationPercent: int, totalSupply: int): int
    requires inflationPercent != UNIT
  {
    TruncDiv(inflationPercent * totalSupply, UNIT - inflationPercent)
  }

  function PostFeeUnit(unit: int, inflationPercent: int): int {
    if unit >= 0 then
      PreciseMul(unit, UNIT - inflationPercent)
    else
      PreciseMulCeilInt(unit, UNIT - inflationPercent)
  }

  method GetPostFeePositionUnits(preFeeUnits: seq<int>, inflationPercent: int) returns (newUnits: seq<int>)
    ensures |newUnits| == |preFeeUnits|
    ensures forall i :: 0 <= i < |preFeeUnits| ==> newUnits[i] == PostFeeUnit(preFeeUnits[i], inflationPercent)
    ensures 0 <= inflationPercent <= UNIT ==>
              forall i :: 0 <= i < |preFeeUnits| ==>
                newUnits[i] == FloorDiv(preFeeUnits[i] * (UNIT - inflationPercent), UNIT)
  {
    newUnits := [];
    var i := 0;
    while i < |preFeeUnits|
      invariant 0 <= i <= |preFeeUnits| && |newUnits| == i
      invariant forall k :: 0 <= k < i ==> newUnits[k] == PostFeeUnit(preFeeUnits[k], inflationPercent)
    {
      if preFeeUnits[i] >= 0 {
        newUnits := newUnits + [PreciseMul(preFeeUnits[i], UNIT - inflationPercent)];
      } else {
        newUnits := newUnits + [PreciseMulCeilInt(preFeeUnits[i], UNIT - inflationPercent)];
      }
      i := i + 1;
    }
    if 0 <= inflationPercent <= UNIT {
      forall k | 0 <= k < |preFeeUnits|
        ensures newUnits[k] == FloorDiv(preFeeUnits[k] * (UNIT - inflationPercent), UNIT)
      {
        PostFeeUnitIsFloor(preFeeUnits[k], inflationPercent);
      }
    }
  }

  /** Positive units are truncated and negative ones rounded away from zero: always the floor. */
  lemma PostFeeUnitIsFloor(unit: int, f: int)
    requires 0 <= f <= UNIT
    ensures PostFeeUnit(unit, f) == FloorDiv(unit * (UNIT - f), UNIT)
    ensures unit >= 0 ==> 0 <= PostFeeUnit(unit, f) <= unit
    ensures unit < 0 ==> unit <= PostFeeUnit(unit, f) <= 0
  {
  }

  // ----- Minted supply

  /** Minting floor(f * S / (U - f)) makes the new supply floor(S * U / (U - f)). */
  lemma SupplyAfterAccrual(f: int, supply: int)
    requires 0 <= f < UNIT && supply >= 0
    ensures InflationAmount(f, supply) >= 0
    ensures supply + InflationAmount(f, supply) == supply * UNIT / (UNIT - f)
  {
    var k, minted := UNIT - f, InflationAmount(f, supply);
    MulMono2(0, f, 0, supply);
    TruncDivNonNeg(f * supply, k);
    assert (supply + minted) * k == supply * UNIT - f * supply + minted * k;
    assert (supply + minted + 1) * k == supply * UNIT - f * supply + (minted + 1) * k;
    DivUnique(supply * UNIT, k, supply + minted);
  }

  /** The minted amount is the largest one whose share of the new supply is at most the fee. */
  lemma InflationIsLargestShare(f: int, supply: int, amount: int)
    requires 0 <= f < UNIT && supply >= 0
    ensures amount * UNIT <= f * (supply + amount) <==> amount <= InflationAmount(f, supply)
  {
    MulMono2(0, f, 0, supply);
    TruncDivNonNeg(f * supply, UNIT - f);
    DivGalois(amount, f * supply, UNIT - f);
    assert amount * (UNIT - f) == amount * UNIT - f * amount;
    assert f * (supply + amount) == f * supply + f * amount;
  }

  lemma TimeFeeSuperadditive(t0: int, t1: int, t2: int, rate: int)
    requires t0 <= t1 <= t2 && rate >= 0
    ensures TimeFee(t0, t1, rate) >= 0 && TimeFee(t1, t2, rate) >= 0
    ensures TimeFee(t0, t1, rate) + TimeFee(t1, t2, rate) <= TimeFee(t0, t2, rate)
            <= TimeFee(t0, t1, rate) + TimeFee(t1, t2, rate) + 1
  {
  }

  function Accrue(supply: int, f: int): int
    requires f != UNIT
  {
    supply + InflationAmount(f, supply)
  }

  predicate Increasing(timestamps: seq<int>) {
    forall i, j :: 0 <= i <= j < |timestamps| ==> timestamps[i] <= timestamps[j]
  }

  /** Every accrual after the first timestamp stays below a full fee. */
  predicate FeesBelowOne(timestamps: seq<int>, rate: int) {
    forall i :: 0 < i < |timestamps| ==> TimeFee(timestamps[i - 1], timestamps[i], rate) < UNIT
  }

  /** The supply after accruing at timestamps[1], ..., timestamps[n] in turn. */
  function AccrueAt(supply: int, timestamps: seq<int>, rate: int, n: nat): int
    requires n < |timestamps| && FeesBelowOne(timestamps, rate)
  {
    if n == 0 then supply
    else
      Accrue(AccrueAt(supply, timestamps, rate, n - 1), TimeFee(timestamps[n - 1], timestamps[n], rate))
  }

  /** A whole interval that costs less than everything makes each of its parts do so too. */
  lemma PartsBelowOne(timestamps: seq<int>, rate: int)
    requires timestamps != [] && Increasing(timestamps) && rate >= 0
    requires TimeFee(timestamps[0], timestamps[|timestamps| - 1], rate) < UNIT
    ensures FeesBelowOne(timestamps, rate)
  {
    var t0, tn := timestamps[0], timestamps[|timestamps| - 1];
    forall i | 0 < i < |timestamps|
      ensures TimeFee(timestamps[i - 1], timestamps[i], rate) < UNIT
    {
      TimeFeeSuperadditive(t0, timestamps[i - 1], timestamps[i], rate);
      TimeFeeSuperadditive(t0, timestamps[i], tn, rate);
    }
  }

  /** Accruing more often never mints more than one accrual over the whole interval. */
  lemma SplittingNeverOverMints(supply: int, timestamps: seq<int>, rate: int)
    requires supply >= 0 && rate >= 0
    requires timestamps != [] && Increasing(timestamps)
    requires TimeFee(timestamps[0], timestamps[|timestamps| - 1], rate) < UNIT
    ensures FeesBelowOne(timestamps, rate)
    ensures supply <= AccrueAt(supply, timestamps, rate, |timestamps| - 1) <=
            Accrue(supply, TimeFee(timestamps[0], timestamps[|timestamps| - 1], rate))
  {
    PartsBelowOne(timestamps, rate);
    var n := |timestamps| - 1;
    var f := TimeFee(timestamps[0], timestamps[n], rate);
    TimeFeeSuperadditive(timestamps[0], timestamps[0], timestamps[n], rate);
    SplitBound(supply, timestamps, rate, n);
    SupplyAfterAccrual(f, supply);
    DivGalois(AccrueAt(supply, timestamps, rate, n), supply * UNIT, UNIT - f);
  }

  lemma {:induction false} SplitBound(supply: int, timestamps: seq<int>, rate: int, n: nat)
    requires supply >= 0 && rate >= 0
    requires n < |timestamps| && Increasing(timestamps) && FeesBelowOne(timestamps, rate)
    requires TimeFee(timestamps[0], timestamps[n], rate) < UNIT
    ensures supply <= AccrueAt(supply, timestamps, rate, n)
    ensures AccrueAt(supply, timestamps, rate, n) * (UNIT - TimeFee(timestamps[0], timestamps[n], rate))
            <= supply * UNIT
  {
    if n == 0 {
      assert TimeFee(timestamps[0], timestamps[0], rate) == 0;
    } else {
      TimeFeeSuperadditive(timestamps[0], timestamps[n - 1], timestamps[n], rate);
      SplitBound(supply, timestamps, rate, n - 1);
      SplitOneMore(
        supply, AccrueAt(supply, timestamps, rate, n - 1),
        timestamps[0], timestamps[n - 1], timestamps[n], rate);
    }
  }

  lemma SplitOneMore(s0: int, s1: int, t0: int, t1: int, t2: int, rate: int)
    requires 0 <= s0 <= s1 && rate >= 0 && t0 <= t1 <= t2 && TimeFee(t0, t2, rate) < UNIT
    requires s1 * (UNIT - TimeFee(t0, t1, rate)) <= s0 * UNIT
    ensures TimeFee(t1, t2, rate) < UNIT
    ensures s0 <= Accrue(s1, TimeFee(t1, t2, rate))
    ensures Accrue(s1, TimeFee(t1, t2, rate)) * (UNIT - TimeFee(t0, t2, rate)) <= s0 * UNIT
  {
    TimeFeeSuperadditive(t0, t1, t2, rate);
    var f := TimeFee(t1, t2, rate);
    SupplyAfterAccrual(f, s1);
    DivBounds(s1 * UNIT, UNIT - f);
    SplitStep(s0, s1, Accrue(s1, f), TimeFee(t0, t1, rate), f, TimeFee(t0, t2, rate));
  }

  lemma SplitStep(s0: int, s1: int, s2: int, f1: int, f2: int, f: int)
    requires s0 >= 0 && s1 >= 0 && s2 >= 0 && f1 >= 0 && f2 >= 0 && f1 + f2 <= f < UNIT
    requires s1 * (UNIT - f1) <= s0 * UNIT
    requires s2 * (UNIT - f2) <= s1 * UNIT
    ensures s2 * (UNIT - f) <= s0 * UNIT
  {
    var k1, k2 := UNIT - f1, UNIT - f2;
    MulMono(s2 * k2, s1 * UNIT, k1);
    assert s1 * UNIT * k1 == s1 * k1 * UNIT;
    assert s2 * k2 * k1 <= s0 * UNIT * UNIT;
    // (U - f1) (U - f2) >= U (U - f)
    MulMono2(0, f1, 0, f2);
    assert k2 * k1 == UNIT * UNIT - UNIT * f1 - UNIT * f2 + f1 * f2;
    MulMono(UNIT * (UNIT - f), k2 * k1, s2);
    assert s2 * (k2 * k1) == s2 * k2 * k1;
    assert s2 * (UNIT * (UNIT - f)) == s2 * (UNIT - f) * UNIT;
    MulCancel(s2 * (UNIT - f), s0 * UNIT, UNIT);
  }

  /** And never much less: at least the simple interest over the interval, less one unit of fee and one of supply
      for each accrual. */
  lemma SplittingMintsAtLeast(supply: int, timestamps: seq<int>, rate: int)
    requires supply >= 0 && rate >= 0
    requires timestamps != [] && Increasing(timestamps)
    requires TimeFee(timestamps[0], timestamps[|timestamps| - 1], rate) < UNIT
    ensures FeesBelowOne(timestamps, rate)
    ensures var n, f := |timestamps| - 1, TimeFee(timestamps[0], timestamps[|timestamps| - 1], rate);
            AccrueAt(supply, timestamps, rate, n) * UNIT >= supply * (UNIT + f - n) - n * UNIT
  {
    PartsBelowOne(timestamps, rate);
    SplitInterest(supply, timestamps, rate, |timestamps| - 1);
  }

  lemma {:induction false} SplitInterest(supply: int, timestamps: seq<int>, rate: int, n: nat)
    requires supply >= 0 && rate >= 0
    requires n < |timestamps| && Increasing(timestamps) && FeesBelowOne(timestamps, rate)
    ensures supply <= AccrueAt(supply, timestamps, rate, n)
    ensures AccrueAt(supply, timestamps, rate, n) * UNIT
            >= supply * (UNIT + TimeFee(timestamps[0], timestamps[n], rate) - n) - n * UNIT
  {
    if n == 0 {
      assert TimeFee(timestamps[0], timestamps[0], rate) == 0;
    } else {
      SplitInterest(supply, timestamps, rate, n - 1);
      var s, t := AccrueAt(supply, timestamps, rate, n - 1), timestamps;
      var f := TimeFee(t[n - 1], t[n], rate);
      TimeFeeSuperadditive(t[0], t[n - 1], t[n], rate);
      AccrualMintsAtLeast(s, f);
      MulMono(supply, s, f);
      MulMono(TimeFee(t[0], t[n], rate), TimeFee(t[0], t[n - 1], rate) + f + 1, supply);
      InterestStep(supply, s, Accrue(s, f), f, TimeFee(t[0], t[n - 1], rate), TimeFee(t[0], t[n], rate), n);
    }
  }

  lemma AccrualMintsAtLeast(supply: int, f: int)
    requires supply >= 0 && 0 <= f < UNIT
    ensures Accrue(supply, f) >= supply && Accrue(supply, f) * UNIT >= supply * (UNIT + f) - UNIT
  {
    SupplyAfterAccrual(f, supply);
    DivBounds(supply * UNIT, UNIT - f);
    SimpleInterest(supply, Accrue(supply, f), f);
  }

  lemma SimpleInterest(s: int, s': int, f: int)
    requires 0 <= s <= s' && 0 <= f < UNIT && s * UNIT < (s' + 1) * (UNIT - f)
    ensures s' * UNIT >= s * (UNIT + f) - UNIT
  {
    MulMono(s, s', f);
    assert (s' + 1) * (UNIT - f) == s' * UNIT - s' * f + UNIT - f;
    assert s * (UNIT + f) == s * UNIT + s * f;
  }

  lemma InterestStep(s0: int, s1: int, s2: int, f2: int, f1: int, f: int, n: int)
    requires s0 * f <= s0 * (f1 + f2 + 1) && s0 * f2 <= s1 * f2
    requires s1 * UNIT >= s0 * (UNIT + f1 - (n - 1)) - (n - 1) * UNIT
    requires s2 * UNIT >= s1 * (UNIT + f2) - UNIT
    ensures s2 * UNIT >= s0 * (UNIT + f - n) - n * UNIT
  {
    assert s0 * (UNIT + f - n) == s0 * UNIT + s0 * f - s0 * n;
    assert s0 * (UNIT + f1 - (n - 1)) == s0 * UNIT + s0 * f1 - s0 * n + s0;
  }

  // ----- Units against supply, over a run of accruals

  predicate Fees(fees: seq<int>) {
    forall i :: 0 <= i < |fees| ==> 0 <= fees[i] < UNIT
  }

  function SupplyAfter(supply: int, fees: seq<int>): int
    requires Fees(fees)
    decreases |fees|
  {
    if fees == [] then supply else SupplyAfter(Accrue(supply, fees[0]), fees[1..])
  }

  function UnitAfter(unit: int, fees: seq<int>): int
    decreases |fees|
  {
    if fees == [] then unit else UnitAfter(PostFeeUnit(unit, fees[0]), fees[1..])
  }

  /** One accrual: claims on an asset do not grow, and a debt shrinks by less than one unit's worth. */
  lemma AccrualStep(unit: int, supply: int, f: int)
    requires 0 <= f < UNIT && supply >= 0
    ensures Accrue(supply, f) >= supply
    ensures unit >= 0 ==> 0 <= PostFeeUnit(unit, f) * Accrue(supply, f) <= unit * supply
    ensures unit < 0 ==> UNIT * (-unit * supply - -PostFeeUnit(unit, f) * Accrue(supply, f)) < -unit * (UNIT - f)
  {
    var k, s', u' := UNIT - f, Accrue(supply, f), PostFeeUnit(unit, f);
    SupplyAfterAccrual(f, supply);
    DivBounds(supply * UNIT, k);
    PostFeeUnitIsFloor(unit, f);
    if unit >= 0 {
      AssetStep(unit, supply, k, s', u');
    } else {
      assert -unit * k == -(unit * k);
      DebtStep(-unit, supply, k, s', -u');
    }
  }

  lemma AssetStep(u: int, s: int, k: int, s': int, u': int)
    requires u >= 0 && s >= 0 && k > 0 && s' >= 0 && u' >= 0
    requires s' * k <= s * UNIT && u' * UNIT <= u * k
    ensures 0 <= u' * s' <= u * s
  {
  }

  lemma DebtStep(u: int, s: int, k: int, s': int, u': int)
    requires u > 0 && s >= 0 && k > 0 && s' >= 0
    requires s * UNIT < (s' + 1) * k && u * k <= u' * UNIT
    ensures UNIT * (u * s - u' * s') < u * k
  {
  }

  lemma AccrualLoss(m: int, s: int, k: int, s': int, m': int)
    requires m > 0 && s > 0 && k > 0 && s' > 0
    requires s * UNIT < (s' + 1) * k && m * k < (m' + 1) * UNIT
    ensures UNIT * (m * s - m' * s') < s' * UNIT + m * k
  {
  }

  /** One accrual leaves little of an asset unclaimed. */
  lemma AccrualUnclaimed(unit: int, supply: int, f: int)
    requires unit >= 0 && supply > 0 && 0 <= f < UNIT
    ensures 0 <= unit * supply - PostFeeUnit(unit, f) * Accrue(supply, f) <= Accrue(supply, f) + unit
  {
    hide Accrue, PostFeeUnit;
    AccrualStep(unit, supply, f);
    if unit > 0 {
      AccrualLoses(unit, supply, f);
      var loss, slack := unit * supply - PostFeeUnit(unit, f) * Accrue(supply, f), Accrue(supply, f) + unit;
      assert unit * (UNIT - f) <= unit * UNIT by { MulMono(UNIT - f, UNIT, unit); }
      assert UNIT * loss < slack * UNIT;
    }
  }

  lemma AccrualLoses(unit: int, supply: int, f: int)
    requires unit > 0 && supply > 0 && 0 <= f < UNIT
    ensures UNIT * (unit * supply - PostFeeUnit(unit, f) * Accrue(supply, f)) <
            Accrue(supply, f) * UNIT + unit * (UNIT - f)
  {
    SupplyAfterAccrual(f, supply);
    DivBounds(supply * UNIT, UNIT - f);
    PostFeeUnitIsFloor(unit, f);
    AccrualStep(unit, supply, f);
    AccrualLoss(unit, supply, UNIT - f, Accrue(supply, f), PostFeeUnit(unit, f));
  }

  /** Over any run of accruals the units still owed in total never exceed the units owed at the start. */
  lemma {:induction false} AssetNeverOverclaimed(unit: int, supply: int, fees: seq<int>)
    requires unit >= 0 && supply >= 0 && Fees(fees)
    ensures UnitAfter(unit, fees) >= 0 && SupplyAfter(supply, fees) >= supply
    ensures UnitAfter(unit, fees) * SupplyAfter(supply, fees) <= unit * supply
    decreases |fees|
  {
    if fees == [] {
    } else {
      AccrualStep(unit, supply, fees[0]);
      PostFeeUnitIsFloor(unit, fees[0]);
      AssetNeverOverclaimed(PostFeeUnit(unit, fees[0]), Accrue(supply, fees[0]), fees[1..]);
    }
  }

  /** What rounding leaves unclaimed of an asset is bounded by the number of accruals. */
  lemma {:induction false} AssetDriftBounded(unit: int, supply: int, fees: seq<int>)
    requires unit >= 0 && supply > 0 && Fees(fees)
    ensures 0 <= unit * supply - UnitAfter(unit, fees) * SupplyAfter(supply, fees)
              <= |fees| * (SupplyAfter(supply, fees) + unit)
    decreases |fees|
  {
    AssetNeverOverclaimed(unit, supply, fees);
    if fees != [] {
      var f, total := fees[0], SupplyAfter(supply, fees);
      var u', s' := PostFeeUnit(unit, f), Accrue(supply, f);
      AccrualStep(unit, supply, f);
      PostFeeUnitIsFloor(unit, f);
      AccrualUnclaimed(unit, supply, f);
      AssetDriftBounded(u', s', fees[1..]);
      AssetNeverOverclaimed(u', s', fees[1..]);
      MulMono(total + u', total + unit, |fees| - 1);
      assert |fees| * (total + unit) == (|fees| - 1) * (total + unit) + (total + unit);
    }
  }

  /** A debt is understated by at most the initial unit for each accrual. */
  lemma {:induction false} DebtDriftBounded(unit: int, supply: int, fees: seq<int>)
    requires unit <= 0 && supply >= 0 && Fees(fees)
    ensures unit <= UnitAfter(unit, fees) <= 0
    ensures -unit * supply - -UnitAfter(unit, fees) * SupplyAfter(supply, fees) <= |fees| * -unit
    decreases |fees|
  {
    if fees == [] {
    } else {
      var f := fees[0];
      var u', s' := PostFeeUnit(unit, f), Accrue(supply, f);
      AccrualStep(unit, supply, f);
      PostFeeUnitIsFloor(unit, f);
      DebtDriftBounded(u', s', fees[1..]);
      MulMono(UNIT - f, UNIT, -unit);
      MulMono(-u', -unit, |fees| - 1);
      assert -unit * supply - -u' * s' <= -unit by {
        if unit < 0 {
          MulCancelStrict(-unit * supply - -u' * s', -unit, UNIT);
        }
      }
      assert |fees| * -unit == (|fees| - 1) * -unit + -unit;
    }
  }
}
