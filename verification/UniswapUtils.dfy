/** AMM helper arithmetic (utils/common/uniswapUtils.ts). The file compares BigNumber objects with
    the native operators; the comparisons here are the numeric ones it evidently means. Reserves,
    supplies and balances that the source awaits are plain inputs. */
module UniswapUtils {
  import opened BigNumbers
  import opened MathUtils

  const MINIMUM_LIQUIDITY: int := 1000

  datatype Asset = AssetOne | AssetTwo

  // ----- Integer square root

  predicate IsSqrt(value: int, root: int) {
    0 <= root && root * root <= value < (root + 1) * (root + 1)
  }

  lemma SqrtUnique(value: int, r: int, s: int)
    requires IsSqrt(value, r) && IsSqrt(value, s)
    ensures r == s
  {
    if r < s {
      MulMono2(r + 1, s, r + 1, s);
    } else if s < r {
      MulMono2(s + 1, r, s + 1, r);
    }
  }

  /** No Newton iterate undershoots the root. */
  lemma NewtonOvershoots(value: int, z: int)
    requires value >= 0 && z > 0
    ensures var x := (value / z + z) / 2; x >= 0 && value < (x + 1) * (x + 1)
  {
    var q := value / z;
    DivBounds(value, z);
    assert q >= 0 by { DivGalois(0, value, z); }
    var x := (q + z) / 2;
    var y := x + 1;
    assert q + z <= 2 * y - 1;
    // value < (q + 1) * z <= (2 y - z) * z = y * y - (y - z) * (y - z)
    MulMono(q + 1, 2 * y - z, z);
    SquareNonNeg(y - z);
    assert (2 * y - z) * z == y * y - (y - z) * (y - z);
  }

  lemma SquareNonNeg(a: int)
    ensures a * a >= 0
  {
  }

  lemma NewtonStart(value: int)
    requires value > 3
    ensures value < (value + 1) * (value + 1)
    ensures value < (value / 2 + 2) * (value / 2 + 2)
  {
  }

  /** An iterate that does not decrease has reached the root. */
  lemma NewtonStops(value: int, z: int)
    requires value >= 0 && z > 0 && z <= (value / z + z) / 2
    ensures z * z <= value
  {
  }

  /** On a negative value the source's fall-through branch answers one. */
  method Sqrt(value: int) returns (z: int)
    ensures value >= 0 ==> IsSqrt(value, z)
    ensures value < 0 ==> z == 1
  {
    z := value;
    if value > 3 {
      var x := TruncDiv(value, 2) + 1;
      NewtonStart(value);
      while x < z
        invariant 0 < x && 0 < z && z <= value
        invariant value < (z + 1) * (z + 1) && value < (x + 1) * (x + 1)
        invariant (z == value && x == value / 2 + 1) || x == (value / z + z) / 2
        decreases z
      {
        z := x;
        NewtonOvershoots(value, z);
        var q := TruncDiv(value, x);
        assert q >= 1 by { DivGalois(1, value, x); }
        x := TruncDiv(q + x, 2);
      }
      NewtonStops(value, z);
    } else if value != 0 {
      z := 1;
    }
  }

  // ----- LP tokens

  /** Liquidity is the largest amount whose share of neither reserve exceeds the deposit. */
  method CalculateLPTokensIssued(
    reserve0: int, reserve1: int, totalSupply: int, amountOne: int, amountTwo: int) returns (liquidity: int)
    requires totalSupply != 0 ==> reserve0 != 0 && reserve1 != 0
    ensures totalSupply == 0 && amountOne * amountTwo >= 0 ==>
              IsSqrt(amountOne * amountTwo, liquidity + 1000)
    ensures totalSupply == 0 && amountOne * amountTwo < 0 ==> liquidity == -999
    ensures totalSupply != 0 ==> liquidity == ProRataLiquidity(reserve0, reserve1, totalSupply, amountOne, amountTwo)
  {
    if totalSupply == 0 {
      var root := Sqrt(amountOne * amountTwo);
      liquidity := root - MINIMUM_LIQUIDITY;
    } else {
      liquidity := Min(
        TruncDiv(amountOne * totalSupply, reserve0),
        TruncDiv(amountTwo * totalSupply, reserve1));
    }
  }

  function ProRataLiquidity(reserve0: int, reserve1: int, totalSupply: int, amountOne: int, amountTwo: int): int
    requires reserve0 != 0 && reserve1 != 0
  {
    Min(TruncDiv(amountOne * totalSupply, reserve0), TruncDiv(amountTwo * totalSupply, reserve1))
  }

  /** The later mint, exactly: l is issued or less iff its share of each reserve is covered by the deposit. */
  lemma ProRataLiquidityIsLargest(r0: int, r1: int, supply: int, a0: int, a1: int, l: int)
    requires r0 > 0 && r1 > 0 && supply > 0 && a0 >= 0 && a1 >= 0
    ensures l <= ProRataLiquidity(r0, r1, supply, a0, a1) <==> l * r0 <= a0 * supply && l * r1 <= a1 * supply
    ensures ProRataLiquidity(r0, r1, supply, a0, a1) >= 0
  {
    MulMono2(0, a0, 0, supply);
    MulMono2(0, a1, 0, supply);
    TruncDivNonNeg(a0 * supply, r0);
    TruncDivNonNeg(a1 * supply, r1);
    DivGalois(l, a0 * supply, r0);
    DivGalois(l, a1 * supply, r1);
  }

  /** Minting never dilutes: the product of reserves per squared LP token does not fall. */
  lemma MintNeverDilutes(r0: int, r1: int, supply: int, a0: int, a1: int)
    requires r0 > 0 && r1 > 0 && supply > 0 && a0 >= 0 && a1 >= 0
    ensures var l := ProRataLiquidity(r0, r1, supply, a0, a1);
            && (r0 + a0) * supply >= r0 * (supply + l)
            && (r1 + a1) * supply >= r1 * (supply + l)
            && (r0 + a0) * (r1 + a1) * (supply * supply) >= r0 * r1 * ((supply + l) * (supply + l))
  {
    var l := ProRataLiquidity(r0, r1, supply, a0, a1);
    ProRataLiquidityIsLargest(r0, r1, supply, a0, a1, l);
    ShareCovered(r0, a0, supply, l);
    ShareCovered(r1, a1, supply, l);
    ProductOfShares(r0, r0 + a0, r1, r1 + a1, supply, supply + l);
  }

  lemma ShareCovered(r: int, a: int, s: int, l: int)
    requires l * r <= a * s
    ensures (r + a) * s >= r * (s + l)
  {
  }

  lemma ProductOfShares(r0: int, r0': int, r1: int, r1': int, s: int, s': int)
    requires r0 > 0 && r1 > 0 && s > 0 && s' > 0
    requires r0' * s >= r0 * s' && r1' * s >= r1 * s'
    ensures r0' * r1' * (s * s) >= r0 * r1 * (s' * s')
  {
  }

  // ----- Claims on the reserves

  function TokensInReserve(reserve: int, totalSupply: int, lpTokenBalance: int): int
    requires totalSupply != 0
  {
    PreciseMul(PreciseDiv(reserve, totalSupply), lpTokenBalance)
  }

  /** At most the exact share of the reserve, and short of it by less than two roundings. */
  predicate WithinShare(reserve: int, totalSupply: int, lpTokenBalance: int, claim: int) {
    reserve * lpTokenBalance * UNIT - totalSupply * (lpTokenBalance + UNIT)
    < claim * totalSupply * UNIT <= reserve * lpTokenBalance * UNIT
  }

  /** A claim is the exact share of the reserve, rounded down twice. */
  lemma ClaimIsProRata(reserve: int, totalSupply: int, lpTokenBalance: int)
    requires reserve >= 0 && totalSupply > 0 && lpTokenBalance >= 0
    ensures WithinShare(
              reserve, totalSupply, lpTokenBalance, TokensInReserve(reserve, totalSupply, lpTokenBalance))
  {
    var perToken := PreciseDiv(reserve, totalSupply);
    MulMono2(0, perToken, 0, lpTokenBalance);
    ShareOfShare(reserve, totalSupply, lpTokenBalance, perToken, PreciseMul(perToken, lpTokenBalance));
  }

  lemma ShareOfShare(reserve: int, supply: int, balance: int, perToken: int, claim: int)
    requires supply > 0 && balance >= 0
    requires perToken * supply <= reserve * UNIT < (perToken + 1) * supply
    requires claim * UNIT <= perToken * balance < (claim + 1) * UNIT
    ensures reserve * balance * UNIT - supply * (balance + UNIT)
            < claim * supply * UNIT <= reserve * balance * UNIT
  {
    MulMono(claim * UNIT, perToken * balance, supply);
    MulMono(perToken * balance + 1, (claim + 1) * UNIT, supply);
    MulMono(perToken * supply, reserve * UNIT, balance);
    MulMono(reserve * UNIT, (perToken + 1) * supply, balance);
    var x := perToken * balance * supply;
    assert perToken * supply * balance == x;
    assert (perToken + 1) * supply * balance == x + supply * balance;
    assert reserve * UNIT * balance == reserve * balance * UNIT;
    assert claim * UNIT * supply == claim * supply * UNIT;
    assert (claim + 1) * UNIT * supply == claim * supply * UNIT + supply * UNIT;
    assert (perToken * balance + 1) * supply == x + supply;
  }

  function CalculateTokensInReserve(
    reserveOne: int, reserveTwo: int, totalSupply: int, lpTokenBalance: int): (int, int)
    requires totalSupply != 0
  {
    (TokensInReserve(reserveOne, totalSupply, lpTokenBalance),
     TokensInReserve(reserveTwo, totalSupply, lpTokenBalance))
  }

  /** Each answer is the claim on its own reserve: the largest amount covered by the balance at the floored price of
      a token, and the exact share to within two roundings. */
  lemma TokensInReserveExact(
    reserveOne: int, reserveTwo: int, totalSupply: int, lpTokenBalance: int, amount: int)
    requires reserveOne >= 0 && reserveTwo >= 0 && totalSupply > 0 && lpTokenBalance >= 0
    ensures var claims := CalculateTokensInReserve(reserveOne, reserveTwo, totalSupply, lpTokenBalance);
            && (amount <= claims.0 <==> amount * UNIT <= (reserveOne * UNIT / totalSupply) * lpTokenBalance)
            && (amount <= claims.1 <==> amount * UNIT <= (reserveTwo * UNIT / totalSupply) * lpTokenBalance)
            && WithinShare(reserveOne, totalSupply, lpTokenBalance, claims.0)
            && WithinShare(reserveTwo, totalSupply, lpTokenBalance, claims.1)
  {
    ClaimIsProRata(reserveOne, totalSupply, lpTokenBalance);
    ClaimIsProRata(reserveTwo, totalSupply, lpTokenBalance);
    ClaimIsLargest(reserveOne, totalSupply, lpTokenBalance, amount);
    ClaimIsLargest(reserveTwo, totalSupply, lpTokenBalance, amount);
  }

  lemma ClaimIsLargest(reserve: int, totalSupply: int, lpTokenBalance: int, amount: int)
    requires reserve >= 0 && totalSupply > 0 && lpTokenBalance >= 0
    ensures amount <= TokensInReserve(reserve, totalSupply, lpTokenBalance) <==>
            amount * UNIT <= (reserve * UNIT / totalSupply) * lpTokenBalance
  {
    var perToken := reserve * UNIT / totalSupply;
    DivGalois(0, reserve * UNIT, totalSupply);
    MulMono2(0, perToken, 0, lpTokenBalance);
    DivGalois(amount, perToken * lpTokenBalance, UNIT);
  }

  function Sum(xs: seq<int>): int {
    if xs == [] then 0 else xs[0] + Sum(xs[1..])
  }

  /** What the holders of the given LP balances can claim together, of either reserve. */
  function TotalClaims(reserveOne: int, reserveTwo: int, totalSupply: int, balances: seq<int>): (int, int)
    requires totalSupply != 0
  {
    if balances == [] then (0, 0)
    else
      var claim := CalculateTokensInReserve(reserveOne, reserveTwo, totalSupply, balances[0]);
      var rest := TotalClaims(reserveOne, reserveTwo, totalSupply, balances[1..]);
      (claim.0 + rest.0, claim.1 + rest.1)
  }

  /** Whatever the number of holders, their claims add up to at most each reserve. */
  lemma ClaimsConserved(reserveOne: int, reserveTwo: int, totalSupply: int, balances: seq<int>)
    requires reserveOne >= 0 && reserveTwo >= 0 && totalSupply > 0
    requires forall i :: 0 <= i < |balances| ==> balances[i] >= 0
    requires Sum(balances) <= totalSupply
    ensures var claims := TotalClaims(reserveOne, reserveTwo, totalSupply, balances);
            0 <= claims.0 <= reserveOne && 0 <= claims.1 <= reserveTwo
  {
    var claims := TotalClaims(reserveOne, reserveTwo, totalSupply, balances);
    ClaimsBelowShare(reserveOne, reserveTwo, totalSupply, balances);
    MulMono(Sum(balances), totalSupply, PreciseDiv(reserveOne, totalSupply));
    MulMono(Sum(balances), totalSupply, PreciseDiv(reserveTwo, totalSupply));
    MulCancel(claims.0, reserveOne, UNIT);
    MulCancel(claims.1, reserveTwo, UNIT);
  }

  /** When the holders own the whole supply, what stays unclaimed of a reserve is less than the rounding of the price
      over the supply and one unit for each holder. */
  lemma ClaimsExhaustReserves(reserveOne: int, reserveTwo: int, totalSupply: int, balances: seq<int>)
    requires reserveOne >= 0 && reserveTwo >= 0 && totalSupply > 0
    requires forall i :: 0 <= i < |balances| ==> balances[i] >= 0
    requires Sum(balances) == totalSupply
    ensures var claims := TotalClaims(reserveOne, reserveTwo, totalSupply, balances);
            && 0 <= (reserveOne - claims.0) * UNIT < totalSupply + |balances| * UNIT
            && 0 <= (reserveTwo - claims.1) * UNIT < totalSupply + |balances| * UNIT
  {
    hide PreciseDiv, TotalClaims;
    ClaimsConserved(reserveOne, reserveTwo, totalSupply, balances);
    ClaimsAboveShare(reserveOne, reserveTwo, totalSupply, balances);
    var claims := TotalClaims(reserveOne, reserveTwo, totalSupply, balances);
    WholeShare(reserveOne, totalSupply, claims.0, |balances|);
    WholeShare(reserveTwo, totalSupply, claims.1, |balances|);
  }

  lemma WholeShare(reserve: int, totalSupply: int, claim: int, holders: int)
    requires reserve >= 0 && totalSupply > 0
    requires PreciseDiv(reserve, totalSupply) * totalSupply <= (claim + holders) * UNIT
    ensures (reserve - claim) * UNIT < totalSupply + holders * UNIT
  {
    var perToken := PreciseDiv(reserve, totalSupply);
    assert (perToken + 1) * totalSupply == perToken * totalSupply + totalSupply;
  }

  lemma {:induction false} ClaimsAboveShare(
    reserveOne: int, reserveTwo: int, totalSupply: int, balances: seq<int>)
    requires reserveOne >= 0 && reserveTwo >= 0 && totalSupply > 0
    requires forall i :: 0 <= i < |balances| ==> balances[i] >= 0
    ensures var claims := TotalClaims(reserveOne, reserveTwo, totalSupply, balances);
            && PreciseDiv(reserveOne, totalSupply) * Sum(balances) <= (claims.0 + |balances|) * UNIT
            && PreciseDiv(reserveTwo, totalSupply) * Sum(balances) <= (claims.1 + |balances|) * UNIT
  {
    if balances != [] {
      var rest := balances[1..];
      ClaimsAboveShare(reserveOne, reserveTwo, totalSupply, rest);
      ClaimStep(PreciseDiv(reserveOne, totalSupply), balances[0], Sum(rest));
      ClaimStep(PreciseDiv(reserveTwo, totalSupply), balances[0], Sum(rest));
    }
  }

  lemma {:induction false} ClaimsBelowShare(
    reserveOne: int, reserveTwo: int, totalSupply: int, balances: seq<int>)
    requires reserveOne >= 0 && reserveTwo >= 0 && totalSupply > 0
    requires forall i :: 0 <= i < |balances| ==> balances[i] >= 0
    ensures var claims := TotalClaims(reserveOne, reserveTwo, totalSupply, balances);
            && 0 <= claims.0 && claims.0 * UNIT <= PreciseDiv(reserveOne, totalSupply) * Sum(balances)
            && 0 <= claims.1 && claims.1 * UNIT <= PreciseDiv(reserveTwo, totalSupply) * Sum(balances)
  {
    if balances != [] {
      var rest := balances[1..];
      ClaimsBelowShare(reserveOne, reserveTwo, totalSupply, rest);
      ClaimStep(PreciseDiv(reserveOne, totalSupply), balances[0], Sum(rest));
      ClaimStep(PreciseDiv(reserveTwo, totalSupply), balances[0], Sum(rest));
    }
  }

  lemma ClaimStep(perToken: int, balance: int, others: int)
    requires perToken >= 0 && balance >= 0
    ensures PreciseMul(perToken, balance) >= 0
    ensures PreciseMul(perToken, balance) * UNIT + perToken * others <= perToken * (balance + others)
    ensures perToken * (balance + others) < (PreciseMul(perToken, balance) + 1) * UNIT + perToken * others
  {
  }

  // ----- Engage and rebalance quantities

  function EngageQuantity(reserve: int, balance: int, reservePercentage: int): int {
    PreciseMul(reserve, reservePercentage) - PreciseMul(balance, UNIT - reservePercentage)
  }

  /** The quantities for both assets: the reserves are the staked share of the pool, the balances the
      token's own plus the extra amounts passed in. */
  function CalculateEngageQuantities(
    staked: (int, int), balanceOne: int, balanceTwo: int, reservePercentage: int,
    extraAssetOne: int, extraAssetTwo: int): (int, int)
  {
    (EngageQuantity(staked.0, balanceOne + extraAssetOne, reservePercentage),
     EngageQuantity(staked.1, balanceTwo + extraAssetTwo, reservePercentage))
  }

  /** Moved from the reserve to the balance, the quantity leaves the balance at the target percentage of the total up
      to the two dropped fractions, and it asks for no more than either side holds. */
  predicate HitsTarget(reserve: int, balance: int, percentage: int, moved: int) {
    && -balance <= moved <= reserve
    && UNIT * (balance + moved) - percentage * (reserve + balance) ==
       balance * (UNIT - percentage) % UNIT - reserve * percentage % UNIT
  }

  lemma EngageHitsTargets(
    staked: (int, int), balanceOne: int, balanceTwo: int, percentage: int, extraOne: int, extraTwo: int)
    requires staked.0 >= 0 && staked.1 >= 0 && 0 <= percentage <= UNIT
    requires balanceOne + extraOne >= 0 && balanceTwo + extraTwo >= 0
    ensures var moved := CalculateEngageQuantities(staked, balanceOne, balanceTwo, percentage, extraOne, extraTwo);
            && HitsTarget(staked.0, balanceOne + extraOne, percentage, moved.0)
            && HitsTarget(staked.1, balanceTwo + extraTwo, percentage, moved.1)
  {
    EngageHitsTarget(staked.0, balanceOne + extraOne, percentage);
    EngageHitsTarget(staked.1, balanceTwo + extraTwo, percentage);
  }

  lemma EngageHitsTarget(reserve: int, balance: int, percentage: int)
    requires reserve >= 0 && balance >= 0 && 0 <= percentage <= UNIT
    ensures HitsTarget(reserve, balance, percentage, EngageQuantity(reserve, balance, percentage))
  {
    MulMono2(0, reserve, 0, percentage);
    MulMono2(0, balance, 0, UNIT - percentage);
    MulMono(percentage, UNIT, reserve);
    MulMono(UNIT - percentage, UNIT, balance);
    MulCancel(PreciseMul(reserve, percentage), reserve, UNIT);
    MulCancel(PreciseMul(balance, UNIT - percentage), balance, UNIT);
    assert percentage * (reserve + balance) == reserve * percentage + balance * percentage;
    assert balance * (UNIT - percentage) == balance * UNIT - balance * percentage;
  }

  method CalculateRebalanceQuantity(
    sellTokenQuantity: int, balanceOne: int, balanceTwo: int, assetOneToTwoPrice: int,
    extraAssetOne: int, extraAssetTwo: int)
    returns (quantityToSell: int, assetToSell: Asset, assetToBuy: Asset)
    requires assetOneToTwoPrice != 0
    ensures assetToSell != assetToBuy
    ensures assetToSell == AssetOne <==>
            balanceOne + extraAssetOne > PreciseDiv(balanceTwo + extraAssetTwo, assetOneToTwoPrice)
    ensures sellTokenQuantity > 0 ==> quantityToSell == sellTokenQuantity
    ensures sellTokenQuantity <= 0 && balanceOne + extraAssetOne >= 0 && balanceTwo + extraAssetTwo >= 0
            && assetOneToTwoPrice > 0 ==>
              Balances(
                balanceOne + extraAssetOne, balanceTwo + extraAssetTwo, assetOneToTwoPrice, quantityToSell, assetToSell)
  {
    var balanceAssetOne, balanceAssetTwo := balanceOne + extraAssetOne, balanceTwo + extraAssetTwo;
    var valueAssetTwoDenomOne := PreciseDiv(balanceAssetTwo, assetOneToTwoPrice);
    if balanceAssetOne > valueAssetTwoDenomOne {
      quantityToSell := TruncDiv(balanceAssetOne - valueAssetTwoDenomOne, 2);
      assetToSell := AssetOne;
      assetToBuy := AssetTwo;
    } else {
      quantityToSell := PreciseMul(TruncDiv(valueAssetTwoDenomOne - balanceAssetOne, 2), assetOneToTwoPrice);
      assetToSell := AssetTwo;
      assetToBuy := AssetOne;
      if balanceAssetOne >= 0 && balanceAssetTwo >= 0 && assetOneToTwoPrice > 0 {
        SellingTwoBalances(balanceAssetOne, balanceAssetTwo, assetOneToTwoPrice);
      }
    }
    if sellTokenQuantity > 0 {
      quantityToSell := sellTokenQuantity;
    }
  }

  /** A quantity the seller holds that, traded at the price, leaves the two sides of equal value up to
      rounding: within one unit of asset one, or within twice a unit of each in 18-decimal terms, as the
      floored half of the floored difference. */
  predicate Balances(one: int, two: int, price: int, quantity: int, sold: Asset)
    requires price > 0
  {
    match sold
    case AssetOne =>
      && 0 <= quantity <= one
      && 0 <= (one - quantity) - (PreciseDiv(two, price) + quantity) <= 1
    case AssetTwo =>
      && 0 <= quantity <= two
      && 0 <= (two - quantity) * UNIT - (one * price + quantity * UNIT) < 2 * (price + UNIT)
      && var half := (two * UNIT / price - one) / 2; quantity * UNIT <= half * price < (quantity + 1) * UNIT
  }

  lemma SellingTwoBalances(one: int, two: int, price: int)
    requires one >= 0 && two >= 0 && price > 0
    requires one <= PreciseDiv(two, price)
    ensures Balances(one, two, price, PreciseMul((PreciseDiv(two, price) - one) / 2, price), AssetTwo)
  {
    var v := PreciseDiv(two, price);
    var h := (v - one) / 2;
    MulMono2(0, one, 0, price);
    MulMono2(0, h, 0, price);
    SellingTwoArithmetic(one, two, price, v, h, PreciseMul(h, price));
    MulCancel(PreciseMul(h, price), two, UNIT);
  }

  lemma SellingTwoArithmetic(one: int, two: int, price: int, v: int, h: int, y: int)
    requires one * price >= 0 && price > 0 && y >= 0
    requires v * price <= two * UNIT < (v + 1) * price
    requires 2 * h <= v - one <= 2 * h + 1
    requires y * UNIT <= h * price < (y + 1) * UNIT
    ensures 0 <= (two - y) * UNIT - (one * price + y * UNIT) < 2 * (price + UNIT)
  {
    assert (v + 1) * price == v * price + price;
    MulMono(2 * h, v - one, price);
    MulMono(v - one, 2 * h + 1, price);
    assert (v - one) * price == v * price - one * price;
    assert 2 * h * price == 2 * (h * price);
    assert (2 * h + 1) * price == 2 * (h * price) + price;
  }
}
