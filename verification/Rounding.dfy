/** What the rounding helpers of MathUtils mean, over inputs of either sign. */
module Rounding {
  import opened BigNumbers
  import opened MathUtils

  /** Quantities have 18 decimals: multiplying or dividing by one changes nothing. */
  lemma OneIsNeutral(a: int)
    ensures PreciseMul(a, 1_000_000_000_000_000_000) == a == PreciseDiv(a, 1_000_000_000_000_000_000)
  {
    TruncDivBounds(a * UNIT, UNIT);
  }

  lemma PreciseDivRoundsTowardZero(a: int, b: int)
    requires b != 0
    ensures Abs(PreciseDiv(a, b)) * Abs(b) <= Abs(a) * UNIT < (Abs(PreciseDiv(a, b)) + 1) * Abs(b)
    ensures PreciseDiv(a, b) > 0 ==> (a > 0 <==> b > 0)
    ensures PreciseDiv(a, b) < 0 ==> (a > 0 <==> b < 0)
  {
    TruncDivTruncates(a * UNIT, b);
  }

  lemma PreciseMulCeilIntRoundsAway(a: int, b: int)
    ensures Abs(PreciseMulCeilInt(a, b)) == CeilDiv(Abs(a) * Abs(b), UNIT)
    ensures a * b >= 0 ==> PreciseMulCeilInt(a, b) >= 0
    ensures a * b <= 0 ==> PreciseMulCeilInt(a, b) <= 0
  {
  }

  lemma PreciseDivCeilIntRoundsAway(a: int, b: int)
    requires b > 0
    ensures Abs(PreciseDivCeilInt(a, b)) == CeilDiv(Abs(a) * UNIT, b)
    ensures (a >= 0 ==> PreciseDivCeilInt(a, b) >= 0) && (a <= 0 ==> PreciseDivCeilInt(a, b) <= 0)
  {
    CeilIdiom(Abs(a) * UNIT, b);
    if a != 0 {
      DivGalois(0, Abs(a) * UNIT - 1, b);
      assert a < 0 ==> a * UNIT + 1 == -(Abs(a) * UNIT - 1);
    }
  }

  /** How far the next multiple can be from (n + 1) / d + 1. */
  lemma CeilOfSuccessor(n: int, d: int)
    requires n >= 0 && d > 0
    ensures (n + 1) / d + 1 - CeilDiv(n, d) ==
            if d == 1 then 2 else if n % d == 0 || n % d == d - 1 then 1 else 0
  {
    var q, r := n / d, n % d;
    assert n == q * d + r;
    assert (q + 1) * d == q * d + d && (q + 1 + 1) * d == q * d + 2 * d;
    if r == d - 1 {
      DivUnique(n + 1, d, q + 1);
    } else {
      DivUnique(n + 1, d, q);
    }
    if r == 0 {
      assert (q - 1) * d == q * d - d;
      CeilUnique(n, d, q);
    } else {
      CeilUnique(n, d, q + 1);
    }
  }

  /** For a negative divisor the added and subtracted one points the wrong way: the magnitude is the
      ceiling exactly when the remainder is neither 0 nor |b| - 1, and otherwise one or two too large. */
  lemma PreciseDivCeilIntNegativeDivisor(a: int, b: int)
    requires b < 0 && a != 0
    ensures var n := Abs(a) * UNIT;
            var excess := Abs(PreciseDivCeilInt(a, b)) - CeilDiv(n, -b);
            && 0 <= excess <= 2
            && (excess == 0 <==> b != -1 && n % -b != 0 && n % -b != -b - 1)
            && (excess == 2 <==> b == -1)
    ensures if a > 0 then PreciseDivCeilInt(a, b) < 0 else PreciseDivCeilInt(a, b) > 0
  {
    var n := Abs(a) * UNIT;
    CeilOfSuccessor(n, -b);
    if a < 0 {
      assert a * UNIT - 1 == -(n + 1);
    } else {
      assert a * UNIT + 1 == n + 1;
    }
    assert Abs(PreciseDivCeilInt(a, b)) == (n + 1) / -b + 1;
  }

  /** Stepping the dividend by one moves the floor only onto a multiple. */
  lemma FloorOfSuccessor(n: int, d: int)
    requires n >= 0 && d > 0
    ensures (n + 1) / d == n / d + (if n % d == d - 1 then 1 else 0)
    ensures n % d == d - 1 <==> (n + 1) % d == 0
  {
    var q, r := n / d, n % d;
    assert n == q * d + r && (q + 1) * d == q * d + d && (q + 2) * d == q * d + 2 * d;
    if r == d - 1 {
      DivUnique(n + 1, d, q + 1);
      assert (n + 1) % d == n + 1 - (q + 1) * d;
    } else {
      DivUnique(n + 1, d, q);
      assert (n + 1) % d == n + 1 - q * d;
    }
  }

  /** The rational a / b rounded up, for a divisor of either sign. */
  function Ceiling(a: int, b: int): int
    requires b != 0
  {
    -FloorDiv(-a, b)
  }

  /** preciseDivCeil never falls below the ceiling; how far above it lands for every pair of signs. */
  lemma PreciseDivCeilExcess(a: int, b: int)
    requires a != 0 && b != 0
    ensures var n, d := Abs(a) * UNIT, Abs(b);
            PreciseDivCeil(a, b) - Ceiling(a * UNIT, b) ==
            if a > 0 && b > 0 then 0
            else if a < 0 && b > 0 then (if n % d == d - 1 then 0 else 1)
            else if a > 0 && b < 0 then (if n % d == 0 then 2 else 1)
            else if d == 1 then 2 else if n % d == 0 || n % d == d - 1 then 1 else 0
  {
    var n, d := Abs(a) * UNIT, Abs(b);
    if a > 0 && b > 0 {
      CeilIdiom(n, d);
    } else if b > 0 {
      FloorOfSuccessor(n, d);
      assert a * UNIT - 1 == -(n + 1);
    } else if a > 0 {
      FloorOfSuccessor(n - 1, d);
    } else {
      CeilOfSuccessor(n, d);
      assert a * UNIT - 1 == -(n + 1);
    }
  }

  // ----- Virtual units (test/protocol/setToken.spec.ts)

  function RealToVirtual(realUnit: int, multiplier: int): int
    requires multiplier != 0
  {
    FloorDiv(realUnit * UNIT, multiplier)
  }

  function VirtualToReal(virtualUnit: int, multiplier: int): int {
    FloorDiv(virtualUnit * multiplier, UNIT)
  }

  /** Storing a unit as a virtual one and reading it back is conservative for both signs. */
  lemma VirtualRoundTrip(unit: int, multiplier: int)
    requires multiplier > 0
    ensures var stored := RealToVirtual(unit, multiplier);
            var back := VirtualToReal(stored, multiplier);
            ReadBack(unit, multiplier, stored, back) && back <= unit && (unit - back) * UNIT < multiplier + UNIT
  {
  }

  /** The largest virtual unit worth no more than the real one, and the largest real unit worth no more than that. */
  predicate ReadBack(unit: int, multiplier: int, stored: int, back: int) {
    && stored * multiplier <= unit * UNIT < (stored + 1) * multiplier
    && back * UNIT <= stored * multiplier < (back + 1) * UNIT
  }

  /** The method form of the same conversion, through the source's own divDown. */
  method StoreAndReadUnit(unit: int, multiplier: int) returns (stored: int, back: int)
    requires multiplier > 0
    ensures ReadBack(unit, multiplier, stored, back)
    ensures back <= unit && (unit - back) * UNIT < multiplier + UNIT
  {
    stored := DivDown(unit * UNIT, multiplier);
    back := DivDown(stored * multiplier, UNIT);
    VirtualRoundTrip(unit, multiplier);
  }
}
