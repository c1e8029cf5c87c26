/** Fixed-point arithmetic with 18 decimals (utils/common/mathUtils.ts). */
module MathUtils {
  import opened BigNumbers

  /** PRECISE_UNIT: the number one. */
  const UNIT: int := 1_000_000_000_000_000_000

  function PreciseMul(a: int, b: int): (r: int)
    ensures a * b >= 0 ==> 0 <= r * UNIT <= a * b < (r + 1) * UNIT
    ensures a * b <= 0 ==> (r - 1) * UNIT < a * b <= r * UNIT <= 0
  {
    TruncDiv(a * b, UNIT)
  }

  function PreciseMulCeil(a: int, b: int): (r: int)
    ensures a * b >= 0 ==> (r - 1) * UNIT < a * b <= r * UNIT
    ensures a * b < 0 ==> (r - 2) * UNIT < a * b - 1 <= (r - 1) * UNIT
  {
    if a == 0 || b == 0 then 0
    else
      TruncDiv(a * b - 1, UNIT) + 1
  }

  function PreciseMulCeilInt(a: int, b: int): (r: int)
    ensures (Abs(r) - 1) * UNIT < Abs(a * b) <= Abs(r) * UNIT
    ensures a * b >= 0 ==> r >= 0
    ensures a * b <= 0 ==> r <= 0
  {
    if a == 0 || b == 0 then 0
    else if (a > 0 && b > 0) || (a < 0 && b < 0) then
      ProductSign(a, b);
      TruncDiv(a * b - 1, UNIT) + 1
    else
      ProductSign(a, b);
      TruncDiv(a * b + 1, UNIT) - 1
  }

  function PreciseDiv(a: int, b: int): (r: int)
    requires b != 0
    ensures a >= 0 && b > 0 ==> r >= 0 && r * b <= a * UNIT < (r + 1) * b
  {
    TruncDiv(a * UNIT, b)
  }

  function PreciseDivCeil(a: int, b: int): (r: int)
    ensures a == 0 || b == 0 ==> r == 0
    ensures a >= 0 && b > 0 ==> r >= 0 && (r - 1) * b < a * UNIT <= r * b
    ensures a < 0 && b > 0 ==> (r - 2) * b < a * UNIT - 1 <= (r - 1) * b
    ensures a > 0 && b < 0 ==> (r - 1) * b <= a * UNIT - 1 < (r - 2) * b
    ensures a < 0 && b < 0 ==> r * b < a * UNIT - 1 <= (r - 1) * b
  {
    if a == 0 || b == 0 then 0
    else
      TruncDivBounds(a * UNIT - 1, b);
      TruncDiv(a * UNIT - 1, b) + 1
  }

  function PreciseDivCeilInt(a: int, b: int): (r: int)
    ensures a == 0 || b == 0 ==> r == 0
  {
    if a == 0 || b == 0 then 0
    else if (a > 0 && b > 0) || (a < 0 && b < 0) then
      TruncDiv(a * UNIT - 1, b) + 1
    else
      TruncDiv(a * UNIT + 1, b) - 1
  }

  /** The source starts from the truncated quotient and corrects it downward. */
  method DivDown(a: int, b: int) returns (result: int)
    requires b != 0
    ensures result == FloorDiv(a, b)
  {
    result := TruncDiv(a, b);
    FloorFromTrunc(a, b);
    if a < 0 && b > 0 && a % b != 0 {
      result := result - 1;
    } else if a > 0 && b < 0 && a % -b != 0 {
      result := result - 1;
    }
  }

  function Min(valueOne: int, valueTwo: int): (r: int)
    ensures r <= valueOne && r <= valueTwo && r in {valueOne, valueTwo}
  {
    if valueOne < valueTwo then valueOne else valueTwo
  }

  lemma ProductSign(a: int, b: int)
    ensures (a > 0 && b > 0) || (a < 0 && b < 0) ==> a * b > 0
    ensures (a > 0 && b < 0) || (a < 0 && b > 0) ==> a * b < 0
  {
  }

  /** Rounding the negative of n / d down, in terms of n / d. */
  lemma FloorBelowZero(n: int, d: int)
    requires n > 0 && d > 0
    ensures -n % d == 0 <==> n % d == 0
    ensures -n / d == if n % d == 0 then -(n / d) else -(n / d) - 1
  {
    var q, r := n / d, n % d;
    assert n == q * d + r;
    if r == 0 {
      assert -q * d == -n && (-q + 1) * d == -n + d;
      DivUnique(-n, d, -q);
    } else {
      assert (-q - 1) * d == -(q * d) - d && (-q - 1 + 1) * d == -(q * d);
      DivUnique(-n, d, -q - 1);
    }
  }

  /** The truncated quotient is the floor, or one above it when the signs differ and b does not divide a. */
  lemma FloorFromTrunc(a: int, b: int)
    requires b != 0
    ensures FloorDiv(a, b) ==
            if (a < 0 && b > 0 && a % b != 0) || (a > 0 && b < 0 && a % -b != 0)
            then TruncDiv(a, b) - 1 else TruncDiv(a, b)
  {
    if a < 0 && b > 0 {
      FloorBelowZero(-a, b);
    } else if a > 0 && b < 0 {
      FloorBelowZero(a, -b);
    } else if a == 0 && b < 0 {
      DivUnique(0, -b, 0);
    }
  }
}
