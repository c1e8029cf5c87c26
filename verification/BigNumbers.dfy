/** Integer division as the BigNumber library offers it, and the two mathematical
    divisions (floor and ceiling) that the arithmetic helpers approximate with it. */
module BigNumbers {

  function Abs(a: int): nat {
    if a < 0 then -a else a
  }

  /** `BigNumber.div`: the quotient truncated toward zero. Dividing by zero throws. */
  function TruncDiv(a: int, b: int): int
    requires b != 0
  {
    if b > 0 then
      if a >= 0 then a / b else -(-a / b)
    else
      if a >= 0 then -(a / -b) else -a / -b
  }

  /** The rational a / b rounded down. */
  function FloorDiv(a: int, b: int): (q: int)
    requires b != 0
    ensures b > 0 ==> q * b <= a < (q + 1) * b
    ensures b < 0 ==> q * b >= a > (q + 1) * b
  {
    if b > 0 then a / b
    else
      assert (-a / -b) * -b + (-a % -b) == -a;
      -a / -b
  }

  /** The rational a / b rounded up. */
  function CeilDiv(a: int, b: int): (q: int)
    requires b > 0
    ensures (q - 1) * b < a <= q * b
  {
    -(-a / b)
  }

  // ----- Laws of products and quotients

  lemma MulMono(a: int, b: int, k: int)
    requires a <= b && 0 <= k
    ensures a * k <= b * k && k * a <= k * b
  {
  }

  lemma MulMono2(a: int, b: int, c: int, d: int)
    requires 0 <= a <= b && 0 <= c <= d
    ensures 0 <= a * c <= b * d
  {
  }

  lemma MulCancel(a: int, b: int, k: int)
    requires 0 < k && a * k <= b * k
    ensures a <= b
  {
  }

  lemma MulCancelStrict(a: int, b: int, k: int)
    requires 0 < k && a * k < b * k
    ensures a < b
  {
  }

  lemma DivBounds(n: int, d: int)
    requires d > 0
    ensures n / d * d <= n < (n / d + 1) * d
  {
  }

  /** A quotient is the one integer whose multiples sandwich the dividend. */
  lemma DivUnique(n: int, d: int, q: int)
    requires d > 0 && q * d <= n < (q + 1) * d
    ensures q == n / d
  {
    MulCancelStrict(q, n / d + 1, d);
    MulCancelStrict(n / d, q + 1, d);
  }

  lemma DivMono(m: int, n: int, d: int)
    requires d > 0 && m <= n
    ensures m / d <= n / d
  {
    MulCancelStrict(m / d, n / d + 1, d);
  }

  /** Galois connection of floor division. */
  lemma DivGalois(k: int, n: int, d: int)
    requires d > 0
    ensures k <= n / d <==> k * d <= n
  {
    if k <= n / d {
      MulMono(k, n / d, d);
    }
    if k * d <= n {
      MulCancelStrict(k, n / d + 1, d);
    }
  }

  lemma TruncDivNonNeg(a: int, b: int)
    requires 0 <= a && 0 < b
    ensures TruncDiv(a, b) == a / b >= 0
    ensures TruncDiv(a, b) * b <= a < (TruncDiv(a, b) + 1) * b
  {
  }

  /** What truncation means for every pair of signs. */
  lemma TruncDivTruncates(a: int, b: int)
    requires b != 0
    ensures Abs(TruncDiv(a, b)) * Abs(b) <= Abs(a) < (Abs(TruncDiv(a, b)) + 1) * Abs(b)
    ensures TruncDiv(a, b) > 0 ==> (a > 0 <==> b > 0)
    ensures TruncDiv(a, b) < 0 ==> (a > 0 <==> b < 0)
  {
    DivBounds(Abs(a), Abs(b));
    assert Abs(a) / Abs(b) >= 0 by { DivGalois(0, Abs(a), Abs(b)); }
  }

  /** The truncated quotient lies toward zero from the exact one. */
  lemma TruncDivBounds(a: int, b: int)
    requires b != 0
    ensures var q := TruncDiv(a, b);
            && (a >= 0 && b > 0 ==> q >= 0 && q * b <= a < (q + 1) * b)
            && (a < 0 && b > 0 ==> (q - 1) * b < a <= q * b)
            && (a >= 0 && b < 0 ==> q * b <= a < (q - 1) * b)
            && (a < 0 && b < 0 ==> (q + 1) * b < a <= q * b)
  {
    var d, n := Abs(b), Abs(a) / Abs(b);
    DivBounds(Abs(a), d);
    DivGalois(0, Abs(a), d);
    NegProduct(n, d);
    NegProduct(n + 1, d);
  }

  lemma NegProduct(n: int, d: int)
    ensures n * -d == -n * d == -(n * d) && -n * -d == n * d
  {
  }

  lemma CeilUnique(n: int, d: int, q: int)
    requires d > 0 && (q - 1) * d < n <= q * d
    ensures q == CeilDiv(n, d)
  {
    MulCancelStrict(q - 1, CeilDiv(n, d), d);
    MulCancelStrict(CeilDiv(n, d) - 1, q, d);
  }

  /** The ceiling through `sub(1).div(d).add(1)`, the idiom of the rounding-up helpers. */
  lemma CeilIdiom(n: int, d: int)
    requires d > 0
    ensures CeilDiv(n, d) == (n - 1) / d + 1
  {
    DivBounds(n - 1, d);
    CeilUnique(n, d, (n - 1) / d + 1);
  }
}
