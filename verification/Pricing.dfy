/** Prices in integer micro-credits per million tokens, in 64-bit arithmetic that wraps. */
module Pricing {

  const MAX64: int := 0x7FFF_FFFF_FFFF_FFFF
  const TWO64: int := 0x1_0000_0000_0000_0000

  predicate InRange(x: int) {
    -MAX64 - 1 <= x <= MAX64
  }

  /** Two's complement: the 64-bit value of an exact result. */
  function Wrap(x: int): (r: int)
    ensures InRange(r) && (InRange(x) <==> r == x)
  {
    (x + MAX64 + 1) % TWO64 - MAX64 - 1
  }

  /** Only the value modulo 2^64 matters. */
  lemma WrapOfWrap(x: int, y: int)
    ensures Wrap(Wrap(x) + y) == Wrap(x + y) && Wrap(y + Wrap(x)) == Wrap(x + y) && Wrap(y - Wrap(x)) == Wrap(y - x)
    ensures Wrap(Wrap(x)) == Wrap(x)
  {
    var k := (x + MAX64 + 1) / TWO64;
    assert Wrap(x) == x - k * TWO64;
    Shifted(x + y, -k);
    Shifted(y - x, k);
  }

  lemma Shifted(x: int, k: int)
    ensures Wrap(x + k * TWO64) == Wrap(x)
  {
    var a := x + MAX64 + 1;
    var q, r := a / TWO64, a % TWO64;
    assert a + k * TWO64 == (q + k) * TWO64 + r;
    RemainderIs(a + k * TWO64, q + k, r);
  }

  lemma RemainderIs(n: int, q: int, r: int)
    requires 0 <= r < TWO64 && n == q * TWO64 + r
    ensures n % TWO64 == r
  {
  }

  /** Go's division truncates toward zero. */
  function TruncDiv(a: int, b: int): (q: int)
    requires b > 0
    ensures if a >= 0 then 0 <= a - q * b < b else -b < a - q * b <= 0
  {
    if a >= 0 then a / b else -(-a / b)
  }

  /** `costMicro`. */
  function CostMicro(tokens: int, price: int): int {
    if tokens <= 0 || price <= 0 then 0
    else TruncDiv(Wrap(Wrap(tokens * price) + 500_000), 1_000_000)
  }

  /** Whether the computation stays within 64 bits. */
  predicate Fits(tokens: int, price: int) {
    tokens > 0 && price > 0 ==> tokens * price + 500_000 <= MAX64
  }

  /** The exact price rounded half up, in unbounded arithmetic. */
  function Rounded(tokens: int, price: int): int {
    if tokens <= 0 || price <= 0 then 0 else (tokens * price + 500_000) / 1_000_000
  }

  /** The cost is the rounded price exactly when the computation does not overflow. */
  lemma CostIsRoundedIffFits(tokens: int, price: int)
    ensures CostMicro(tokens, price) == Rounded(tokens, price) <==> Fits(tokens, price)
  {
    if tokens > 0 && price > 0 {
      Positive(tokens, price);
      WrapOfWrap(tokens * price, 500_000);
      OverflowShows(tokens * price + 500_000);
    }
  }

  lemma Positive(a: int, b: int)
    requires a > 0 && b > 0
    ensures a * b > 0
  {
  }

  lemma OverflowShows(n: int)
    requires n > 500_000
    ensures TruncDiv(Wrap(n), 1_000_000) == n / 1_000_000 <==> n <= MAX64
  {
    if n > MAX64 {
      if n < TWO64 {
        assert Wrap(n) == n - TWO64;
      } else {
        assert Wrap(n) <= MAX64;
      }
    }
  }

  /** Within half a micro-credit of exact. */
  lemma WithinHalf(tokens: int, price: int)
    requires Fits(tokens, price) && tokens >= 0 && price >= 0
    ensures -500_000 <= CostMicro(tokens, price) * 1_000_000 - tokens * price <= 500_000
    ensures CostMicro(tokens, price) >= 0
  {
    CostIsRoundedIffFits(tokens, price);
    if tokens == 0 || price == 0 {
      assert tokens * price == 0;
    } else {
      Positive(tokens, price);
    }
  }

  /** More tokens never cost less. */
  lemma Monotone(a: int, b: int, price: int)
    requires a <= b && Fits(b, price)
    ensures 0 <= CostMicro(a, price) <= CostMicro(b, price) && Fits(a, price)
  {
    if price > 0 && a > 0 {
      TimesMonotone(a, b, price);
    }
    CostIsRoundedIffFits(a, price);
    CostIsRoundedIffFits(b, price);
    if b > 0 && price > 0 {
      Positive(b, price);
    }
  }

  lemma TimesMonotone(a: int, b: int, c: int)
    requires 0 < a <= b && c > 0
    ensures 0 < a * c <= b * c
  {
  }

  /** Past the bound a larger count can cost less, even less than nothing. */
  lemma OverflowCanRefund()
    ensures CostMicro(10_000_000_000_000, 1_000_000) < 0
  {
    assert Wrap(10_000_000_000_000 * 1_000_000) == 10_000_000_000_000_000_000 - TWO64;
  }
}
