/** Two's complement arithmetic of Go's int32 and int64. */
module FixedWidth {
  const MIN_INT32: int := -0x8000_0000
  const MAX_INT32: int := 0x7fff_ffff
  const MIN_INT64: int := -0x8000_0000_0000_0000
  const MAX_INT64: int := 0x7fff_ffff_ffff_ffff

  type Int32 = x: int | -0x8000_0000 <= x <= 0x7fff_ffff
  type Int64 = x: int | -0x8000_0000_0000_0000 <= x <= 0x7fff_ffff_ffff_ffff

  /** The value that an arithmetic result takes when it is stored in 32 bits. */
  function Wrap32(x: int): (r: Int32)
    ensures MIN_INT32 <= x <= MAX_INT32 ==> r == x
  {
    if MIN_INT32 <= x <= MAX_INT32 then x else (x + 0x8000_0000) % 0x1_0000_0000 - 0x8000_0000
  }

  /** The value that an arithmetic result takes when it is stored in 64 bits. */
  function Wrap64(x: int): (r: Int64)
    ensures MIN_INT64 <= x <= MAX_INT64 ==> r == x
  {
    if MIN_INT64 <= x <= MAX_INT64 then x
    else (x + 0x8000_0000_0000_0000) % 0x1_0000_0000_0000_0000 - 0x8000_0000_0000_0000
  }

  /** Go's integer division, which truncates toward zero. */
  function TruncatedQuotient(a: int, b: int): (q: int)
    requires b > 0
    ensures if a >= 0 then 0 <= q <= a else a <= q <= 0
  {
    QuotientBounds(if a >= 0 then a else -a, b);
    if a >= 0 then a / b else -((-a) / b)
  }

  /** Of all values of the width, the stored one is that which differs by a multiple of the number of values. */
  lemma WrapMeans(x: int)
    ensures (Wrap32(x) - x) % 0x1_0000_0000 == 0
    ensures (Wrap64(x) - x) % 0x1_0000_0000_0000_0000 == 0
  {
  }

  /** The quotient leaves less than the divisor, and towards zero. */
  lemma TruncatedQuotientMeans(a: int, b: int)
    requires b > 0
    ensures var q := TruncatedQuotient(a, b);
      if a >= 0 then q * b <= a < q * b + b else q * b - b < a <= q * b
  {
  }

  lemma MulNonNegative(a: int, b: int)
    requires a >= 0 && b >= 0
    ensures a * b >= 0
  {
  }

  lemma Distributes(a: int, j: int, k: int)
    ensures a * (j + k) == a * j + a * k
  {
  }

  lemma MulMonotone(a: int, j: int, k: int)
    requires a >= 0 && j <= k
    ensures a * j <= a * k
  {
    MulNonNegative(a, k - j);
    Distributes(a, j, k - j);
  }

  lemma Division(a: int, b: int)
    requires b > 0
    ensures a == b * (a / b) + a % b && 0 <= a % b < b
  {
  }

  /** Quotients and products: one dimension of the Galois connection of `MaxDivided`. */
  lemma QuotientGalois(a: int, b: int, k: int)
    requires b > 0
    ensures k <= a / b <==> b * k <= a
  {
    var q := a / b;
    Division(a, b);
    if k <= q {
      MulMonotone(b, k, q);
    } else {
      MulMonotone(b, q + 1, k);
      Distributes(b, q, 1);
    }
  }

  lemma QuotientBounds(a: nat, b: int)
    requires b > 0
    ensures 0 <= a / b <= a
  {
    QuotientGalois(a, b, 0);
    QuotientGalois(a, b, a + 1);
    MulMonotone(a + 1, 1, b);
  }

  function Min(a: int, b: int): int {
    if a <= b then a else b
  }

  function Max(a: int, b: int): int {
    if a >= b then a else b
  }
}
