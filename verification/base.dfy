/**
 * Shared vocabulary: optional values, results with an error payload, the
 * ranges of the fixed-width Rust integers the engine uses, and Rust's
 * truncating integer division.
 */
module Base {
  datatype Option<T> = None | Some(value: T)

  datatype Result<T, E> = Ok(value: T) | Err(error: E)

  const I16_MIN: int := -0x8000
  const I16_MAX: int := 0x7FFF
  const I32_MIN: int := -0x8000_0000
  const I32_MAX: int := 0x7FFF_FFFF
  const U16_MAX: int := 0xFFFF
  const U64_MAX: int := 0xFFFF_FFFF_FFFF_FFFF

  predicate IsI16(x: int) { I16_MIN <= x <= I16_MAX }
  predicate IsI32(x: int) { I32_MIN <= x <= I32_MAX }
  predicate IsU16(x: int) { 0 <= x <= U16_MAX }
  predicate IsU64(x: int) { 0 <= x <= U64_MAX }

  function Abs(x: int): (r: nat)
    ensures r == x || r == -x
  {
    if x < 0 then -x else x
  }

  /**
   * Rust's `/` on signed integers: the quotient is rounded toward zero, so
   * the remainder takes the sign of the dividend (Dafny's own `/` is
   * Euclidean instead).
   */
  function TruncDiv(a: int, b: int): int
    requires b != 0
  {
    if a >= 0 && b > 0 then a / b
    else if a >= 0 then -(a / -b)
    else if b > 0 then -((-a) / b)
    else (-a) / (-b)
  }

  /** The remainder left by `TruncDiv` is smaller than the divisor and has the sign of the dividend. */
  lemma TruncDivMeaning(a: int, b: int)
    requires b != 0
    ensures Abs(a - TruncDiv(a, b) * b) < Abs(b)
    ensures a >= 0 ==> a - TruncDiv(a, b) * b >= 0
    ensures a <= 0 ==> a - TruncDiv(a, b) * b <= 0
  {
    var n := if a >= 0 then a else -a;
    var d := if b > 0 then b else -b;
    var k := n / d;
    DivRemainder(n, d);
    assert TruncDiv(a, b) * b == (if a >= 0 then k * d else -(k * d)) by {
      NegateProduct(k, d);
    }
  }

  /** Euclidean division of a natural number leaves a remainder below the divisor. */
  lemma DivRemainder(n: nat, d: int)
    requires d > 0
    ensures 0 <= n - (n / d) * d < d
  {
  }

  lemma NegateProduct(x: int, y: int)
    ensures (-x) * y == -(x * y) && x * (-y) == -(x * y) && (-x) * (-y) == x * y
  {
  }

  /** Rust's `as i16`: the value modulo 2^16, read as a signed number. */
  function WrapI16(x: int): (r: int)
    ensures IsI16(r)
    ensures (r - x) % 0x1_0000 == 0
    ensures IsI16(x) ==> r == x
  {
    (x + 0x8000) % 0x1_0000 - 0x8000
  }

  /** A truncated quotient times a positive divisor brackets the dividend from the side of zero. */
  lemma TruncDivBracket(x: int, d: int)
    requires d > 0
    ensures x >= 0 ==> TruncDiv(x, d) * d <= x < TruncDiv(x, d) * d + d
    ensures x < 0 ==> TruncDiv(x, d) * d - d < x <= TruncDiv(x, d) * d
  {
    TruncDivMeaning(x, d);
  }

  /** Multiplying by a positive number keeps a strict order, in both directions. */
  lemma MulStrict(a: int, b: int, d: int)
    requires d > 0
    ensures a < b <==> a * d < b * d
    ensures (a + 1) * d == a * d + d && (a - 1) * d == a * d - d && d * a == a * d
  {
    if a < b {
      MulMonotone(a + 1, b, d);
    } else {
      MulMonotone(b, a, d);
    }
  }

  /** A truncated quotient stays between the bounds its dividend lies between, scaled. */
  lemma TruncDivBetween(x: int, d: int, lo: int, hi: int)
    requires d > 0 && d * lo <= x <= d * hi
    ensures lo <= TruncDiv(x, d) <= hi
  {
    var q := TruncDiv(x, d);
    TruncDivBracket(x, d);
    MulStrict(q, hi + 1, d);
    MulStrict(lo - 1, q, d);
    MulStrict(hi, q, d);
    MulStrict(lo, q, d);
  }

  /** For a non-negative dividend the quotient rounds down, so the upper bound may sit anywhere below the next multiple. */
  lemma NatDivBetween(x: int, d: int, lo: int, hi: int)
    requires d > 0 && 0 <= x && d * lo <= x < d * hi + d
    ensures lo <= TruncDiv(x, d) <= hi
  {
    var q := TruncDiv(x, d);
    TruncDivBracket(x, d);
    MulStrict(q, hi + 1, d);
    MulStrict(lo - 1, q, d);
    MulStrict(hi, q, d);
    MulStrict(lo, q, d);
  }

  lemma MulMonotone(a: int, b: int, d: int)
    requires a <= b && d >= 0
    ensures a * d <= b * d
    ensures a * d == (a - 1) * d + d
  {
  }
}
