/**
 * The C integer types used across the model, their limits, and the
 * `add_numbers` helper of the data-types demonstration.
 *
 * C integer widths are written out as subset types of `int`: the model never
 * relies on wrap-around, and a signed overflow (undefined behaviour in C) is
 * excluded by the preconditions of the operations that could cause it.
 */
module DataTypes {

  /** 2 raised to `n`. */
  function Pow2(n: nat): (r: nat)
    ensures r >= 1
    ensures n >= 1 ==> r % 2 == 0
  {
    if n == 0 then 1 else 2 * Pow2(n - 1)
  }

  /** Largest value of an unsigned integer type that is `bits` wide. */
  function UnsignedMax(bits: nat): nat {
    Pow2(bits) - 1
  }

  /** Largest value of a two's-complement signed type that is `bits` wide. */
  function SignedMax(bits: nat): int
    requires bits >= 1
  {
    Pow2(bits - 1) - 1
  }

  /** Smallest value of a two's-complement signed type that is `bits` wide. */
  function SignedMin(bits: nat): int
    requires bits >= 1
  {
    -(Pow2(bits - 1) as int)
  }

  const UInt8Max := 255
  const Int8Min := -128
  const Int8Max := 127
  const Int16Min := -32768
  const Int16Max := 32767
  const Int32Min := -2147483648
  const Int32Max := 2147483647
  const UInt32Max := 4294967295
  const UInt64Max := 18446744073709551615

  /** `unsigned char` */
  type UInt8 = x: int | 0 <= x <= UInt8Max
  /** `signed char` */
  type Int8 = x: int | Int8Min <= x <= Int8Max
  /** `short` */
  type Int16 = x: int | Int16Min <= x <= Int16Max
  /** `int` */
  type Int32 = x: int | Int32Min <= x <= Int32Max
  /** `unsigned int` */
  type UInt32 = x: int | 0 <= x <= UInt32Max
  /** `unsigned long` on a 64-bit target */
  type UInt64 = x: int | 0 <= x <= UInt64Max

  // The literal initialisers of the demonstration, each typed as in the C
  // declaration; the verifier checks that every literal fits its type.
  const PositiveOnly: UInt32 := 4294967295
  const ByteValue: UInt8 := 255
  const SmallSigned: Int8 := -128
  const BigPositive: UInt64 := 18446744073709551615
  const SmallRange: Int16 := -32768

  /** `add_numbers`: the sum of two `int`s, defined when it does not overflow. */
  function AddNumbers(a: Int32, b: Int32): (r: Int32)
    requires Int32Min <= a + b <= Int32Max
    ensures r - b == a
    ensures r - a == b
  {
    a + b
  }

  /** The demonstration's call `add_numbers(25, 95)` prints 120. */
  lemma AddNumbersExample()
    ensures AddNumbers(25, 95) == 120
  {
  }

  /** Exponents add when powers of two multiply. */
  lemma {:induction false} Pow2Sum(a: nat, b: nat)
    ensures Pow2(a + b) == Pow2(a) * Pow2(b)
  {
    if a > 0 {
      Pow2Sum(a - 1, b);
      assert Pow2(a + b) == 2 * Pow2(a - 1 + b);
    }
  }

  lemma Pow2Of8()
    ensures Pow2(8) == 256
  {
    assert Pow2(2) == 4;
    Pow2Sum(2, 2);
    Pow2Sum(4, 4);
  }

  /** The widths the demonstration uses, as powers of two. */
  lemma Pow2Widths()
    ensures Pow2(7) == 128 && Pow2(8) == 256
    ensures Pow2(15) == 32768 && Pow2(16) == 65536
    ensures Pow2(31) == 2147483648 && Pow2(32) == 4294967296
    ensures Pow2(64) == 18446744073709551616
  {
    Pow2Of8();
    assert Pow2(7) == 128;
    Pow2Sum(8, 8);
    assert Pow2(16) == 65536;
    assert Pow2(15) == 32768;
    Pow2Sum(16, 16);
    assert Pow2(32) == 4294967296;
    assert Pow2(31) == 2147483648;
    Pow2Sum(32, 32);
  }

  /**
   * Each literal of the demonstration is the limit its comment claims:
   * 255 and 4294967295 are the 8- and 32-bit unsigned maxima, -128 and
   * -32768 the 8- and 16-bit signed minima, and 18446744073709551615 the
   * 64-bit unsigned maximum.
   */
  lemma LiteralsAreLimits()
    ensures ByteValue == UnsignedMax(8)
    ensures PositiveOnly == UnsignedMax(32)
    ensures SmallSigned == SignedMin(8)
    ensures SmallRange == SignedMin(16)
    ensures BigPositive == UnsignedMax(64)
  {
    Pow2Widths();
  }

  /** The named bounds of every subset type agree with the width formulas. */
  lemma TypeBoundsMatchWidths()
    ensures UInt8Max == UnsignedMax(8)
    ensures Int8Min == SignedMin(8) && Int8Max == SignedMax(8)
    ensures Int16Min == SignedMin(16) && Int16Max == SignedMax(16)
    ensures Int32Min == SignedMin(32) && Int32Max == SignedMax(32)
    ensures UInt32Max == UnsignedMax(32)
    ensures UInt64Max == UnsignedMax(64)
  {
    Pow2Widths();
  }

  /**
   * "unsigned doubles the positive range": the unsigned maximum of a width is
   * twice the signed maximum plus one, and both types hold equally many values.
   */
  lemma UnsignedDoublesPositiveRange(bits: nat)
    requires bits >= 1
    ensures UnsignedMax(bits) == 2 * SignedMax(bits) + 1
    ensures UnsignedMax(bits) + 1 == SignedMax(bits) - SignedMin(bits) + 1
  {
  }

  /** A product divided by one of its nonzero factors gives back the other, with no remainder. */
  lemma ProductDivides(a: int, b: int)
    ensures b != 0 ==> (a * b) / b == a && (a * b) % b == 0
  {
    if b != 0 {
      var q, r := (a * b) / b, (a * b) % b;
      assert a * b == q * b + r;
      assert (a - q) * b == r;
      MultipleBelowDivisor(a - q, b);
    }
  }

  /** The only multiple of a nonzero `d` in the range 0 .. |d| - 1 is zero. */
  lemma MultipleBelowDivisor(k: int, d: int)
    requires d != 0
    ensures 0 <= k * d < (if d > 0 then d else -d) ==> k == 0
  {
    if k >= 1 {
      assert k * d == d + (k - 1) * d;
    } else if k <= -1 {
      assert k * d == -d + (k + 1) * d;
    }
  }
}
