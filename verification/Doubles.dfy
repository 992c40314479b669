/** Doubles as the cache encodes them: the bit pattern of binary64 (section 3.4 of IEEE 754-2019),
    big-endian, so that byte order is numeric order. */
module Doubles {
  import opened Bytes

  const T52 := 4503599627370496           // 2^52
  const T63 := 9223372036854775808        // 2^63

  /** A double that is a number: sign, biased exponent and trailing significand. */
  datatype Pattern = Pattern(neg: bool, exp: nat, man: nat)
  predicate IsNumber(p: Pattern) { p.exp <= 2047 && p.man < T52 && (p.exp == 2047 ==> p.man == 0) }
  type Double = p: Pattern | IsNumber(p) witness Pattern(false, 0, 0)

  function Pow2(n: nat): (r: nat)
    ensures r > 0
  {
    if n == 0 then 1 else 2 * Pow2(n - 1)
  }

  /** The number a pattern stands for, finite ones in units of 2^-1074. */
  datatype Extended = MinusInf | Finite(v: int) | PlusInf

  function Magnitude(d: Double): nat
    requires d.exp < 2047
  {
    if d.exp == 0 then d.man else (T52 + d.man) * Pow2(d.exp - 1)
  }

  function Value(d: Double): Extended {
    if d.exp == 2047 then (if d.neg then MinusInf else PlusInf)
    else
      var m: int := Magnitude(d);
      Finite(if d.neg then -m else m)
  }

  /** The spacing of doubles, as IEEE 754 has it: evenly from zero through the subnormal numbers and
      the first binade, and twice as wide in each binade after that. */
  lemma Spacing(exp: nat, man: nat)
    requires exp < 2046 && man < T52
    ensures Magnitude(Pattern(false, 0, 0)) == 0
    ensures man + 1 < T52 ==>
              Magnitude(Pattern(false, exp, man + 1)) - Magnitude(Pattern(false, exp, man))
              == if exp == 0 then 1 else Pow2(exp - 1)
    ensures Magnitude(Pattern(false, exp + 1, 0)) - Magnitude(Pattern(false, exp, T52 - 1))
         == if exp == 0 then 1 else Pow2(exp - 1)
  {}

  predicate Below(a: Extended, b: Extended) {
    match (a, b)
    case (Finite(x), Finite(y)) => x < y
    case (MinusInf, _) => !b.MinusInf?
    case (_, PlusInf) => !a.PlusInf?
    case _ => false
  }

  function Bits(d: Double): (n: nat)
    ensures n < 2 * T63 && (d.neg <==> n >= T63)
  {
    (if d.neg then T63 else 0) + d.exp * T52 + d.man
  }

  function BigEndian(n: nat, width: nat): (b: Bytes)
    ensures |b| == width
  {
    if width == 0 then [] else BigEndian(n / 256, width - 1) + [n % 256]
  }

  function FromBigEndian(b: Bytes): nat {
    if b == [] then 0 else FromBigEndian(b[..|b| - 1]) * 256 + b[|b| - 1]
  }

  /** be8() and un8(). */
  function Be8(d: Double): (b: Bytes)
    ensures |b| == 8
  {
    BigEndian(Bits(d), 8)
  }

  function Un8(b: Bytes): Pattern {
    var n := FromBigEndian(b);
    Pattern(n >= T63, (n % T63) / T52, n % T52)
  }

  // -------------------------------------------------------------------------
  // Bytes and bits
  // -------------------------------------------------------------------------

  function Pow256(n: nat): (r: nat)
    ensures r > 0
  {
    if n == 0 then 1 else 256 * Pow256(n - 1)
  }

  lemma {:induction false} DecodeBigEndian(n: nat, width: nat)
    requires n < Pow256(width)
    ensures FromBigEndian(BigEndian(n, width)) == n
  {
    if width > 0 {
      DecodeBigEndian(n / 256, width - 1);
      var b := BigEndian(n, width);
      assert b[..|b| - 1] == BigEndian(n / 256, width - 1);
    }
  }

  lemma {:induction false} EncodeBigEndian(b: Bytes)
    ensures FromBigEndian(b) < Pow256(|b|)
    ensures BigEndian(FromBigEndian(b), |b|) == b
  {
    if b != [] {
      EncodeBigEndian(b[..|b| - 1]);
      assert b == b[..|b| - 1] + [b[|b| - 1]];
    }
  }

  lemma {:induction false} BigEndianOrder(m: nat, n: nat, width: nat)
    requires m < Pow256(width) && n < Pow256(width)
    ensures Less(BigEndian(m, width), BigEndian(n, width)) <==> m < n
  {
    if width == 0 {
    } else {
      BigEndianOrder(m / 256, n / 256, width - 1);
      LessByHead(BigEndian(m / 256, width - 1), BigEndian(n / 256, width - 1), [m % 256], [n % 256]);
      if m / 256 == n / 256 {
        LessIrreflexive(BigEndian(m / 256, width - 1));
      } else {
        DecodeBigEndian(m / 256, width - 1);
        DecodeBigEndian(n / 256, width - 1);
      }
    }
  }

  lemma Pow256Of8()
    ensures Pow256(8) == 2 * T63
  {
    assert Pow256(4) == 0x1_0000_0000;
    assert Pow256(6) == 0x1_0000_0000_0000;
  }

  lemma BitsOfFields(neg: bool, exp: nat, man: nat)
    requires exp <= 2047 && man < T52
    ensures var n := (if neg then T63 else 0) + exp * T52 + man;
            (n >= T63 <==> neg) && (n % T63) / T52 == exp && n % T52 == man
  {
    var low := exp * 4503599627370496 + man;
    var n := (if neg then 9223372036854775808 else 0) + low;
    assert n % 9223372036854775808 == low;
    assert low / 4503599627370496 == exp && low % 4503599627370496 == man;
    assert n == ((if neg then 2048 else 0) + exp) * 4503599627370496 + man;
  }

  /** un8 inverts be8... */
  lemma DecodesDouble(d: Double)
    ensures Un8(Be8(d)) == d
  {
    Pow256Of8();
    DecodeBigEndian(Bits(d), 8);
    BitsOfFields(d.neg, d.exp, d.man);
  }

  /** The fields of a bit pattern put it together again. */
  lemma FieldsOfBits(n: nat)
    requires n < 2 * T63
    ensures n == (if n >= T63 then T63 else 0) + ((n % T63) / T52) * T52 + n % T52
  {
    var low := n % 9223372036854775808;
    assert n == (if n >= T63 then 9223372036854775808 else 0) + low;
    assert low == (low / 4503599627370496) * 4503599627370496 + low % 4503599627370496;
    assert n % 4503599627370496 == low % 4503599627370496;
  }

  /** ...and be8 inverts un8 on every eight bytes that are the encoding of a number. */
  lemma EncodesBytes(b: Bytes)
    requires |b| == 8 && IsNumber(Un8(b))
    ensures Be8(Un8(b)) == b
  {
    Pow256Of8();
    EncodeBigEndian(b);
    FieldsOfBits(FromBigEndian(b));
  }

  // -------------------------------------------------------------------------
  // Bits and numbers
  // -------------------------------------------------------------------------

  lemma {:induction false} Pow2Grows(a: nat, b: nat)
    requires a <= b
    ensures Pow2(a) <= Pow2(b)
    decreases b
  {
    if a < b { Pow2Grows(a, b - 1); }
  }

  lemma {:induction false} ScaledOrder(x: nat, y: nat, p: nat)
    requires p > 0
    ensures x < y <==> x * p < y * p
    ensures x == y <==> x * p == y * p
  {
    assert x * p == x * (p - 1) + x && y * p == y * (p - 1) + y;
    if p > 1 { ScaledOrder(x, y, p - 1); }
  }

  lemma ScaledGap(x: nat, y: nat, p: nat, q: nat)
    requires x < 2 * T52 <= 2 * y && 0 < 2 * p <= q
    ensures x * p < y * q
  {
    ScaledOrder(x, 2 * y, p);
    assert (2 * y) * p == y * (2 * p);
    if 2 * p < q {
      ScaledOrder(2 * p, q, y);
      assert y * (2 * p) == (2 * p) * y && y * q == q * y;
    }
  }

  /** A larger exponent outweighs any significand. */
  lemma ExponentDecides(c: Double, d: Double)
    requires c.exp < d.exp < 2047
    ensures Magnitude(c) < Magnitude(d)
  {
    var top := Pow2(d.exp - 1);
    if c.exp == 0 {
      ScaledOrder(0, top, T52 + d.man);
      assert Magnitude(d) >= T52 + d.man by {
        ScaledOrder(1, top, T52 + d.man);
        assert top * (T52 + d.man) == (T52 + d.man) * top;
      }
    } else {
      Pow2Grows(c.exp, d.exp - 1);
      ScaledGap(T52 + c.man, T52 + d.man, Pow2(c.exp - 1), top);
    }
  }

  lemma SignificandDecides(c: Double, d: Double)
    requires c.exp == d.exp < 2047
    ensures Magnitude(c) < Magnitude(d) <==> c.man < d.man
    ensures Magnitude(c) == Magnitude(d) <==> c.man == d.man
  {
    if c.exp > 0 {
      ScaledOrder(T52 + c.man, T52 + d.man, Pow2(c.exp - 1));
    }
  }

  lemma MagnitudeOrder(c: Double, d: Double)
    requires c.exp < 2047 && d.exp < 2047
    ensures Magnitude(c) < Magnitude(d) <==> c.exp * T52 + c.man < d.exp * T52 + d.man
    ensures Magnitude(c) == Magnitude(d) <==> c.exp == d.exp && c.man == d.man
  {
    if c.exp < d.exp { ExponentDecides(c, d); }
    if d.exp < c.exp { ExponentDecides(d, c); }
    if c.exp == d.exp { SignificandDecides(c, d); }
  }

  /** Whether byte order and numeric order agree on a pair of doubles. */
  predicate Agree(c: Double, d: Double) {
    Less(Be8(c), Be8(d)) <==> Below(Value(c), Value(d))
  }

  lemma BytesAreBits(c: Double, d: Double)
    ensures Less(Be8(c), Be8(d)) <==> Bits(c) < Bits(d)
  {
    Pow256Of8();
    BigEndianOrder(Bits(c), Bits(d), 8);
  }

  /** On doubles without a sign bit, infinity included, byte order is numeric order. */
  lemma ByteOrderIsNumeric(c: Double, d: Double)
    requires !c.neg && !d.neg
    ensures Agree(c, d)
    ensures Value(c) == Value(d) <==> c == d
  {
    BytesAreBits(c, d);
    if c.exp < 2047 && d.exp < 2047 { MagnitudeOrder(c, d); }
  }

  /** The order of bit patterns, read as numbers: upwards without the sign bit, which comes last,
      and downwards with it. */
  lemma SignedBits(c: Double, d: Double)
    requires Bits(c) < Bits(d)
    ensures c.neg ==> d.neg
    ensures Below(Value(d), Value(c)) <==> d.neg && Value(d) != Value(c)
    ensures !d.neg ==> !Below(Value(d), Value(c))
    ensures c.neg ==> !Below(Value(c), Value(d))
  {
    if c.exp < 2047 && d.exp < 2047 { MagnitudeOrder(c, d); }
  }

  const MINUS_ZERO := Pattern(true, 0, 0)
  const PLUS_ZERO := Pattern(false, 0, 0)

  /** With a sign bit about, the orders agree only on equal doubles and from -0 to 0: negative
      numbers sort backwards, and after every other. */
  lemma ByteOrderNeedsNoSign(c: Double, d: Double)
    ensures Agree(c, d) <==> (!c.neg && !d.neg) || c == d || (c == MINUS_ZERO && d == PLUS_ZERO)
  {
    BytesAreBits(c, d);
    if c.neg == d.neg {
      if c.exp < 2047 && d.exp < 2047 { MagnitudeOrder(c, d); }
      if !c.neg { ByteOrderIsNumeric(c, d); }
    } else {
      if c.exp < 2047 { ZeroMagnitude(c); }
      if d.exp < 2047 { ZeroMagnitude(d); }
    }
  }

  lemma ZeroMagnitude(d: Double)
    requires d.exp < 2047
    ensures Magnitude(d) == 0 <==> d.exp == 0 && d.man == 0
  {
    MagnitudeOrder(d, PLUS_ZERO);
  }
}
