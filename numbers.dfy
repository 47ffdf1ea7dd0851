/**
 * Java's fixed-width integers and java.math.BigDecimal, as the multiply
 * operator of the Spring expression language uses them.
 *
 * `int` and `long` are 32- and 64-bit two's-complement integers; an
 * arithmetic result outside their range is reduced by the explicit
 * `Wrap32` / `Wrap64` below, exactly as the JVM's `imul` / `lmul` and the
 * narrowing `intValue()` / `longValue()` of a wider integral number do.
 * A BigDecimal is an unscaled integer and a scale; its numeric meaning is
 * unscaled * 10^-scale.
 */
module JavaNumbers {

  const TWO_31: int := 0x8000_0000
  const TWO_32: int := 0x1_0000_0000
  const TWO_63: int := 0x8000_0000_0000_0000
  const TWO_64: int := 0x1_0000_0000_0000_0000

  /** A Java `int`. */
  newtype I32 = x: int | -0x8000_0000 <= x < 0x8000_0000

  /** A Java `long`. */
  newtype I64 = x: int | -0x8000_0000_0000_0000 <= x < 0x8000_0000_0000_0000

  /** Two's-complement reduction of an integer to 32 bits. */
  function Wrap32(x: int): (r: I32)
    ensures (r as int - x) % TWO_32 == 0
    ensures -TWO_31 <= x < TWO_31 ==> r as int == x
  {
    ((x + TWO_31) % TWO_32 - TWO_31) as I32
  }

  /** Two's-complement reduction of an integer to 64 bits. */
  function Wrap64(x: int): (r: I64)
    ensures (r as int - x) % TWO_64 == 0
    ensures -TWO_63 <= x < TWO_63 ==> r as int == x
  {
    ((x + TWO_63) % TWO_64 - TWO_63) as I64
  }

  /** A java.math.BigDecimal: the number unscaled * 10^-scale. */
  datatype Decimal = Decimal(unscaled: int, scale: int)

  /** 10^s for an exponent of either sign, as a real number. */
  ghost function Ten(s: int): real
    decreases if s < 0 then -s else s
  {
    if s == 0 then 1.0
    else if s > 0 then 10.0 * Ten(s - 1)
    else Ten(s + 1) / 10.0
  }

  /** The exact number a BigDecimal stands for. */
  ghost function DecimalValue(d: Decimal): real {
    d.unscaled as real * Ten(-d.scale)
  }

  /** BigDecimal.multiply(BigDecimal): the unscaled values multiply and the
      scales add, so the product is exact. */
  function DecimalMultiply(a: Decimal, b: Decimal): (p: Decimal)
    ensures DecimalValue(p) == DecimalValue(a) * DecimalValue(b)
  {
    DecimalMultiplyExact(a, b);
    Decimal(a.unscaled * b.unscaled, a.scale + b.scale)
  }

  lemma DecimalMultiplyExact(a: Decimal, b: Decimal)
    ensures DecimalValue(Decimal(a.unscaled * b.unscaled, a.scale + b.scale))
         == DecimalValue(a) * DecimalValue(b)
  {
    var p := Decimal(a.unscaled * b.unscaled, a.scale + b.scale);
    TenAdd(-a.scale, -b.scale);
    assert -p.scale == -a.scale + -b.scale;
    ProductOfScaled(p.unscaled, a.unscaled, b.unscaled, Ten(-p.scale), Ten(-a.scale), Ten(-b.scale));
  }

  lemma ProductOfScaled(w: int, u: int, v: int, tw: real, tu: real, tv: real)
    requires w == u * v && tw == tu * tv
    ensures w as real * tw == (u as real * tu) * (v as real * tv)
  {
  }

  lemma TenStep(n: int, m: int)
    requires m == n + 1
    ensures Ten(m) == 10.0 * Ten(n)
  {
  }

  /** Powers of ten with integer exponents multiply by adding exponents. */
  lemma TenAdd(a: int, b: int)
    ensures Ten(a + b) == Ten(a) * Ten(b)
  {
    if b >= 0 {
      TenAddUp(a, b);
    } else {
      TenAddDown(a, b);
    }
  }

  lemma {:induction false} TenAddUp(a: int, b: int)
    requires b >= 0
    ensures Ten(a + b) == Ten(a) * Ten(b)
  {
    if b > 0 {
      TenAddUp(a, b - 1);
      TenStep(a + b - 1, a + b);
      TenStep(b - 1, b);
      TimesTen(Ten(a + b - 1), Ten(a), Ten(b - 1), Ten(a + b), Ten(b));
    }
  }

  lemma {:induction false} TenAddDown(a: int, b: int)
    requires b <= 0
    ensures Ten(a + b) == Ten(a) * Ten(b)
    decreases -b
  {
    if b < 0 {
      TenAddDown(a, b + 1);
      TenStep(a + b, a + b + 1);
      TenStep(b, b + 1);
      DivideByTen(Ten(a + b), Ten(a), Ten(b), Ten(a + b + 1), Ten(b + 1));
    }
  }

  lemma TimesTen(x: real, y: real, z: real, x': real, z': real)
    requires x == y * z && x' == 10.0 * x && z' == 10.0 * z
    ensures x' == y * z'
  {
  }

  lemma DivideByTen(x: real, y: real, z: real, x': real, z': real)
    requires x' == y * z' && x' == 10.0 * x && z' == 10.0 * z
    ensures x == y * z
  {
  }

  /** An integral number converted to BigDecimal at scale 0, as
      `new BigDecimal(n.toString())` does for Integer, Long, Short, Byte and
      BigInteger. */
  function IntegralDecimal(n: int): (d: Decimal)
    ensures DecimalValue(d) == n as real
    ensures d.scale == 0
  {
    Decimal(n, 0)
  }
}
