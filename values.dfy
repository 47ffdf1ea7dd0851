/**
 * The runtime values the SpEL multiply operator sees, and the parts of
 * java.lang.Number it relies on.
 *
 * Floating-point values are IEEE 754 bit patterns. Every operation on them
 * that rounds (multiplication, widening float to double, converting an
 * integer to float or double, printing a float as a BigDecimal) belongs to
 * the Java platform and is supplied through a `Host`, so nothing here
 * asserts anything about floating-point results beyond which operation
 * produced them.
 */
module SpelValues {
  import opened JavaNumbers

  datatype Option<T> = None | Some(value: T)

  /** A value an operand evaluates to. `OtherNum` is any other integral
      java.lang.Number (Short, Byte, BigInteger, AtomicInteger, AtomicLong),
      carried by its exact mathematical value; `Other` is anything that is
      neither a Number nor a String (null, Boolean, a collection, ...). */
  datatype Value =
    | BigDec(dec: Decimal)
    | Dbl(dbits: bv64)
    | Flt(fbits: bv32)
    | Lng(l: I64)
    | Int(i: I32)
    | OtherNum(n: int)
    | Str(s: string)
    | Other(ref: nat)

  /** `instanceof Number`. */
  predicate IsNumber(v: Value) {
    v.BigDec? || v.Dbl? || v.Flt? || v.Lng? || v.Int? || v.OtherNum?
  }

  /** Numbers whose value is a mathematical integer. */
  predicate IsIntegral(v: Value) {
    v.Lng? || v.Int? || v.OtherNum?
  }

  function IntegralValue(v: Value): int
    requires IsIntegral(v)
  {
    match v
    case Lng(l) => l as int
    case Int(i) => i as int
    case OtherNum(n) => n
  }

  /** Number.longValue() of an integral number: the low 64 bits of its
      two's-complement representation. */
  function LongValue(v: Value): (r: I64)
    requires IsIntegral(v)
    ensures v.Lng? ==> r == v.l
    ensures v.Int? ==> r as int == v.i as int
    ensures (r as int - IntegralValue(v)) % TWO_64 == 0
  {
    Wrap64(IntegralValue(v))
  }

  /** Number.intValue() of an integral number: the low 32 bits. */
  function IntValue(v: Value): (r: I32)
    requires IsIntegral(v)
    ensures v.Int? ==> r == v.i
    ensures (r as int - IntegralValue(v)) % TWO_32 == 0
  {
    Wrap32(IntegralValue(v))
  }

  /** The Java platform's floating-point operations, as the operator uses
      them. `integralToDouble` / `integralToFloat` round an exact integer to
      the nearest double / float (what doubleValue() and floatValue() do for
      every integral Number); `floatToDouble` is the widening conversion;
      `dmul` / `fmul` are IEEE multiplication; `doubleToDecimal` /
      `floatToDecimal` are `new BigDecimal(x.toString())`, which fails for
      NaN and the infinities. */
  datatype Host = Host(
    integralToDouble: int -> bv64,
    integralToFloat: int -> bv32,
    floatToDouble: bv32 -> bv64,
    dmul: (bv64, bv64) -> bv64,
    fmul: (bv32, bv32) -> bv32,
    doubleToDecimal: bv64 -> Option<Decimal>,
    floatToDecimal: bv32 -> Option<Decimal>)

  /** Number.doubleValue() of a number below BigDecimal on the ladder. */
  function DoubleValue(h: Host, v: Value): (r: bv64)
    requires IsNumber(v) && !v.BigDec?
    ensures v.Dbl? ==> r == v.dbits
  {
    if v.Dbl? then v.dbits
    else if v.Flt? then h.floatToDouble(v.fbits)
    else h.integralToDouble(IntegralValue(v))
  }

  /** Number.floatValue() of a number below double on the ladder. */
  function FloatValue(h: Host, v: Value): (r: bv32)
    requires IsNumber(v) && !v.BigDec? && !v.Dbl?
    ensures v.Flt? ==> r == v.fbits
  {
    if v.Flt? then v.fbits
    else h.integralToFloat(IntegralValue(v))
  }

  /** NumberUtils.convertNumberToTargetClass(v, BigDecimal.class): a
      BigDecimal is kept, an integral number becomes itself at scale 0,
      a float or double goes through its decimal string. */
  function ToDecimal(h: Host, v: Value): (r: Option<Decimal>)
    requires IsNumber(v)
    ensures v.BigDec? ==> r == Some(v.dec)
    ensures IsIntegral(v) ==> r.Some? && DecimalValue(r.value) == IntegralValue(v) as real
  {
    if v.BigDec? then Some(v.dec)
    else if v.Dbl? then h.doubleToDecimal(v.dbits)
    else if v.Flt? then h.floatToDecimal(v.fbits)
    else Some(IntegralDecimal(IntegralValue(v)))
  }

  /** The primitive kinds a compiled multiply can work in, named by their
      JVM type descriptors. */
  datatype Kind = I | J | F | D

  /** The JVM type descriptor of a primitive kind. */
  function Descriptor(k: Kind): (s: string)
    ensures |s| == 1
  {
    match k
    case I => "I"
    case J => "J"
    case F => "F"
    case D => "D"
  }

  /** The first character of a descriptor, what `charAt(0)` reads, tells
      the kinds apart. */
  lemma DescriptorNamesKind(k: Kind, k': Kind)
    ensures Descriptor(k)[0] == Descriptor(k')[0] ==> k == k'
  {
  }

  /** The primitive kind whose box class the value is an instance of:
      Integer, Long, Float or Double, and nothing else. */
  function BoxedKind(v: Value): Option<Kind> {
    match v
    case Int(_) => Some(I)
    case Lng(_) => Some(J)
    case Flt(_) => Some(F)
    case Dbl(_) => Some(D)
    case _ => None
  }
}
