/**
 * The `*` operator node of the Spring expression language (OpMultiply).
 *
 * Interpreted evaluation follows binary numeric promotion (section 5.6.2 of
 * the Java Language Specification, with unboxing per section 5.1.8),
 * extended by BigDecimal above double:
 *   BigDecimal > double > float > long > int.
 * A String times an Integer repeats the string; every other pair of operands
 * is handed to the registered operator overloader. Evaluating two operands of
 * exactly the same box class (Integer, Long, Float, Double) records that
 * kind in the node's exit type descriptor, which later decides whether the
 * node can be compiled and which JVM multiply instruction it compiles to.
 */
module OpMultiply {
  import opened JavaNumbers
  import opened SpelValues
  import opened Bytecode

  /** SpEL's Operation enumeration, passed to the overloader. */
  datatype Operation = ADD | SUBTRACT | DIVIDE | MULTIPLY | MODULUS | POWER

  /** Why an evaluation raised an exception: the conversion of a float or
      double operand to BigDecimal failed (NaN or an infinity has no decimal
      string BigDecimal accepts), or the node has no second child to take
      the right operand from. */
  datatype EvalError = NotADecimal(operand: Value) | NoRightOperand

  /** What one evaluation of the operator yields: a value it computed
      itself, the request it hands to the overloader, or an exception. */
  datatype Outcome =
    | Computed(value: Value)
    | Delegated(op: Operation, left: Value, right: Value)
    | Failed(error: EvalError)

  // ---------------------------------------------------------------------
  // String repetition

  /** n copies of s, concatenated in order. */
  function Copies(s: string, n: nat): string {
    if n == 0 then [] else Copies(s, n - 1) + s
  }

  lemma {:induction false} CopiesLength(s: string, n: nat)
    ensures |Copies(s, n)| == |s| * n
  {
    if n > 0 {
      CopiesLength(s, n - 1);
      assert |s| * n == |s| * (n - 1) + |s|;
    }
  }

  /** Character i of copy j of s sits at position j * |s| + i. */
  lemma {:induction false} CopiesAt(s: string, n: nat, j: nat, i: nat)
    requires j < n && i < |s|
    ensures j * |s| + i < |Copies(s, n)|
    ensures Copies(s, n)[j * |s| + i] == s[i]
  {
    var prefix := Copies(s, n - 1);
    assert Copies(s, n) == prefix + s;
    CopiesLength(s, n - 1);
    var before := (n - 1) * |s|;
    assert |prefix| == before;
    if j < n - 1 {
      CopiesAt(s, n - 1, j, i);
      MultiplyMonotone(j + 1, n - 1, |s|);
      assert j * |s| + |s| == (j + 1) * |s|;
    } else {
      assert j * |s| == before;
    }
  }

  lemma MultiplyMonotone(a: nat, b: nat, c: nat)
    requires a <= b
    ensures a * c <= b * c
  {
  }

  /** The number of times `for (int i = 0; i < repeats; i++)` runs. */
  function RepeatCount(repeats: I32): (n: nat)
    ensures repeats <= 0 ==> n == 0
    ensures repeats >= 0 ==> n as int == repeats as int
  {
    if repeats < 0 then 0 else repeats as nat
  }

  /** Builds the repetition of s with a StringBuilder-style loop. */
  method RepeatString(s: string, repeats: I32) returns (r: string)
    ensures r == Copies(s, RepeatCount(repeats))
    ensures |r| == |s| * RepeatCount(repeats)
  {
    var result := [];
    var i: I32 := 0;
    while i < repeats
      invariant 0 <= i as int <= RepeatCount(repeats)
      invariant result == Copies(s, i as nat)
    {
      result := result + s;
      i := i + 1;
    }
    CopiesLength(s, RepeatCount(repeats));
    r := result;
  }

  // ---------------------------------------------------------------------
  // Interpreted evaluation

  /** The rungs of the promotion ladder. */
  datatype Category = IntCategory | LongCategory | FloatCategory | DoubleCategory | DecimalCategory

  function Rank(c: Category): nat {
    match c
    case IntCategory => 0
    case LongCategory => 1
    case FloatCategory => 2
    case DoubleCategory => 3
    case DecimalCategory => 4
  }

  /** The rung a number stands on; every integral Number other than Long
      stands with int. */
  function CategoryOf(v: Value): Category
    requires IsNumber(v)
  {
    if v.BigDec? then DecimalCategory
    else if v.Dbl? then DoubleCategory
    else if v.Flt? then FloatCategory
    else if v.Lng? then LongCategory
    else IntCategory
  }

  /** The higher of two rungs. */
  function Wider(a: Category, b: Category): (c: Category)
    ensures Rank(c) >= Rank(a) && Rank(c) >= Rank(b)
    ensures c == a || c == b
  {
    if Rank(a) >= Rank(b) then a else b
  }

  /** The value getValueInternal returns for the operand values `left` and
      `right` (evaluated in that order), with the host's float semantics. */
  function Multiply(h: Host, left: Value, right: Value): Outcome {
    if IsNumber(left) && IsNumber(right) then
      if left.BigDec? || right.BigDec? then
        var l := ToDecimal(h, left);
        var r := ToDecimal(h, right);
        if l.None? then Failed(NotADecimal(left))
        else if r.None? then Failed(NotADecimal(right))
        else Computed(BigDec(DecimalMultiply(l.value, r.value)))
      else if left.Dbl? || right.Dbl? then
        Computed(Dbl(h.dmul(DoubleValue(h, left), DoubleValue(h, right))))
      else if left.Flt? || right.Flt? then
        Computed(Flt(h.fmul(FloatValue(h, left), FloatValue(h, right))))
      else if left.Lng? || right.Lng? then
        Computed(Lng(Wrap64(LongValue(left) as int * LongValue(right) as int)))
      else
        Computed(Int(Wrap32(IntValue(left) as int * IntValue(right) as int)))
    else if left.Str? && right.Int? then
      Computed(Str(Copies(left.s, RepeatCount(right.i))))
    else
      Delegated(MULTIPLY, left, right)
  }

  /** Both operands are boxes of one and the same primitive kind. */
  predicate SameBoxedKind(left: Value, right: Value) {
    BoxedKind(left).Some? && BoxedKind(left) == BoxedKind(right)
  }

  /** The exit type descriptor after one evaluation, given the one before. */
  function NextDescriptor(prev: Option<Kind>, left: Value, right: Value): (next: Option<Kind>)
    ensures next == prev || (SameBoxedKind(left, right) && next == BoxedKind(left))
    ensures SameBoxedKind(left, right) ==> next == BoxedKind(left)
    ensures prev.Some? ==> next.Some?
  {
    if IsNumber(left) && IsNumber(right) then
      if left.BigDec? || right.BigDec? then prev
      else if left.Dbl? || right.Dbl? then
        if left.Dbl? && right.Dbl? then Some(D) else prev
      else if left.Flt? || right.Flt? then
        if left.Flt? && right.Flt? then Some(F) else prev
      else if left.Lng? || right.Lng? then
        if left.Lng? && right.Lng? then Some(J) else prev
      else if left.Int? && right.Int? then Some(I)
      else prev
    else prev
  }

  // ---------------------------------------------------------------------
  // Code generation

  function UnboxUnless(primitive: bool, k: Kind): seq<Insn> {
    if primitive then [] else [Unbox(k)]
  }

  /** The instructions generateCode emits for a node whose exit type
      descriptor is k. */
  function GeneratedCode(k: Kind, childCount: nat, leftPrimitive: bool, rightPrimitive: bool): seq<Insn> {
    [ChildCode(LeftChild)] + UnboxUnless(leftPrimitive, k)
    + if childCount > 1
      then [ChildCode(RightChild)] + UnboxUnless(rightPrimitive, k) + [MulOpcode(k)]
      else []
  }

  /** What the operator node sees of one of its children. */
  datatype ChildView = ChildView(compilable: bool, exitPrimitive: bool)

  /** An OpMultiply node: its number of children and its exit type
      descriptor, the one field its methods update. */
  class MultiplyNode {
    const childCount: nat
    var exitTypeDescriptor: Option<Kind>

    constructor (operandCount: nat)
      requires operandCount >= 1
      ensures childCount == operandCount && exitTypeDescriptor == None
    {
      childCount := operandCount;
      exitTypeDescriptor := None;
    }

    /** getValueInternal, given the values its children evaluated to. A
        node with a single child has no right operand: reading it fails, and
        `rightOperand` is then ignored. */
    method GetValueInternal(h: Host, leftOperand: Value, rightOperand: Value) returns (result: Outcome)
      modifies this
      ensures childCount < 2 ==>
        result == Failed(NoRightOperand) && exitTypeDescriptor == old(exitTypeDescriptor)
      ensures childCount >= 2 ==> result == Multiply(h, leftOperand, rightOperand)
      ensures childCount >= 2 ==>
        exitTypeDescriptor == NextDescriptor(old(exitTypeDescriptor), leftOperand, rightOperand)
    {
      if childCount < 2 {
        return Failed(NoRightOperand);
      }
      if IsNumber(leftOperand) && IsNumber(rightOperand) {
        if leftOperand.BigDec? || rightOperand.BigDec? {
          var leftBigDecimal := ToDecimal(h, leftOperand);
          if leftBigDecimal.None? {
            return Failed(NotADecimal(leftOperand));
          }
          var rightBigDecimal := ToDecimal(h, rightOperand);
          if rightBigDecimal.None? {
            return Failed(NotADecimal(rightOperand));
          }
          return Computed(BigDec(DecimalMultiply(leftBigDecimal.value, rightBigDecimal.value)));
        }
        if leftOperand.Dbl? || rightOperand.Dbl? {
          if leftOperand.Dbl? && rightOperand.Dbl? {
            exitTypeDescriptor := Some(D);
          }
          return Computed(Dbl(h.dmul(DoubleValue(h, leftOperand), DoubleValue(h, rightOperand))));
        }
        if leftOperand.Flt? || rightOperand.Flt? {
          if leftOperand.Flt? && rightOperand.Flt? {
            exitTypeDescriptor := Some(F);
          }
          return Computed(Flt(h.fmul(FloatValue(h, leftOperand), FloatValue(h, rightOperand))));
        }
        if leftOperand.Lng? || rightOperand.Lng? {
          if leftOperand.Lng? && rightOperand.Lng? {
            exitTypeDescriptor := Some(J);
          }
          return Computed(Lng(Wrap64(LongValue(leftOperand) as int * LongValue(rightOperand) as int)));
        }
        if leftOperand.Int? && rightOperand.Int? {
          exitTypeDescriptor := Some(I);
        }
        return Computed(Int(Wrap32(IntValue(leftOperand) as int * IntValue(rightOperand) as int)));
      } else if leftOperand.Str? && rightOperand.Int? {
        var repeated := RepeatString(leftOperand.s, rightOperand.i);
        return Computed(Str(repeated));
      }
      return Delegated(MULTIPLY, leftOperand, rightOperand);
    }

    /** isCompilable. */
    function IsCompilable(left: ChildView, right: ChildView): (compilable: bool)
      reads this
      ensures compilable <==>
        left.compilable && (childCount > 1 ==> right.compilable) && exitTypeDescriptor.Some?
    {
      if !left.compilable then false
      else if childCount > 1 && !right.compilable then false
      else exitTypeDescriptor.Some?
    }

    /** generateCode: the children's code, each followed by an unbox when
        the child leaves a reference, the multiply instruction for the
        descriptor, and finally the descriptor pushed on the code flow. */
    method GenerateCode(left: ChildView, right: ChildView, mv: MethodVisitor, codeflow: CodeFlow)
      requires IsCompilable(left, right)
      modifies mv, codeflow
      ensures mv.code == old(mv.code)
        + GeneratedCode(exitTypeDescriptor.value, childCount, left.exitPrimitive, right.exitPrimitive)
      ensures codeflow.descriptors == old(codeflow.descriptors) + [Descriptor(exitTypeDescriptor.value)]
    {
      var k := exitTypeDescriptor.value;
      ghost var start := mv.code;
      mv.VisitInsn(ChildCode(LeftChild));
      if !left.exitPrimitive {
        mv.VisitInsn(Unbox(k));
      }
      ghost var leftPart := [ChildCode(LeftChild)] + UnboxUnless(left.exitPrimitive, k);
      assert mv.code == start + leftPart;
      if childCount > 1 {
        mv.VisitInsn(ChildCode(RightChild));
        if !right.exitPrimitive {
          mv.VisitInsn(Unbox(k));
        }
        mv.VisitInsn(MulOpcode(k));
        assert mv.code == start + leftPart
          + ([ChildCode(RightChild)] + UnboxUnless(right.exitPrimitive, k) + [MulOpcode(k)]);
      }
      codeflow.PushDescriptor(Descriptor(k));
    }
  }
}
