/**
 * Compiled and interpreted evaluation of a multiply node agree.
 *
 * The generated code is run on the operand-stack semantics of module
 * Bytecode, with each child's code leaving that child's value (as a
 * primitive when the child's exit descriptor is primitive, as a reference
 * otherwise). When both operands are boxes of the descriptor's kind, the
 * code leaves exactly the primitive form of the interpreted result. For any
 * other operands the code either fails (an unbox meeting a reference of
 * another class, which the JVM's bytecode verifier rejects, or a
 * multiply instruction meeting operands of another kind) or still leaves the
 * interpreted result: it never yields a different number.
 */
module CompiledAgreement {
  import opened JavaNumbers
  import opened SpelValues
  import opened Bytecode
  import opened OpMultiply

  /** Running a sequence split in two runs the halves one after the other. */
  lemma {:induction false} RunAppend(h: Host, a: seq<Insn>, b: seq<Insn>, lo: Slot, ro: Slot, st: seq<Slot>)
    ensures Run(h, a + b, lo, ro, st) ==
      match Run(h, a, lo, ro, st)
      case None => None
      case Some(st') => Run(h, b, lo, ro, st')
    decreases |a|
  {
    if a != [] {
      assert (a + b)[0] == a[0];
      assert (a + b)[1..] == a[1..] + b;
      match Step(h, a[0], lo, ro, st)
      case None =>
      case Some(st') => RunAppend(h, a[1..], b, lo, ro, st');
    } else {
      assert a + b == b;
    }
  }

  /** The code for one child and its optional unbox leaves the child's value
      as a primitive of kind k on top of the stack, or fails; it succeeds
      whenever the value is a box of kind k. */
  lemma OperandCode(h: Host, side: Side, k: Kind, v: Value, primitive: bool, other: Slot, st: seq<Slot>)
    requires primitive ==> BoxedKind(v).Some?
    ensures var lo := if side == LeftChild then ChildSlot(v, primitive) else other;
      var ro := if side == LeftChild then other else ChildSlot(v, primitive);
      var r := Run(h, [ChildCode(side)] + UnboxUnless(primitive, k), lo, ro, st);
      && (r.Some? ==> BoxedKind(v).Some? && r == Some(st + [Unboxed(v)]))
      && (r.Some? && !primitive ==> BoxedKind(v) == Some(k))
      && (BoxedKind(v) == Some(k) ==> r.Some?)
  {
    var lo := if side == LeftChild then ChildSlot(v, primitive) else other;
    var ro := if side == LeftChild then other else ChildSlot(v, primitive);
    var pushed := st + [ChildSlot(v, primitive)];
    assert Step(h, ChildCode(side), lo, ro, st) == Some(pushed);
    if primitive {
      assert [ChildCode(side)] + UnboxUnless(primitive, k) == [ChildCode(side)];
      assert Run(h, [], lo, ro, pushed) == Some(pushed);
    } else {
      var code := [ChildCode(side), Unbox(k)];
      assert [ChildCode(side)] + UnboxUnless(primitive, k) == code;
      assert code[1..] == [Unbox(k)];
      assert pushed[..|pushed| - 1] == st;
      assert Run(h, code, lo, ro, st) == Run(h, [Unbox(k)], lo, ro, pushed);
      if BoxedKind(v) == Some(k) {
        assert Step(h, Unbox(k), lo, ro, pushed) == Some(st + [Unboxed(v)]);
        assert [Unbox(k)][1..] == [];
        assert Run(h, [Unbox(k)], lo, ro, pushed) == Run(h, [], lo, ro, st + [Unboxed(v)]);
      } else {
        assert Step(h, Unbox(k), lo, ro, pushed) == None;
      }
    }
  }

  /** A one-instruction run is that instruction's step. */
  lemma RunOne(h: Host, i: Insn, lo: Slot, ro: Slot, st: seq<Slot>)
    ensures Run(h, [i], lo, ro, st) == Step(h, i, lo, ro, st)
  {
    assert [i][1..] == [];
  }

  /** A multiply instruction only accepts two primitives of its own kind. */
  lemma MulNeedsKind(h: Host, k: Kind, a: Slot, b: Slot, lo: Slot, ro: Slot)
    ensures Step(h, MulOpcode(k), lo, ro, [a, b]).Some? ==> SlotKind(a) == Some(k) && SlotKind(b) == Some(k)
  {
  }

  /** The multiply instruction of each kind on two primitives of that kind. */
  lemma IntMulStep(h: Host, lo: Slot, ro: Slot, a: I32, b: I32)
    ensures Step(h, IMUL, lo, ro, [IntSlot(a), IntSlot(b)]) == Some([IntSlot(Wrap32(a as int * b as int))])
  {
    var st: seq<Slot> := [IntSlot(a), IntSlot(b)];
    var q := IntSlot(Wrap32(st[0].i as int * st[1].i as int));
    assert st[..0] + [q] == [q];
  }

  lemma LongMulStep(h: Host, lo: Slot, ro: Slot, a: I64, b: I64)
    ensures Step(h, LMUL, lo, ro, [LongSlot(a), LongSlot(b)]) == Some([LongSlot(Wrap64(a as int * b as int))])
  {
    var st: seq<Slot> := [LongSlot(a), LongSlot(b)];
    var q := LongSlot(Wrap64(st[0].l as int * st[1].l as int));
    assert st[..0] + [q] == [q];
  }

  lemma FloatMulStep(h: Host, lo: Slot, ro: Slot, a: bv32, b: bv32)
    ensures Step(h, FMUL, lo, ro, [FloatSlot(a), FloatSlot(b)]) == Some([FloatSlot(h.fmul(a, b))])
  {
    var st: seq<Slot> := [FloatSlot(a), FloatSlot(b)];
    var q := FloatSlot(h.fmul(st[0].f, st[1].f));
    assert st[..0] + [q] == [q];
  }

  lemma DoubleMulStep(h: Host, lo: Slot, ro: Slot, a: bv64, b: bv64)
    ensures Step(h, DMUL, lo, ro, [DoubleSlot(a), DoubleSlot(b)]) == Some([DoubleSlot(h.dmul(a, b))])
  {
    var st: seq<Slot> := [DoubleSlot(a), DoubleSlot(b)];
    var q := DoubleSlot(h.dmul(st[0].d, st[1].d));
    assert st[..0] + [q] == [q];
  }

  /** The multiply instruction for kind k on two primitives unboxed from v
      and w: it succeeds exactly when both are of kind k, and then leaves the
      interpreted product. */
  lemma MultiplyInstruction(h: Host, k: Kind, v: Value, w: Value, lo: Slot, ro: Slot)
    requires BoxedKind(v).Some? && BoxedKind(w).Some?
    ensures var r := Run(h, [MulOpcode(k)], lo, ro, [Unboxed(v), Unboxed(w)]);
      && (r.Some? <==> BoxedKind(v) == Some(k) && BoxedKind(w) == Some(k))
      && (r.Some? ==> Multiply(h, v, w).Computed? && BoxedKind(Multiply(h, v, w).value).Some?
                      && r == Some([Unboxed(Multiply(h, v, w).value)]))
  {
    RunOne(h, MulOpcode(k), lo, ro, [Unboxed(v), Unboxed(w)]);
    MulNeedsKind(h, k, Unboxed(v), Unboxed(w), lo, ro);
    InterpretedPrimitive(h, v, w);
    if BoxedKind(v) == Some(k) && BoxedKind(w) == Some(k) {
      match k {
        case I => IntMulStep(h, lo, ro, v.i, w.i);
        case J => LongMulStep(h, lo, ro, v.l, w.l);
        case F => FloatMulStep(h, lo, ro, v.fbits, w.fbits);
        case D => DoubleMulStep(h, lo, ro, v.dbits, w.dbits);
      }
    }
  }

  /** The interpreted product of two boxes of the same kind. */
  lemma InterpretedPrimitive(h: Host, v: Value, w: Value)
    ensures v.Int? && w.Int? ==> Multiply(h, v, w) == Computed(Int(Wrap32(v.i as int * w.i as int)))
    ensures v.Lng? && w.Lng? ==> Multiply(h, v, w) == Computed(Lng(Wrap64(v.l as int * w.l as int)))
    ensures v.Flt? && w.Flt? ==> Multiply(h, v, w) == Computed(Flt(h.fmul(v.fbits, w.fbits)))
    ensures v.Dbl? && w.Dbl? ==> Multiply(h, v, w) == Computed(Dbl(h.dmul(v.dbits, w.dbits)))
  {
  }

  /** Compiled code computes the interpreted result whenever both operands
      are boxes of the descriptor's kind, whatever form the children leave
      them in. */
  lemma CompiledMatchesInterpreted(h: Host, k: Kind, childCount: nat, left: Value, right: Value,
                                   leftPrimitive: bool, rightPrimitive: bool)
    requires childCount > 1
    requires BoxedKind(left) == Some(k) && BoxedKind(right) == Some(k)
    ensures Multiply(h, left, right).Computed?
    ensures BoxedKind(Multiply(h, left, right).value) == Some(k)
    ensures Run(h, GeneratedCode(k, childCount, leftPrimitive, rightPrimitive),
                ChildSlot(left, leftPrimitive), ChildSlot(right, rightPrimitive), [])
         == Some([Unboxed(Multiply(h, left, right).value)])
  {
    var r := CompiledRun(h, k, childCount, left, right, leftPrimitive, rightPrimitive);
  }

  /** Whatever the operands, compiled code never yields a number other than
      the interpreted one: it fails, or it agrees. */
  lemma CompiledNeverDisagrees(h: Host, k: Kind, childCount: nat, left: Value, right: Value,
                               leftPrimitive: bool, rightPrimitive: bool)
    requires childCount > 1
    requires leftPrimitive ==> BoxedKind(left).Some?
    requires rightPrimitive ==> BoxedKind(right).Some?
    ensures var r := Run(h, GeneratedCode(k, childCount, leftPrimitive, rightPrimitive),
                         ChildSlot(left, leftPrimitive), ChildSlot(right, rightPrimitive), []);
      r.None? || (Multiply(h, left, right).Computed?
                  && BoxedKind(Multiply(h, left, right).value).Some?
                  && r == Some([Unboxed(Multiply(h, left, right).value)]))
  {
    var r := CompiledRun(h, k, childCount, left, right, leftPrimitive, rightPrimitive);
  }

  /** The code of both children, each with its optional unbox, leaves the
      two values as primitives, left below right, or fails; it succeeds when
      both are boxes of kind k. */
  lemma BothOperands(h: Host, k: Kind, left: Value, right: Value, leftPrimitive: bool, rightPrimitive: bool)
    requires leftPrimitive ==> BoxedKind(left).Some?
    requires rightPrimitive ==> BoxedKind(right).Some?
    ensures var r := Run(h, [ChildCode(LeftChild)] + UnboxUnless(leftPrimitive, k)
                            + ([ChildCode(RightChild)] + UnboxUnless(rightPrimitive, k)),
                         ChildSlot(left, leftPrimitive), ChildSlot(right, rightPrimitive), []);
      && (r.Some? ==> BoxedKind(left).Some? && BoxedKind(right).Some?
                      && r == Some([Unboxed(left), Unboxed(right)]))
      && (BoxedKind(left) == Some(k) && BoxedKind(right) == Some(k) ==> r.Some?)
  {
    var lo, ro := ChildSlot(left, leftPrimitive), ChildSlot(right, rightPrimitive);
    var leftCode := [ChildCode(LeftChild)] + UnboxUnless(leftPrimitive, k);
    var rightCode := [ChildCode(RightChild)] + UnboxUnless(rightPrimitive, k);
    RunAppend(h, leftCode, rightCode, lo, ro, []);
    OperandCode(h, LeftChild, k, left, leftPrimitive, ro, []);
    if Run(h, leftCode, lo, ro, []).Some? {
      assert [] + [Unboxed(left)] == [Unboxed(left)];
      OperandCode(h, RightChild, k, right, rightPrimitive, lo, [Unboxed(left)]);
      if BoxedKind(right).Some? {
        assert [Unboxed(left)] + [Unboxed(right)] == [Unboxed(left), Unboxed(right)];
      }
    }
  }

  /** The run of the generated code, taken apart at the operands' code and
      the multiply instruction. */
  lemma CompiledRun(h: Host, k: Kind, childCount: nat, left: Value, right: Value,
                    leftPrimitive: bool, rightPrimitive: bool) returns (r: Option<seq<Slot>>)
    requires childCount > 1
    requires leftPrimitive ==> BoxedKind(left).Some?
    requires rightPrimitive ==> BoxedKind(right).Some?
    ensures r == Run(h, GeneratedCode(k, childCount, leftPrimitive, rightPrimitive),
                     ChildSlot(left, leftPrimitive), ChildSlot(right, rightPrimitive), [])
    ensures r.Some? ==>
      (Multiply(h, left, right).Computed? && BoxedKind(Multiply(h, left, right).value).Some?
       && r == Some([Unboxed(Multiply(h, left, right).value)]))
    ensures BoxedKind(left) == Some(k) && BoxedKind(right) == Some(k) ==> r.Some?
  {
    var lo, ro := ChildSlot(left, leftPrimitive), ChildSlot(right, rightPrimitive);
    var operands := [ChildCode(LeftChild)] + UnboxUnless(leftPrimitive, k)
                    + ([ChildCode(RightChild)] + UnboxUnless(rightPrimitive, k));
    var mul := [MulOpcode(k)];
    assert GeneratedCode(k, childCount, leftPrimitive, rightPrimitive) == operands + mul;
    r := Run(h, operands + mul, lo, ro, []);
    RunAppend(h, operands, mul, lo, ro, []);
    BothOperands(h, k, left, right, leftPrimitive, rightPrimitive);
    if Run(h, operands, lo, ro, []).Some? {
      MultiplyInstruction(h, k, left, right, lo, ro);
    }
  }

  /** A node evaluated once on two boxes of the same kind, with compilable
      children, compiles; the code it generates, run on those operands,
      yields the value the evaluation returned. */
  method EvaluateThenCompile(h: Host, leftOperand: Value, rightOperand: Value,
                             left: ChildView, right: ChildView)
    returns (result: Outcome, code: seq<Insn>, descriptors: seq<string>)
    requires SameBoxedKind(leftOperand, rightOperand)
    requires left.compilable && right.compilable
    ensures result == Multiply(h, leftOperand, rightOperand) && result.Computed?
    ensures descriptors == [Descriptor(BoxedKind(leftOperand).value)]
    ensures Run(h, code, ChildSlot(leftOperand, left.exitPrimitive), ChildSlot(rightOperand, right.exitPrimitive), [])
         == Some([Unboxed(result.value)])
  {
    var node := new MultiplyNode(2);
    result := node.GetValueInternal(h, leftOperand, rightOperand);
    var mv := new MethodVisitor();
    var codeflow := new CodeFlow();
    node.GenerateCode(left, right, mv, codeflow);
    var k := BoxedKind(leftOperand).value;
    assert node.exitTypeDescriptor == Some(k) && node.childCount == 2;
    assert node.IsCompilable(left, right);
    code := mv.code;
    assert code == GeneratedCode(k, 2, left.exitPrimitive, right.exitPrimitive);
    descriptors := codeflow.descriptors;
    CompiledMatchesInterpreted(h, k, 2, leftOperand, rightOperand, left.exitPrimitive, right.exitPrimitive);
  }
}
