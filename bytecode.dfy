/**
 * The slice of JVM bytecode generation the multiply operator needs: an
 * instruction sink (ASM's MethodVisitor), the descriptor stack of SpEL's
 * CodeFlow, and an operand-stack semantics for the instructions the
 * operator emits, so that compiled and interpreted evaluation can be
 * compared.
 *
 * A child expression's own generated code is one `ChildCode` instruction:
 * what matters here is only that it leaves the child's value on the operand
 * stack, boxed or primitive according to the child's exit descriptor.
 * `Unbox(k)` stands for the xxxValue() call that CodeFlow.insertUnboxInsns
 * emits; the operator asks for no checkcast, so a reference of another class
 * than k's box is rejected by the JVM's bytecode verifier, which the
 * semantics below shows as a failed step.
 */
module Bytecode {
  import opened JavaNumbers
  import opened SpelValues

  datatype Side = LeftChild | RightChild

  datatype Insn =
    | ChildCode(side: Side)
    | Unbox(kind: Kind)
    | IMUL
    | LMUL
    | FMUL
    | DMUL

  /** The primitive kind a multiply opcode works in (JVM Specification,
      chapter 6: imul, lmul, fmul, dmul). */
  function MultiplyKind(i: Insn): Option<Kind> {
    match i
    case IMUL => Some(I)
    case LMUL => Some(J)
    case FMUL => Some(F)
    case DMUL => Some(D)
    case _ => None
  }

  /** The multiply opcode for a primitive kind. */
  function MulOpcode(k: Kind): (i: Insn)
    ensures MultiplyKind(i) == Some(k)
  {
    match k
    case I => IMUL
    case J => LMUL
    case F => FMUL
    case D => DMUL
  }

  /** ASM's MethodVisitor, reduced to the instructions visited so far. */
  class MethodVisitor {
    var code: seq<Insn>

    constructor ()
      ensures code == []
    {
      code := [];
    }

    method VisitInsn(i: Insn)
      modifies this
      ensures code == old(code) + [i]
    {
      code := code + [i];
    }
  }

  /** SpEL's CodeFlow, reduced to its stack of exit descriptors. */
  class CodeFlow {
    var descriptors: seq<string>

    constructor ()
      ensures descriptors == []
    {
      descriptors := [];
    }

    method PushDescriptor(d: string)
      modifies this
      ensures descriptors == old(descriptors) + [d]
    {
      descriptors := descriptors + [d];
    }
  }

  /** An operand-stack entry: a reference, or a primitive of one kind. */
  datatype Slot =
    | Ref(v: Value)
    | IntSlot(i: I32)
    | LongSlot(l: I64)
    | FloatSlot(f: bv32)
    | DoubleSlot(d: bv64)

  /** The primitive kind of a stack entry; None for a reference. */
  function SlotKind(s: Slot): Option<Kind> {
    match s
    case Ref(_) => None
    case IntSlot(_) => Some(I)
    case LongSlot(_) => Some(J)
    case FloatSlot(_) => Some(F)
    case DoubleSlot(_) => Some(D)
  }

  /** The primitive a box holds, of the box's own kind. */
  function Unboxed(v: Value): (s: Slot)
    requires BoxedKind(v).Some?
    ensures SlotKind(s) == BoxedKind(v)
  {
    match v
    case Int(i) => IntSlot(i)
    case Lng(l) => LongSlot(l)
    case Flt(f) => FloatSlot(f)
    case Dbl(d) => DoubleSlot(d)
  }

  /** The box of a primitive: Integer.valueOf, Long.valueOf, and so on. */
  function Boxed(s: Slot): (v: Value)
    requires !s.Ref?
    ensures BoxedKind(v) == SlotKind(s)
  {
    match s
    case IntSlot(i) => Int(i)
    case LongSlot(l) => Lng(l)
    case FloatSlot(f) => Flt(f)
    case DoubleSlot(d) => Dbl(d)
  }

  /** Unboxing keeps the box's value: boxing the primitive gives the box
      back, and two boxes unbox alike exactly when they are equal. */
  lemma UnboxedKeepsValue(v: Value, w: Value)
    requires BoxedKind(v).Some? && BoxedKind(w).Some?
    ensures Boxed(Unboxed(v)) == v
    ensures Unboxed(v) == Unboxed(w) <==> v == w
  {
  }

  /** What a child's code leaves on the stack: its value as a primitive when
      its exit descriptor is primitive, a reference otherwise. */
  function ChildSlot(v: Value, primitive: bool): Slot
    requires primitive ==> BoxedKind(v).Some?
  {
    if primitive then Unboxed(v) else Ref(v)
  }

  /** One instruction on the operand stack `st` (top at the end); None is a
      reference unboxed as another kind, or operands of the wrong kind. */
  function Step(h: Host, i: Insn, leftOut: Slot, rightOut: Slot, st: seq<Slot>): Option<seq<Slot>> {
    var n := |st|;
    match i
    case ChildCode(side) =>
      Some(st + [if side == LeftChild then leftOut else rightOut])
    case Unbox(k) =>
      if n >= 1 && st[n - 1].Ref? && BoxedKind(st[n - 1].v) == Some(k)
      then Some(st[..n - 1] + [Unboxed(st[n - 1].v)])
      else None
    case IMUL =>
      if n >= 2 && st[n - 2].IntSlot? && st[n - 1].IntSlot?
      then Some(st[..n - 2] + [IntSlot(Wrap32(st[n - 2].i as int * st[n - 1].i as int))])
      else None
    case LMUL =>
      if n >= 2 && st[n - 2].LongSlot? && st[n - 1].LongSlot?
      then Some(st[..n - 2] + [LongSlot(Wrap64(st[n - 2].l as int * st[n - 1].l as int))])
      else None
    case FMUL =>
      if n >= 2 && st[n - 2].FloatSlot? && st[n - 1].FloatSlot?
      then Some(st[..n - 2] + [FloatSlot(h.fmul(st[n - 2].f, st[n - 1].f))])
      else None
    case DMUL =>
      if n >= 2 && st[n - 2].DoubleSlot? && st[n - 1].DoubleSlot?
      then Some(st[..n - 2] + [DoubleSlot(h.dmul(st[n - 2].d, st[n - 1].d))])
      else None
  }

  /** Executes a straight-line instruction sequence. */
  function Run(h: Host, code: seq<Insn>, leftOut: Slot, rightOut: Slot, st: seq<Slot>): Option<seq<Slot>>
    decreases |code|
  {
    if code == [] then Some(st)
    else
      match Step(h, code[0], leftOut, rightOut, st)
      case None => None
      case Some(st') => Run(h, code[1..], leftOut, rightOut, st')
  }
}
