/**
 * What the multiply operator promises, stated over the model of
 * getValueInternal, of its exit type descriptor and of generateCode.
 */
module MultiplyProperties {
  import opened JavaNumbers
  import opened SpelValues
  import opened Bytecode
  import opened OpMultiply

  // ---------------------------------------------------------------------
  // Promotion ladder

  /** Two numbers are multiplied on the higher of their two rungs, and the
      result stands on that rung; only the BigDecimal rung can fail. */
  lemma LadderPrecedence(h: Host, left: Value, right: Value)
    requires IsNumber(left) && IsNumber(right)
    ensures Multiply(h, left, right).Computed? || Multiply(h, left, right).Failed?
    ensures Multiply(h, left, right).Failed? ==>
      Wider(CategoryOf(left), CategoryOf(right)) == DecimalCategory
    ensures Multiply(h, left, right).Computed? ==>
      IsNumber(Multiply(h, left, right).value) &&
      CategoryOf(Multiply(h, left, right).value) == Wider(CategoryOf(left), CategoryOf(right))
  {
  }

  /** With a BigDecimal on either side both operands are converted and
      multiplied exactly, whatever the other operand is (a Double included),
      and the exit type descriptor is left as it was. */
  lemma DecimalOperandWins(h: Host, left: Value, right: Value, prev: Option<Kind>)
    requires IsNumber(left) && IsNumber(right)
    requires left.BigDec? || right.BigDec?
    ensures Multiply(h, left, right).Computed? <==>
      ToDecimal(h, left).Some? && ToDecimal(h, right).Some?
    ensures Multiply(h, left, right).Computed? ==>
      Multiply(h, left, right).value.BigDec? &&
      DecimalValue(Multiply(h, left, right).value.dec)
        == DecimalValue(ToDecimal(h, left).value) * DecimalValue(ToDecimal(h, right).value)
    ensures !Multiply(h, left, right).Computed? ==>
      Multiply(h, left, right) == Failed(NotADecimal(if ToDecimal(h, left).None? then left else right))
    ensures NextDescriptor(prev, left, right) == prev
  {
  }

  /** BigDecimal times any integral number is the exact product. */
  lemma DecimalTimesIntegral(h: Host, d: Decimal, v: Value)
    requires IsIntegral(v)
    ensures Multiply(h, BigDec(d), v).Computed? && Multiply(h, v, BigDec(d)).Computed?
    ensures Multiply(h, BigDec(d), v).value.BigDec? && Multiply(h, v, BigDec(d)).value.BigDec?
    ensures DecimalValue(Multiply(h, BigDec(d), v).value.dec) == DecimalValue(d) * IntegralValue(v) as real
    ensures DecimalValue(Multiply(h, v, BigDec(d)).value.dec) == IntegralValue(v) as real * DecimalValue(d)
  {
  }

  /** With a Long and no wider operand, the product is the 64-bit
      two's-complement product of the longValue()s: congruent to the exact
      product modulo 2^64, and equal to it when it fits. */
  lemma LongProductWraps(h: Host, left: Value, right: Value)
    requires IsIntegral(left) && IsIntegral(right)
    requires left.Lng? || right.Lng?
    ensures Multiply(h, left, right).Computed? && Multiply(h, left, right).value.Lng?
    ensures (Multiply(h, left, right).value.l as int - LongValue(left) as int * LongValue(right) as int) % TWO_64 == 0
    ensures -TWO_63 <= LongValue(left) as int * LongValue(right) as int < TWO_63 ==>
      Multiply(h, left, right).value.l as int == LongValue(left) as int * LongValue(right) as int
  {
  }

  /** Without a Long, integral operands multiply as Java ints: the 32-bit
      two's-complement product of the intValue()s. */
  lemma IntProductWraps(h: Host, left: Value, right: Value)
    requires IsIntegral(left) && IsIntegral(right)
    requires !left.Lng? && !right.Lng?
    ensures Multiply(h, left, right).Computed? && Multiply(h, left, right).value.Int?
    ensures (Multiply(h, left, right).value.i as int - IntValue(left) as int * IntValue(right) as int) % TWO_32 == 0
    ensures -TWO_31 <= IntValue(left) as int * IntValue(right) as int < TWO_31 ==>
      Multiply(h, left, right).value.i as int == IntValue(left) as int * IntValue(right) as int
  {
  }

  /** Integer.MAX_VALUE * 2 overflows to -2, as in Java. */
  lemma IntOverflowExample(h: Host)
    ensures Multiply(h, Int(0x7fff_ffff), Int(2)) == Computed(Int(-2))
  {
  }

  // ---------------------------------------------------------------------
  // String repetition

  /** A String times an Integer n is n copies of the string, so its length
      is |s| * max(n, 0), and a count of zero or less gives "". A Long count
      does not qualify: that pair goes to the overloader. */
  lemma StringTimesInteger(h: Host, s: string, n: I32, x: I64)
    ensures Multiply(h, Str(s), Int(n)) == Computed(Str(Copies(s, RepeatCount(n))))
    ensures |Copies(s, RepeatCount(n))| == |s| * RepeatCount(n)
    ensures n <= 0 ==> Copies(s, RepeatCount(n)) == []
    ensures Multiply(h, Str(s), Lng(x)) == Delegated(MULTIPLY, Str(s), Lng(x))
  {
    CopiesLength(s, RepeatCount(n));
  }

  /** 'ab' * 3 == 'ababab'. */
  lemma StringRepeatExample(h: Host)
    ensures Multiply(h, Str("ab"), Int(3)) == Computed(Str("ababab"))
  {
    assert Copies("ab", 3) == "ababab" by {
      assert Copies("ab", 1) == "ab";
      assert Copies("ab", 2) == "abab";
    }
  }

  // ---------------------------------------------------------------------
  // Delegation

  /** Exactly the pairs that are neither two Numbers nor a String and an
      Integer reach the overloader, unchanged and in their order, and they
      do not touch the exit type descriptor. */
  lemma DelegatedExactlyOtherwise(h: Host, left: Value, right: Value, prev: Option<Kind>)
    ensures Multiply(h, left, right).Delegated? <==>
      !(IsNumber(left) && IsNumber(right)) && !(left.Str? && right.Int?)
    ensures Multiply(h, left, right).Delegated? ==>
      Multiply(h, left, right) == Delegated(MULTIPLY, left, right)
    ensures Multiply(h, left, right).Delegated? ==> NextDescriptor(prev, left, right) == prev
  {
  }

  // ---------------------------------------------------------------------
  // Exit type descriptor across evaluations

  /** The descriptor after evaluating the node on each operand pair of
      `runs` in turn. */
  function DescriptorAfter(prev: Option<Kind>, runs: seq<(Value, Value)>): Option<Kind>
    decreases |runs|
  {
    if runs == [] then prev
    else DescriptorAfter(NextDescriptor(prev, runs[0].0, runs[0].1), runs[1..])
  }

  /** A descriptor is set after a series of evaluations exactly when it was
      set before or one of them saw two boxes of the same kind; when set, it
      is the previous one or the kind of one such evaluation. */
  lemma {:induction false} DescriptorHistory(prev: Option<Kind>, runs: seq<(Value, Value)>)
    ensures DescriptorAfter(prev, runs).None? <==>
      prev.None? && forall i :: 0 <= i < |runs| ==> !SameBoxedKind(runs[i].0, runs[i].1)
    ensures DescriptorAfter(prev, runs) == prev ||
      exists i :: 0 <= i < |runs| && SameBoxedKind(runs[i].0, runs[i].1)
        && DescriptorAfter(prev, runs) == BoxedKind(runs[i].0)
    decreases |runs|
  {
    if runs != [] {
      var next := NextDescriptor(prev, runs[0].0, runs[0].1);
      DescriptorHistory(next, runs[1..]);
      var r := DescriptorAfter(prev, runs);
      assert r == DescriptorAfter(next, runs[1..]);
      if r != prev {
        if r == next {
          assert SameBoxedKind(runs[0].0, runs[0].1) && r == BoxedKind(runs[0].0);
        } else {
          var i :| 0 <= i < |runs[1..]| && SameBoxedKind(runs[1..][i].0, runs[1..][i].1)
            && r == BoxedKind(runs[1..][i].0);
          assert runs[1..][i] == runs[i + 1];
        }
      }
      if r.None? {
        forall i | 0 <= i < |runs|
          ensures !SameBoxedKind(runs[i].0, runs[i].1)
        {
          if i > 0 {
            assert runs[i] == runs[1..][i - 1];
          }
        }
      }
    }
  }

  /** The descriptor after a series of evaluations is the kind of the last
      one that saw two boxes of the same kind: each such evaluation
      overwrites it, and the others leave it alone. */
  lemma {:induction false} LastSameKindWins(prev: Option<Kind>, runs: seq<(Value, Value)>, i: nat)
    requires i < |runs| && SameBoxedKind(runs[i].0, runs[i].1)
    requires forall j :: i < j < |runs| ==> !SameBoxedKind(runs[j].0, runs[j].1)
    ensures DescriptorAfter(prev, runs) == BoxedKind(runs[i].0)
    decreases |runs|
  {
    var next := NextDescriptor(prev, runs[0].0, runs[0].1);
    var rest := runs[1..];
    assert DescriptorAfter(prev, runs) == DescriptorAfter(next, rest);
    if i == 0 {
      forall j | 0 <= j < |rest|
        ensures !SameBoxedKind(rest[j].0, rest[j].1)
      {
        assert rest[j] == runs[j + 1];
      }
      DescriptorHistory(next, rest);
    } else {
      forall j | i - 1 < j < |rest|
        ensures !SameBoxedKind(rest[j].0, rest[j].1)
      {
        assert rest[j] == runs[j + 1];
      }
      assert rest[i - 1] == runs[i];
      LastSameKindWins(next, rest, i - 1);
    }
  }

  /** Int * Long computes a Long but sets no descriptor. */
  lemma MixedPairSetsNothing(h: Host)
    ensures Multiply(h, Int(2), Lng(3)) == Computed(Lng(6))
    ensures NextDescriptor(None, Int(2), Lng(3)) == None
  {
  }

  // ---------------------------------------------------------------------
  // Shape of the generated code

  /** The generated code starts with the left child's code; it holds a
      multiply instruction only when there are two children, exactly one
      then, as the last instruction and of the descriptor's kind; every unbox
      converts to the descriptor's kind, one per child that leaves a
      reference. */
  lemma GeneratedCodeShape(k: Kind, childCount: nat, leftPrimitive: bool, rightPrimitive: bool)
    ensures var code := GeneratedCode(k, childCount, leftPrimitive, rightPrimitive);
      && code[0] == ChildCode(LeftChild)
      && (forall i :: 0 <= i < |code| ==>
            (MultiplyKind(code[i]).Some? <==> childCount > 1 && i == |code| - 1))
      && (childCount > 1 ==> MultiplyKind(code[|code| - 1]) == Some(k))
      && (forall i :: 0 <= i < |code| && code[i].Unbox? ==> code[i].kind == k)
      && |code| == 1 + (if leftPrimitive then 0 else 1)
                   + (if childCount > 1 then 2 + (if rightPrimitive then 0 else 1) else 0)
      && (ChildCode(RightChild) in code <==> childCount > 1)
      && (!leftPrimitive ==> code[1] == Unbox(k))
      && (childCount > 1 ==> code[if leftPrimitive then 1 else 2] == ChildCode(RightChild))
      && (childCount > 1 && !rightPrimitive ==> code[|code| - 2] == Unbox(k))
  {
  }
}
