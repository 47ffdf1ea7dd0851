# The SpEL multiply operator, modelled in Dafny

This project models `OpMultiply`, the `*` operator node of the Spring
Expression Language (SpEL). The node has three parts, and the model covers all three:

- **Interpreted evaluation (`getValueInternal`).** The operator applies binary numeric promotion (section 5.6.2 of the
  Java Language Specification, with unboxing per section 5.1.8). BigDecimal is added above
  double on that ladder. A String times an Integer repeats the string. Every other operand pair is
  handed to the registered operator overloader. As a side effect, the node records the operands'
  common box class in its exit type descriptor. This happens only when both operands are Integers,
  both Longs, both Floats or both Doubles.
- **`isCompilable`.** The node compiles only when its children compile and a descriptor has
  been recorded.
- **`generateCode`.** The node emits its children's code, each followed by an unbox when the child
  leaves a reference. It then emits the multiply instruction of the descriptor's kind (`imul`, `lmul`,
  `fmul` or `dmul`; Java Virtual Machine Specification, chapter 6) and pushes the descriptor.

The modules are:

- `JavaNumbers` (`numbers.dfy`): Java `int` and `long` as the newtypes `I32` and `I64`.
  - 32- and 64-bit two's-complement wrap-around is written out as `Wrap32` and `Wrap64`.
  - A BigDecimal is an unscaled integer and a scale.
  - Its meaning is a real number, and its product is proved exact.
- `SpelValues` (`values.dfy`): the operand values and the `Number` conversions the operator uses
  (`intValue`, `longValue`, `floatValue`, `doubleValue`, conversion to BigDecimal).
  - Floats and doubles are IEEE 754 bit patterns.
  - Every rounding operation on them is supplied by a `Host` value. These operations are multiplication, widening,
    integer-to-floating conversion and decimal conversion.
  - Kinds `I`, `J`, `F` and `D` name the JVM primitive descriptors.
- `Bytecode` (`bytecode.dfy`): the instructions the node emits.
  - `MethodVisitor` and `CodeFlow` are classes that collect instructions and descriptors.
  - `Step` and `Run` give an operand-stack semantics for the emitted instructions.
- `OpMultiply` (`opmultiply.dfy`): the operator itself.
  - `Multiply` is the value of one evaluation and `NextDescriptor` is the descriptor after it.
  - `GeneratedCode` is the emitted code.
  - The class `MultiplyNode` holds the child count and the mutable `exitTypeDescriptor`.
  - Its imperative `GetValueInternal` and `GenerateCode` are proved against those functions. This includes the
    `StringBuilder` loop of the repeat case, which is the method `RepeatString`.
- `MultiplyProperties` (`properties.dfy`): what the operator promises, stated over the model.
- `CompiledAgreement` (`agreement.dfy`): running the generated code on the stack semantics gives the
  interpreted result. It does so whenever the operands are boxes of the descriptor's kind. For any
  other operands the compiled code fails rather than giving a different number.

Two things in the operator are not handled inside the model:

- The overloader (`state.operate`) is outside the model. The operator's result in that case is
  `Delegated(MULTIPLY, left, right)`, the request it hands over.
- A float or double that cannot become a BigDecimal (NaN, an infinity) raises an exception in the
  conversion. Here it is the outcome `Failed(NotADecimal(operand))`.

Two points about the model's shape:

- Children are represented by their values and by a `ChildView`, which records whether the child is
  compilable and whether its exit descriptor is primitive.
- The values are passed in already evaluated. The left operand is evaluated first, and it is the first argument everywhere.

## Model

| member | source | states |
|---|---|---|
| JavaNumbers.Wrap32 | spring-expression/src/main/java/org/springframework/expression/spel/ast/OpMultiply.java:109 | a Java int multiplication result: congruent to the exact product modulo 2^32, and equal to it when it fits in 32 bits |
| JavaNumbers.Wrap64 | spring-expression/src/main/java/org/springframework/expression/spel/ast/OpMultiply.java:104 | a Java long multiplication result: congruent modulo 2^64, equal when it fits in 64 bits |
| JavaNumbers.DecimalMultiply | spring-expression/src/main/java/org/springframework/expression/spel/ast/OpMultiply.java:82 | BigDecimal.multiply is exact: the value of the product is the product of the values |
| JavaNumbers.IntegralDecimal | spring-expression/src/main/java/org/springframework/expression/spel/ast/OpMultiply.java:80-81 | an integral number converted to BigDecimal keeps its value, at scale 0 |
| SpelValues.LongValue | spring-expression/src/main/java/org/springframework/expression/spel/ast/OpMultiply.java:104 | longValue() keeps a Long and an Integer and truncates any other integral number modulo 2^64 |
| SpelValues.IntValue | spring-expression/src/main/java/org/springframework/expression/spel/ast/OpMultiply.java:109 | intValue() keeps an Integer and truncates any other integral number modulo 2^32 |
| SpelValues.DoubleValue | spring-expression/src/main/java/org/springframework/expression/spel/ast/OpMultiply.java:89-90 | doubleValue() of a Double is that double itself |
| SpelValues.FloatValue | spring-expression/src/main/java/org/springframework/expression/spel/ast/OpMultiply.java:97 | floatValue() of a Float is that float itself |
| SpelValues.ToDecimal | spring-expression/src/main/java/org/springframework/expression/spel/ast/OpMultiply.java:80-81 | conversion to BigDecimal keeps a BigDecimal unchanged and always succeeds, exactly, on integral numbers |
| SpelValues.Descriptor | spring-expression/src/main/java/org/springframework/expression/spel/ast/OpMultiply.java:87 | each kind's descriptor is exactly one character long |
| SpelValues.DescriptorNamesKind | spring-expression/src/main/java/org/springframework/expression/spel/ast/OpMultiply.java:141 | the first character of a descriptor, what charAt(0) reads, determines the kind |
| Bytecode.MulOpcode | spring-expression/src/main/java/org/springframework/expression/spel/ast/OpMultiply.java:149-164 | the multiply instruction chosen for descriptor k works in kind k |
| Bytecode.Unboxed | spring-expression/src/main/java/org/springframework/expression/spel/ast/OpMultiply.java:141 | unboxing a box gives a primitive of the box's own kind |
| Bytecode.Boxed | spring-expression/src/main/java/org/springframework/expression/spel/ast/OpMultiply.java:141 | boxing a primitive gives a box of the primitive's own kind |
| Bytecode.UnboxedKeepsValue | spring-expression/src/main/java/org/springframework/expression/spel/ast/OpMultiply.java:141-147 | unboxing keeps the box's value: boxing the primitive again gives the same box, and two boxes unbox alike exactly when they are equal |
| OpMultiply.CopiesLength | spring-expression/src/main/java/org/springframework/expression/spel/ast/OpMultiply.java:111-117 | n copies of s have length \|s\| * n |
| OpMultiply.CopiesAt | spring-expression/src/main/java/org/springframework/expression/spel/ast/OpMultiply.java:111-117 | character i of copy j is s[i]: the copies are the string's characters, in order |
| OpMultiply.RepeatCount | spring-expression/src/main/java/org/springframework/expression/spel/ast/OpMultiply.java:114 | the loop runs repeats times, and not at all for a count of zero or less |
| OpMultiply.RepeatString | spring-expression/src/main/java/org/springframework/expression/spel/ast/OpMultiply.java:112-117 | the StringBuilder loop builds exactly RepeatCount(repeats) copies of the string, of length \|s\| * RepeatCount(repeats) |
| OpMultiply.Wider | spring-expression/src/main/java/org/springframework/expression/spel/ast/OpMultiply.java:38-42 | the higher of two rungs of the promotion ladder is one of them and ranks at least as high as both |
| OpMultiply.NextDescriptor | spring-expression/src/main/java/org/springframework/expression/spel/ast/OpMultiply.java:86-108 | the descriptor either stays as it was or becomes the operands' common box kind; it becomes that kind whenever both operands are boxes of the same kind; it is never cleared |
| OpMultiply.MultiplyNode.GetValueInternal | spring-expression/src/main/java/org/springframework/expression/spel/ast/OpMultiply.java:71-121 | on a node with two children the result is the ladder's value Multiply and the new exitTypeDescriptor is NextDescriptor of the old one; a single-child node fails reading its right operand and keeps its descriptor |
| OpMultiply.MultiplyNode.IsCompilable | spring-expression/src/main/java/org/springframework/expression/spel/ast/OpMultiply.java:124-134 | compilable exactly when the left child is, the right child is too if there are two children, and a descriptor is set |
| OpMultiply.MultiplyNode.GenerateCode | spring-expression/src/main/java/org/springframework/expression/spel/ast/OpMultiply.java:137-167 | appends exactly GeneratedCode for the node's descriptor and pushes that descriptor once |
| MultiplyProperties.LadderPrecedence | spring-expression/src/main/java/org/springframework/expression/spel/ast/OpMultiply.java:79-109 | two numbers multiply on the higher of their two rungs (BigDecimal > double > float > long > int); the result stands on that rung, and only the BigDecimal rung can fail |
| MultiplyProperties.DecimalOperandWins | spring-expression/src/main/java/org/springframework/expression/spel/ast/OpMultiply.java:79-83 | with a BigDecimal on either side, the result is the exact product of both converted operands (a Double included); it fails exactly when a conversion fails, naming the first operand that failed; the descriptor is untouched |
| MultiplyProperties.DecimalTimesIntegral | spring-expression/src/main/java/org/springframework/expression/spel/ast/OpMultiply.java:79-83 | BigDecimal times an integral number, in either order, is the exact product |
| MultiplyProperties.LongProductWraps | spring-expression/src/main/java/org/springframework/expression/spel/ast/OpMultiply.java:100-105 | with a Long and nothing wider, the result is a Long congruent to the product of the longValue()s modulo 2^64, and equal to it when it fits |
| MultiplyProperties.IntProductWraps | spring-expression/src/main/java/org/springframework/expression/spel/ast/OpMultiply.java:106-109 | integral operands without a Long (Short, Byte, BigInteger included) give an Integer congruent to the product of the intValue()s modulo 2^32 |
| MultiplyProperties.IntOverflowExample | spring-expression/src/main/java/org/springframework/expression/spel/ast/OpMultiply.java:109 | Integer.MAX_VALUE * 2 is -2 |
| MultiplyProperties.StringTimesInteger | spring-expression/src/main/java/org/springframework/expression/spel/ast/OpMultiply.java:111-117 | String * Integer n is n copies of the string, of length \|s\| * max(n, 0), and empty for n <= 0; String * Long is delegated |
| MultiplyProperties.StringRepeatExample | spring-expression/src/main/java/org/springframework/expression/spel/ast/OpMultiply.java:67 | 'ab' * 3 is 'ababab' |
| MultiplyProperties.DelegatedExactlyOtherwise | spring-expression/src/main/java/org/springframework/expression/spel/ast/OpMultiply.java:120 | exactly the pairs that are neither two Numbers nor a String and an Integer go to the overloader, unchanged and in order, leaving the descriptor as it was |
| MultiplyProperties.DescriptorHistory | spring-expression/src/main/java/org/springframework/expression/spel/ast/OpMultiply.java:86-108 | over any series of evaluations the descriptor is unset exactly when it was unset before and no evaluation saw two boxes of one kind; once set it is the initial one or the kind of such an evaluation |
| MultiplyProperties.LastSameKindWins | spring-expression/src/main/java/org/springframework/expression/spel/ast/OpMultiply.java:86-108 | after a series of evaluations the descriptor is the kind of the last evaluation that saw two boxes of one kind, since each such evaluation overwrites it and the others leave it alone |
| MultiplyProperties.MixedPairSetsNothing | spring-expression/src/main/java/org/springframework/expression/spel/ast/OpMultiply.java:100-104 | Integer 2 * Long 3 is Long 6 and sets no descriptor |
| MultiplyProperties.GeneratedCodeShape | spring-expression/src/main/java/org/springframework/expression/spel/ast/OpMultiply.java:137-167 | the code starts with the left child's code, followed by its unbox when that child leaves a reference; with two children the right child's code comes next, then its unbox when it leaves a reference, and then exactly one multiply instruction, last and of the descriptor's kind; there is no multiply instruction with one child; every unbox is to the descriptor's kind, and the length counts one unbox per child that leaves a reference |
| CompiledAgreement.RunAppend | spring-expression/src/main/java/org/springframework/expression/spel/ast/OpMultiply.java:137-167 | running emitted code split in two runs the halves one after the other |
| CompiledAgreement.OperandCode | spring-expression/src/main/java/org/springframework/expression/spel/ast/OpMultiply.java:138-142 | a child's code with its optional unbox leaves the child's primitive value or fails, and succeeds on a box of the descriptor's kind |
| CompiledAgreement.MultiplyInstruction | spring-expression/src/main/java/org/springframework/expression/spel/ast/OpMultiply.java:149-161 | the multiply instruction succeeds exactly on two primitives of its kind and then leaves the interpreted product |
| CompiledAgreement.BothOperands | spring-expression/src/main/java/org/springframework/expression/spel/ast/OpMultiply.java:138-148 | both children's code leaves the two primitive values, left below right, or fails; it succeeds on two boxes of the descriptor's kind |
| CompiledAgreement.CompiledMatchesInterpreted | spring-expression/src/main/java/org/springframework/expression/spel/ast/OpMultiply.java:137-167 | on two boxes of the descriptor's kind, the compiled code leaves exactly the interpreted product, whatever form the children leave their values in |
| CompiledAgreement.CompiledNeverDisagrees | spring-expression/src/main/java/org/springframework/expression/spel/ast/OpMultiply.java:137-167 | for any operands, even with a stale descriptor, the compiled code fails or leaves the interpreted product |
| CompiledAgreement.EvaluateThenCompile | spring-expression/src/main/java/org/springframework/expression/spel/ast/OpMultiply.java:71-167 | a fresh node evaluated on two boxes of one kind becomes compilable; its generated code pushes that kind's descriptor and, run on those operands, yields the value the evaluation returned |

## Left out

- Float and double arithmetic (lines 89-90 and 97) are not modelled. Multiplication, widening and integer-to-floating conversion
  are functions in `Host`, so nothing is stated about floating-point results beyond which
  operation produced them.
- `NumberUtils.convertNumberToTargetClass` is not part of this model.
  - Conversion of a float or double to BigDecimal is a `Host` function that may fail. The failure stands for the NumberFormatException raised for NaN and the infinities.
  - The integral cases are modelled exactly.
- BigDecimal scale overflow: the scale is an unbounded `int`. The ArithmeticException raised when the scale of a product leaves the 32-bit range is not modelled.
- The overload mechanism (`state.operate`, `ExpressionState`) is not modelled. The model stops at the request handed to it.
- Child nodes are not modelled. Their parsing, evaluation and own code generation are inputs: a child's value, its compilability and whether its exit descriptor is primitive.
  - The children's own pushes onto `CodeFlow` are not modelled.
  - Left-before-right evaluation appears only as argument order.
- ASM and `CodeFlow` internals are abstract instructions. This covers `isPrimitive`, `insertUnboxInsns` and the opcode encoding. `insertUnboxInsns` is called with no checkcast, so it is one `Unbox(k)` for the xxxValue() call. A reference of another class, which the JVM's bytecode verifier would reject, is a failed step.
- The `IllegalStateException` default of the opcode switch (line 163) cannot arise in the model. The descriptor has type `Kind`, which holds only I, J, F and D, and the field is never set to anything else.
- Concurrent evaluations racing on `exitTypeDescriptor` are not modelled.
- A `Number` subclass that is neither a JDK box, BigDecimal nor integral is not modelled. Examples are a user-defined decimal type, or a `DoubleAdder`. Every other Number here is integral and is carried by its exact value (`OtherNum`).
- OpMultiply.MultiplyNode.GetValueInternal: on a single-child node, line 74 reads a right operand that does not exist and throws. The model gives the outcome `Failed(NoRightOperand)` instead of the Java exception, and ignores the right operand value it is passed. The evaluation of the left child before that point is not modelled.
- A single-child node is otherwise modelled by `IsCompilable`, `GenerateCode` and `GeneratedCodeShape`. The agreement lemmas assume two children, since the interpreted operator always reads a right operand.
