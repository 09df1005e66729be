/** Unary plus and minus on 64-bit integers, and their compile-time folding
    (`LongUniOperatorEval`). */
module LongUnary {
  import opened Wrappers
  import opened Types
  import opened Values
  import opened Faults

  /** Java's narrowing of an exact integer to a `long`: the unique value in
      the 64-bit range congruent to `x` modulo 2^64. */
  function Wrap(x: int): (r: Long)
    ensures (r - x) % 0x1_0000_0000_0000_0000 == 0
  {
    (x - MinLong) % 0x1_0000_0000_0000_0000 + MinLong
  }

  /** `-(long) v`: negation with two's-complement wrap-around. It is exact
      everywhere except at the minimum, which negates to itself. */
  function Negate(v: Long): (r: Long)
    ensures v != MinLong ==> r == -v
    ensures v == MinLong ==> r == MinLong
  {
    assert v != MinLong ==> 0 <= -v - MinLong < 0x1_0000_0000_0000_0000;
    assert -MinLong - MinLong == 0x1_0000_0000_0000_0000;
    Wrap(-(v as int))
  }

  /** Negating twice gives back the original value, the minimum included. */
  lemma NegateInvolutive(v: Long)
    ensures Negate(Negate(v)) == v
  {
  }

  /** `operate`: plus leaves the operand unchanged, minus negates it with
      wrap-around, and any other operator is an internal interpreter fault
      at the node's line. */
  function Operate(op: Operator, v: Long, line: int): (r: Result<Long, Fault>)
    ensures op == Plus ==> r == Success(v)
    ensures op == Minus ==> r.Success? && (v != MinLong ==> r.value == -v) && (v == MinLong ==> r.value == v)
    ensures op !in {Plus, Minus} ==> r == Failure(InternalInterpreter(line))
  {
    match op
    case Plus => Success(v)
    case Minus => Success(Negate(v))
    case _ => Failure(InternalInterpreter(line))
  }

  /** Minus applied twice is the identity, under wrap-around. */
  lemma MinusTwiceIsIdentity(v: Long, line: int)
    ensures Operate(Minus, Operate(Minus, v, line).value, line) == Success(v)
  {
    NegateInvolutive(v);
  }

  /** `get_type`: the result is a non-writable Long, whatever the operand. */
  function ResultType(node: ValueNode): (t: RuntimeType)
    requires node.LongUnary?
    ensures t.declType == Basic(Long) && !t.writable
  {
    RuntimeType(Basic(Long), false)
  }

  /** `compileTimeExpressionFold`: when the node has a compile-time value
      the node collapses to a constant with that value at the node's line;
      otherwise a new node with the same operator and line is built around
      the folded operand. `compileTimeValue` and `foldOperand` are the
      node's and the operand's own folding. The original node is a value
      and is left as it was. */
  function Fold(node: ValueNode, compileTimeValue: ValueNode -> Option<Val>,
                foldOperand: ValueNode -> ValueNode): (r: ValueNode)
    requires node.LongUnary?
    ensures Line(r) == Line(node)
    ensures compileTimeValue(node).Some? ==> r.Constant? && r.value == compileTimeValue(node).value
    ensures compileTimeValue(node).None? ==>
              r.LongUnary? && r.op == node.op && r.operand == foldOperand(node.operand)
  {
    match compileTimeValue(node)
    case Some(v) => Constant(v, None, node.line)
    case None => LongUnary(foldOperand(node.operand), node.op, node.line)
  }

  /** Folding twice changes nothing more than folding once, provided the
      operand's folding is itself idempotent and folding the operand does
      not make a compile-time value appear. */
  lemma FoldIdempotentWhenRebuilt(node: ValueNode, compileTimeValue: ValueNode -> Option<Val>,
                                  foldOperand: ValueNode -> ValueNode)
    requires node.LongUnary? && compileTimeValue(node).None?
    requires foldOperand(foldOperand(node.operand)) == foldOperand(node.operand)
    requires compileTimeValue(LongUnary(foldOperand(node.operand), node.op, node.line)).None?
    ensures Fold(Fold(node, compileTimeValue, foldOperand), compileTimeValue, foldOperand)
            == Fold(node, compileTimeValue, foldOperand)
  {
  }
}
