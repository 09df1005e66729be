/** Runtime values and the expression nodes that produce them. */
module Values {
  import opened Wrappers
  import opened Types

  const MinLong: int := -0x8000_0000_0000_0000
  const MaxLong: int := 0x7FFF_FFFF_FFFF_FFFF

  /** A Java `long`: a 64-bit two's-complement integer. */
  type Long = x: int | MinLong <= x <= MaxLong

  /** Runtime values. */
  datatype Val =
    | NullValue                       // the language-level null sentinel
    | LongValue(l: Long)
    | ArrayValue(elements: seq<Val>)
    | BasicDefault(kind: BasicKind)   // what a basic type initializes to
    | HostInstance(className: string) // a host object made by reflective instantiation

  /** Unary operators of the language. */
  datatype Operator = Plus | Minus | Not

  /** Expression nodes. A node owns its children; there is no sharing. */
  datatype ValueNode =
    | Variable(name: string, line: int)                          // VariableAccess
    | Constant(value: Val, constName: Option<string>, line: int) // ConstantAccess (named or literal)
    | Expression(id: nat, line: int)                             // any other node, left abstract
    | ArrayCloner(source: ValueNode)                             // element-wise copy of an array
    | ObjectCloner(source: ValueNode)                             // copy through the host clone hook
    | StringBuilderBoxer(source: ValueNode)                      // text boxed into a mutable string
    | CharacterBoxer(source: ValueNode)                          // character boxed into text
    | ArrayAccess(base: ValueNode, index: ValueNode, offset: int)
    | LongUnary(operand: ValueNode, op: Operator, line: int)     // LongUniOperatorEval

  /** The source line a node is attributed to: wrappers and array accesses
      report the line of the node they are built around. */
  function Line(n: ValueNode): int
  {
    match n
    case Variable(_, line) => line
    case Constant(_, _, line) => line
    case Expression(_, line) => line
    case ArrayCloner(s) => Line(s)
    case ObjectCloner(s) => Line(s)
    case StringBuilderBoxer(s) => Line(s)
    case CharacterBoxer(s) => Line(s)
    case ArrayAccess(a, _, _) => Line(a)
    case LongUnary(_, _, line) => line
  }

  /** The static type of an expression: a descriptor and whether it may be
      assigned to (a `RuntimeType`). */
  datatype RuntimeType = RuntimeType(declType: DeclaredType, writable: bool)

  /** The value each kind of type initializes a fresh variable to: arrays hold
      `bounds.Size()` copies of their element default, class types the null
      sentinel. */
  function Initial(t: DeclaredType): (v: Val)
    ensures t.Array? ==> v.ArrayValue? && |v.elements| == t.bounds.Size() &&
                         forall i :: 0 <= i < |v.elements| ==> v.elements[i] == Initial(t.element)
    ensures t.PascalClass? ==> v == NullValue
    ensures t.JavaClass? ==> v == HostInstance(t.className)
  {
    match t
    case Basic(k) => BasicDefault(k)
    case Array(e, b) => ArrayValue(seq(b.Size(), _ => Initial(e)))
    case JavaClass(c) => HostInstance(c)
    case PascalClass(_) => NullValue
  }
}
