/** The diagnostic raised when a value cannot be converted to the type it is
    assigned or passed to (`UnConvertibleTypeException`). */
module Unconvertible {
  import opened Wrappers
  import opened Types
  import opened Values

  /** `identifier := value`, where the value's type cannot be converted to
      the identifier's (target) type. `identifier` is absent when the error
      is about an expression alone. */
  datatype UnconvertibleType = UnconvertibleType(
    value: ValueNode,
    valueType: DeclaredType,
    targetType: DeclaredType,
    identifier: Option<ValueNode>,
    line: int,
    message: string)

  /** The message common to both forms. `show` and `showType` are the
      nodes' and the types' textual renderings. */
  function Message(value: ValueNode, valueType: DeclaredType, targetType: DeclaredType,
                   show: ValueNode -> string, showType: DeclaredType -> string): string
  {
    "The expression or variable \"" + show(value) + "\" is of type \"" + showType(valueType) + "\""
      + ", which cannot be converted to the type \"" + showType(targetType) + "\""
  }

  /** The first form: an expression whose type cannot be converted to `targetType`. */
  function FromValue(value: ValueNode, targetType: DeclaredType, valueType: DeclaredType,
                     show: ValueNode -> string, showType: DeclaredType -> string)
    : (e: UnconvertibleType)
    ensures e.value == value && e.valueType == valueType && e.targetType == targetType
    ensures e.identifier.None?
    ensures e.line == Line(value)
    ensures e.message == Message(value, valueType, targetType, show, showType)
  {
    UnconvertibleType(value, valueType, targetType, None, Line(value),
                      Message(value, valueType, targetType, show, showType))
  }

  /** The second form: `value` cannot be converted to the type of
      `identifier`, which becomes the target type. Its message is the first
      form's message followed by the identifier. */
  function FromIdentifier(value: ValueNode, identifierType: DeclaredType, valueType: DeclaredType,
                          identifier: ValueNode,
                          show: ValueNode -> string, showType: DeclaredType -> string)
    : (e: UnconvertibleType)
    ensures e.value == value && e.valueType == valueType && e.targetType == identifierType
    ensures e.identifier == Some(identifier)
    ensures e.line == Line(value)
    ensures e.message == Message(value, valueType, identifierType, show, showType)
                         + " of expression or variable " + show(identifier)
  {
    var head := "The expression or variable \"" + show(value) + "\" is of type \"" + showType(valueType) + "\"";
    var text := head + ", which cannot be " + "converted to the type \"" + showType(identifierType)
                + "\" of expression or variable " + show(identifier);
    TailJoin(head, showType(identifierType), show(identifier));
    UnconvertibleType(value, valueType, identifierType, Some(identifier), Line(value), text)
  }

  /** The second form's message, split where its text is split, is the
      first form's message plus the identifier part. */
  lemma TailJoin(head: string, target: string, identifier: string)
    ensures head + ", which cannot be " + "converted to the type \"" + target
              + "\" of expression or variable " + identifier
            == (head + ", which cannot be converted to the type \"" + target + "\"")
              + " of expression or variable " + identifier
  {
    assert ", which cannot be " + "converted to the type \"" == ", which cannot be converted to the type \"";
    assert "\" of expression or variable " == "\"" + " of expression or variable ";
  }

  /** A node the editor can offer to fix: a variable, or a named constant. */
  predicate NamesStorage(n: ValueNode)
  {
    n.Variable? || (n.Constant? && n.constName.Some?)
  }

  /** `isAutoFix`: whether the editor can offer a fix for this error. */
  function IsAutoFix(e: UnconvertibleType): (fixable: bool)
    ensures fixable <==> NamesStorage(e.value) || (e.identifier.Some? && NamesStorage(e.identifier.value))
  {
    (e.identifier.Some? && e.identifier.value.Variable?) || e.value.Variable?
      || (e.identifier.Some? && e.identifier.value.Constant? && e.identifier.value.constName.Some?)
      || (e.value.Constant? && e.value.constName.Some?)
  }

  /** In the first form the fix depends on the value alone. */
  lemma FromValueAutoFix(value: ValueNode, targetType: DeclaredType, valueType: DeclaredType,
                         show: ValueNode -> string, showType: DeclaredType -> string)
    ensures IsAutoFix(FromValue(value, targetType, valueType, show, showType)) <==> NamesStorage(value)
  {
  }

  /** The two forms agree on everything but the identifier and the message's tail. */
  lemma FormsAgree(value: ValueNode, targetType: DeclaredType, valueType: DeclaredType,
                   identifier: ValueNode, show: ValueNode -> string, showType: DeclaredType -> string)
    ensures var first := FromValue(value, targetType, valueType, show, showType);
            var second := FromIdentifier(value, targetType, valueType, identifier, show, showType);
            first.(identifier := Some(identifier), message := second.message) == second &&
            second.message[..|first.message|] == first.message
  {
  }
}
