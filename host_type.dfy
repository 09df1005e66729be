/** Host-native types admitted into the language (`JavaClassBasedType`):
    their implicit conversions and (absent) indexing. */
module HostTypes {
  import opened Wrappers
  import opened Types
  import opened Values

  /** `cloneValue`: a copy made through the host object's own clone hook. */
  function CloneValue(value: ValueNode): (r: ValueNode)
    ensures r.ObjectCloner? && r.source == value
  {
    ObjectCloner(value)
  }

  /** `convert` of a value of static type `valueType` to the host type of class `c`:
      - a basic-typed value of a type `c` equals is cloned;
      - to String, a StringBuilder value is boxed once and a Character value
        boxed as a character and then as text;
      - a host-typed value of a type `c` equals is passed through uncopied;
      - every other combination has no conversion (null). */
  function Convert(c: string, value: ValueNode, valueType: DeclaredType): (r: Option<ValueNode>)
    ensures r.Some? ==> Line(r.value) == Line(value)
    ensures r.Some? <==>
      ((valueType.Basic? || valueType.JavaClass?) && Equals(JavaClass(c), valueType)) ||
      (c == StringClass && valueType in {Basic(StringBuilder), Basic(Character)})
  {
    if valueType.Basic? && Equals(JavaClass(c), valueType) then
      Some(CloneValue(value))
    else if valueType.Basic? && c == StringClass && valueType.kind == StringBuilder then
      Some(StringBuilderBoxer(value))
    else if valueType.Basic? && c == StringClass && valueType.kind == Character then
      Some(StringBuilderBoxer(CharacterBoxer(value)))
    else if valueType.JavaClass? && Equals(JavaClass(c), valueType) then
      Some(value)
    else
      None
  }

  /** The Object host type takes every basic value as a copy and every host
      value as it is. */
  lemma ObjectAcceptsBasicAndHost(value: ValueNode, valueType: DeclaredType)
    ensures valueType.Basic? ==> Convert(ObjectClass, value, valueType) == Some(ObjectCloner(value))
    ensures valueType.JavaClass? ==> Convert(ObjectClass, value, valueType) == Some(value)
  {
  }

  /** Text boxing into String: a StringBuilder value is boxed once, a
      Character value is boxed as a character and then as text. */
  lemma StringBoxing(value: ValueNode)
    ensures Convert(StringClass, value, Basic(StringBuilder)) == Some(StringBuilderBoxer(value))
    ensures Convert(StringClass, value, Basic(Character)) == Some(StringBuilderBoxer(CharacterBoxer(value)))
  {
  }

  /** A host value converts to a host type of its own class unchanged, with no copy. */
  lemma SameClassPassesThrough(c: string, value: ValueNode)
    ensures Convert(c, value, JavaClass(c)) == Some(value)
  {
  }

  /** Host conversion is one-way: a String converts to Object, an Object does
      not convert to String. */
  lemma ConversionIsOneWay(value: ValueNode)
    ensures Convert(ObjectClass, value, JavaClass(StringClass)) == Some(value)
    ensures Convert(StringClass, value, JavaClass(ObjectClass)) == None
  {
  }

  /** Arrays and class types never convert to a host type; nor does any basic
      kind other than StringBuilder and Character to a host type other than Object. */
  lemma NoOtherConversions(c: string, value: ValueNode, valueType: DeclaredType)
    requires valueType.Array? || valueType.PascalClass? ||
             (valueType.Basic? && c != ObjectClass && valueType.kind !in {StringBuilder, Character})
    ensures Convert(c, value, valueType) == None
  {
  }

  /** `generateArrayAccess`: a host type cannot be indexed; there is no access node (null). */
  function ArrayAccessNode(base: ValueNode, index: ValueNode): (r: Option<ValueNode>)
    ensures r.None?
  {
    None
  }
}
