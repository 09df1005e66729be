/** Array types: assignability, equality, conversion, default construction
    and element access (`ArrayType`). */
module ArrayTypes {
  import opened Wrappers
  import opened Types
  import opened Values

  /** `t.superset(other)`: a value of type `other` may be assigned to a
      variable of array type `t` when `other` is an array type whose element
      type equals `t`'s and whose bounds lie inside `t`'s. */
  predicate Superset(t: DeclaredType, other: DeclaredType)
    requires t.Array?
    // an accepted type is an array with no more slots than `t`
    ensures Superset(t, other) ==> other.Array? && other.bounds.Size() <= t.bounds.Size()
    // every index of an accepted array is an index of `t`
    ensures Superset(t, other) ==> forall i :: other.bounds.Includes(i) ==> t.bounds.Includes(i)
  {
    other.Array? && Equals(other.element, t.element) && t.bounds.Contains(other.bounds)
  }

  /** Every array type accepts itself. */
  lemma SupersetReflexive(t: DeclaredType)
    requires t.Array?
    ensures Superset(t, t)
  {
    EqualsReflexive(t.element);
  }

  /** Acceptance in terms of the two ranges: `t` accepts `other` exactly when
      `other` is an array of an equal element type with
      `t.lower <= other.lower` and `other.upper <= t.upper`; a non-array
      descriptor is never accepted. */
  lemma SupersetIffContainedBounds(t: DeclaredType, other: DeclaredType)
    requires t.Array?
    ensures !other.Array? ==> !Superset(t, other)
    ensures other.Array? ==>
      (Superset(t, other) <==>
        Equals(other.element, t.element) &&
        t.bounds.lower <= other.bounds.lower && other.bounds.upper <= t.bounds.upper)
  {
  }

  /** Acceptance chains: if `a` accepts `b` and `b` accepts `c` then `a` accepts `c`. */
  lemma SupersetTransitive(a: DeclaredType, b: DeclaredType, c: DeclaredType)
    requires a.Array? && b.Array?
    requires Superset(a, b) && Superset(b, c)
    ensures Superset(a, c)
  {
    EqualsTransitive(c.element, b.element, a.element);
  }

  /** Equal array types accept each other; acceptance is strictly weaker than
      equality (`[1..10]` accepts `[2..5]`, which it does not equal). */
  lemma EqualsImpliesSuperset(t: DeclaredType, other: DeclaredType)
    requires t.Array? && Equals(t, other)
    ensures Superset(t, other)
  {
  }

  lemma SupersetWeakerThanEquals()
    ensures var a := Array(Basic(Integer), Subrange(1, 10));
            var b := Array(Basic(Integer), Subrange(2, 5));
            Superset(a, b) && !Equals(a, b)
  {
  }

  /** `array[1..10] of Integer` accepts `array[2..5] of Integer` but not
      `array[1..10] of Real`, Real being the Double kind (different element type). */
  lemma SupersetScenario()
    ensures Superset(Array(Basic(Integer), Subrange(1, 10)), Array(Basic(Integer), Subrange(2, 5)))
    ensures !Superset(Array(Basic(Integer), Subrange(1, 10)), Array(Basic(Double), Subrange(1, 10)))
  {
  }

  /** The element types are compared with the accepted array's element as
      receiver: an array of Integer accepts an array of Object elements,
      while an array of Object elements does not accept an array of Integer. */
  lemma SupersetElementReceiverOrder()
    ensures Superset(Array(Basic(Integer), Subrange(1, 3)), Array(JavaClass(ObjectClass), Subrange(1, 3)))
    ensures !Superset(Array(JavaClass(ObjectClass), Subrange(1, 3)), Array(Basic(Integer), Subrange(1, 3)))
  {
  }

  /** `cloneValue`: an element-wise copy of the array the node yields. */
  function CloneValue(value: ValueNode): (r: ValueNode)
    ensures r.ArrayCloner? && r.source == value
    ensures Line(r) == Line(value)
  {
    ArrayCloner(value)
  }

  /** `convert`: a value of static type `valueType` converts to array type
      `t` exactly when `t` accepts `valueType`, and the conversion is then a
      copy of the value; otherwise there is no conversion (null). */
  function Convert(t: DeclaredType, value: ValueNode, valueType: DeclaredType): (r: Option<ValueNode>)
    requires t.Array?
    ensures r.Some? <==> Superset(t, valueType)
    ensures r.Some? ==> r.value == CloneValue(value) && Line(r.value) == Line(value)
  {
    if Superset(t, valueType) then Some(CloneValue(value)) else None
  }

  /** A value whose static type is the array type itself always converts,
      and a value of a non-array type never does. */
  lemma ConvertOwnType(t: DeclaredType, value: ValueNode, valueType: DeclaredType)
    requires t.Array?
    ensures Convert(t, value, t) == Some(ArrayCloner(value))
    ensures !valueType.Array? ==> Convert(t, value, valueType) == None
  {
    SupersetReflexive(t);
  }

  /** `generateArrayAccess`: element access whose index offset is the lower bound. */
  function ArrayAccessNode(t: DeclaredType, base: ValueNode, index: ValueNode): (r: ValueNode)
    requires t.Array?
    ensures r.ArrayAccess? && r.base == base && r.index == index
    ensures forall i :: t.bounds.Includes(i) ==> 0 <= i - r.offset < t.bounds.Size()
    ensures r.offset == t.bounds.lower
  {
    ArrayAccess(base, index, t.bounds.lower)
  }

  /** Every index inside the declared range lands, after the offset, on a slot
      of the array `t` initializes to, and that slot holds the element default. */
  lemma AccessHitsInitializedSlot(t: DeclaredType, base: ValueNode, index: ValueNode, i: int)
    requires t.Array? && t.bounds.Includes(i)
    ensures var slot := i - ArrayAccessNode(t, base, index).offset;
            0 <= slot < |Initial(t).elements| && Initial(t).elements[slot] == Initial(t.element)
  {
  }

  /** `initialize`: allocates an array of `bounds.Size()` slots and fills
      every slot with the element type's default. */
  method Initialize(t: DeclaredType) returns (a: array<Val>)
    requires t.Array?
    ensures fresh(a)
    ensures a.Length == t.bounds.Size()
    ensures forall i :: 0 <= i < a.Length ==> a[i] == Initial(t.element)
    ensures ArrayValue(a[..]) == Initial(t)
  {
    var n := t.bounds.Size();
    a := new Val[n];
    for i := 0 to n
      invariant forall j :: 0 <= j < i ==> a[j] == Initial(t.element)
    {
      a[i] := Initial(t.element);
    }
    assert a[..] == seq(n, _ => Initial(t.element));
  }
}
