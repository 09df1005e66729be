/** Type descriptors of the interpreter (its `DeclaredType` hierarchy) and the
    per-kind `equals` relation they are compared with. */
module Types {

  /** The basic kinds the model distinguishes (the `BasicType` enumeration). */
  datatype BasicKind = Boolean | Character | StringBuilder | Integer | Long | Double

  /** Fully qualified names of the two host classes the conversion rules single out. */
  const ObjectClass: string := "java.lang.Object"
  const StringClass: string := "java.lang.String"

  /** An index range `lower..upper`, both ends inclusive (a `SubrangeType`). */
  datatype Subrange = Subrange(lower: int, upper: int)
  {
    /** Number of indices in the range; an inverted range is empty. */
    function Size(): nat
    {
      if upper < lower then 0 else upper - lower + 1
    }

    /** Whether index `i` lies inside the range. */
    predicate Includes(i: int)
    {
      lower <= i <= upper
    }

    /** Whether `other` lies inside this range. */
    predicate Contains(other: Subrange)
    {
      lower <= other.lower && other.upper <= upper
    }
  }

  /** A type descriptor: exactly one kind per value. */
  datatype DeclaredType =
    | Basic(kind: BasicKind)                          // BasicType
    | Array(element: DeclaredType, bounds: Subrange)  // ArrayType
    | JavaClass(className: string)                    // JavaClassBasedType
    | PascalClass(declaration: nat)                   // PascalClassType, by declaration identity

  /** Nesting depth of array kinds, used to bound recursion over descriptors. */
  function Height(t: DeclaredType): nat
  {
    match t
    case Array(e, _) => 1 + Height(e)
    case _ => 0
  }

  /** `t.equals(other)`, dispatched on the receiver's kind:
      - an array type equals an array type whose element type equals (as
        receiver) this element type and whose bounds are the same;
      - a host type whose class is Object equals every descriptor, any other
        host type only a host type of the identical class;
      - a class type equals a class type of the same declaration. */
  predicate Equals(t: DeclaredType, other: DeclaredType)
    // only the Object host type equals a descriptor of another kind
    ensures Equals(t, other) && t != JavaClass(ObjectClass) ==>
              (t.Basic? <==> other.Basic?) && (t.Array? <==> other.Array?) &&
              (t.JavaClass? <==> other.JavaClass?) && (t.PascalClass? <==> other.PascalClass?)
    // equal arrays have the same bounds
    ensures Equals(t, other) && t.Array? ==> other.Array? && other.bounds == t.bounds
    decreases Height(t) + Height(other)
  {
    match t
    case Basic(k) => other == Basic(k)
    case Array(e, b) => other.Array? && Equals(other.element, e) && b == other.bounds
    case JavaClass(c) => c == ObjectClass || (other.JavaClass? && other.className == c)
    case PascalClass(d) => other.PascalClass? && other.declaration == d
  }

  /** Every descriptor equals itself. */
  lemma {:induction false} EqualsReflexive(t: DeclaredType)
    ensures Equals(t, t)
    decreases Height(t)
  {
    match t
    case Array(e, _) => EqualsReflexive(e);
    case _ =>
  }

  /** `equals` is transitive, across every kind (the Object host type included). */
  lemma {:induction false} EqualsTransitive(x: DeclaredType, y: DeclaredType, z: DeclaredType)
    requires Equals(x, y) && Equals(y, z)
    ensures Equals(x, z)
    decreases Height(x) + Height(y) + Height(z)
  {
    match x
    case Array(e, b) =>
      EqualsTransitive(z.element, y.element, e);
    case _ =>
  }

  /** `equals` is not symmetric: the Object host type equals the String host
      type, but not the other way round. */
  lemma EqualsNotSymmetric()
    ensures Equals(JavaClass(ObjectClass), JavaClass(StringClass))
    ensures !Equals(JavaClass(StringClass), JavaClass(ObjectClass))
  {
  }

  /** The Object host type equals every descriptor. */
  lemma ObjectEqualsEverything(other: DeclaredType)
    ensures Equals(JavaClass(ObjectClass), other)
  {
  }

  /** A host type other than Object equals exactly the host type of the same class. */
  lemma HostEqualsIdenticalClass(c: string, other: DeclaredType)
    requires c != ObjectClass
    ensures Equals(JavaClass(c), other) <==> other == JavaClass(c)
  {
  }

  /** Class types compare by declaration: a class type equals exactly the class
      type of the same declaration, and between class types the relation is
      symmetric. */
  lemma ClassEqualsIsDeclarationIdentity(d: nat, other: DeclaredType)
    ensures Equals(PascalClass(d), other) <==> other == PascalClass(d)
    ensures other.PascalClass? ==> (Equals(PascalClass(d), other) <==> Equals(other, PascalClass(d)))
  {
  }
}
