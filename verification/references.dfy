/** The reference value type of LibGit2Sharp (`Reference`, with its two
    subclasses `DirectReference` and `SymbolicReference`): resolution to a
    direct reference, the structural equality of `Equals`/`==`/`!=`, and
    `GetHashCode`.

    A reference carries the native handle it owns. Equality never looks at
    that handle, so two references built from two handles to the same store
    entry are `Equals` while being distinct values; Dafny's own `==` on
    `Reference` is therefore the stand-in for C#'s `ReferenceEquals` (the
    same instance), and `Equals` is a separate function. */
module References {
  import opened Wrappers
  import opened Hashing

  /** Raw bytes of an object identity (a SHA-1 in git). */
  type ObjectId = seq<bv8>

  datatype ObjectKind = Commit | Tree | Blob | Tag

  /** An object of the object database, as returned by `Repository.Lookup`.
      Its equality is value equality. */
  datatype GitObject = GitObject(id: ObjectId, kind: ObjectKind)

  /** An opaque native handle into the reference store (`IntPtr`). */
  datatype Handle = Handle(address: nat)

  /** The type tag the native store reports for a reference
      (`GitReferenceType`); `OtherType` is every tag but `Oid` and
      `Symbolic`. */
  datatype GitReferenceType = Oid | Symbolic | OtherType(code: int)

  /** The runtime class of a reference, as `GetType()` reports it. */
  datatype ReferenceClass = DirectClass | SymbolicClass

  /** A reference: a name, the handle it owns, and its target. A direct
      reference targets an object; a symbolic one targets another, already
      built, reference. */
  datatype Reference =
    | DirectReference(name: string, handle: Handle, target: GitObject)
    | SymbolicReference(name: string, handle: Handle, targetRef: Reference)
  {
    /** `GetType()`. */
    function Class(): ReferenceClass {
      if DirectReference? then DirectClass else SymbolicClass
    }

    /** The `Type` property: the tag the reference was built from. */
    function Type(): GitReferenceType {
      if DirectReference? then Oid else Symbolic
    }
  }

  /** Number of symbolic hops before a direct reference is reached. */
  function Depth(r: Reference): nat {
    match r
    case DirectReference(_, _, _) => 0
    case SymbolicReference(_, _, t) => Depth(t) + 1
  }

  /** The symbolic chain of `r`: `r`, its target, its target's target, ...,
      ending in the one direct reference of the chain. */
  function Chain(r: Reference): (c: seq<Reference>)
    ensures |c| == Depth(r) + 1
    ensures c[0] == r
    ensures c[|c| - 1].DirectReference?
    ensures forall i :: 0 <= i < |c| - 1 ==> c[i].SymbolicReference? && c[i + 1] == c[i].targetRef
  {
    match r
    case DirectReference(_, _, _) => [r]
    case SymbolicReference(_, _, t) => [r] + Chain(t)
  }

  // ---------------------------------------------------------------------
  // Resolution
  // ---------------------------------------------------------------------

  /** `ResolveToDirectReference`: a direct reference is its own resolution;
      a symbolic one resolves to whatever its target resolves to. The walk
      is over the in-memory chain only. */
  function ResolveToDirectReference(r: Reference): (d: Reference)
    ensures d.DirectReference?
    ensures r.DirectReference? ==> d == r
    ensures d == Chain(r)[|Chain(r)| - 1]
  {
    if r.DirectReference? then r else ResolveToDirectReference(r.targetRef)
  }

  /** Resolving a symbolic reference is resolving its target. */
  lemma ResolveSymbolic(r: Reference)
    requires r.SymbolicReference?
    ensures ResolveToDirectReference(r) == ResolveToDirectReference(r.targetRef)
  {
  }

  /** The resolution is the only direct reference on the chain. */
  lemma ResolveIsChainEnd(r: Reference)
    ensures forall i :: 0 <= i < |Chain(r)| && Chain(r)[i].DirectReference? ==>
      i == |Chain(r)| - 1 && Chain(r)[i] == ResolveToDirectReference(r)
  {
  }

  /** Resolving twice is resolving once. */
  lemma ResolveIdempotent(r: Reference)
    ensures ResolveToDirectReference(ResolveToDirectReference(r)) == ResolveToDirectReference(r)
  {
  }

  // ---------------------------------------------------------------------
  // Equality
  // ---------------------------------------------------------------------

  /** A C# `object` argument of `Equals(object)`: null, a reference, or an
      object of some other class. */
  datatype Object = NullObject | RefObject(ref: Reference) | OtherObject(description: string)

  /** `obj as Reference`: null unless `obj` is a reference. */
  function AsReference(obj: Object): (r: Option<Reference>)
    ensures r.Some? <==> obj.RefObject?
  {
    if obj.RefObject? then Some(obj.ref) else None
  }

  function OptionDepth(x: Option<Reference>): nat {
    if x.Some? then Depth(x.value) else 0
  }

  /** The static `object.Equals(objA, objB)` on two possibly-null references:
      the same instance (or both null) is equal, one null is unequal, and
      otherwise the virtual `Equals(object)` override of the first decides.
      The operators `==` and `!=` call it, and `Equals(Reference)` calls it
      on the additional equality components. */
  function ObjectEquals(x: Option<Reference>, y: Option<Reference>): (r: bool)
    ensures x.None? && y.None? ==> r
    ensures x.None? != y.None? ==> !r
    ensures x.Some? && y.Some? ==> (r <==> ShapeOf(x.value) == ShapeOf(y.value))
    decreases OptionDepth(x), 2
  {
    if x == y then true
    else if x.None? || y.None? then false
    else EqualsObject(x.value, RefObject(y.value))
  }

  /** `Equals(Reference other)`: false on null, true on the same instance,
      false across classes or names, and otherwise the comparison of the
      additional equality components (the target object of a direct
      reference, the target reference of a symbolic one).

      On a non-null argument the answer is exactly equality of handle-free
      content: the same-instance shortcut never changes it, and the owned
      handles are never compared. */
  function Equals(a: Reference, other: Option<Reference>): (r: bool)
    ensures other.None? ==> !r
    ensures other == Some(a) ==> r
    ensures other.Some? && other.value.Class() != a.Class() ==> !r
    ensures other.Some? && other.value.name != a.name ==> !r
    ensures other.Some? ==> (r <==> ShapeOf(a) == ShapeOf(other.value))
    decreases Depth(a), 0
  {
    match other
    case None => false
    case Some(b) =>
      if a == b then true
      else if a.Class() != b.Class() then false
      else if a.name != b.name then false
      else if a.DirectReference? then a.target == b.target
      else ObjectEquals(Some(a.targetRef), Some(b.targetRef))
  }

  /** `Equals(object obj)`: `Equals(obj as Reference)`. A reference
      argument gets the answer of `Equals(Reference)`, which compares
      handle-free content; anything else is unequal. */
  function EqualsObject(a: Reference, obj: Object): (r: bool)
    ensures !obj.RefObject? ==> !r
    ensures obj == RefObject(a) ==> r
    ensures obj.RefObject? ==> (r <==> Equals(a, Some(obj.ref)))
    ensures obj.RefObject? ==> (r <==> ShapeOf(a) == ShapeOf(obj.ref))
    decreases Depth(a), 1
  {
    Equals(a, AsReference(obj))
  }

  /** `operator ==`. */
  function OpEquality(left: Option<Reference>, right: Option<Reference>): (r: bool)
    ensures left.None? && right.None? ==> r
    ensures left.None? != right.None? ==> !r
    ensures left.Some? ==> (r <==> Equals(left.value, right))
  {
    ObjectEquals(left, right)
  }

  /** `operator !=`. */
  function OpInequality(left: Option<Reference>, right: Option<Reference>): (r: bool)
    ensures r <==> !OpEquality(left, right)
  {
    !ObjectEquals(left, right)
  }

  /** The handle-free content of a reference: what equality compares. */
  datatype Shape =
    | DirectShape(name: string, target: GitObject)
    | SymbolicShape(name: string, targetShape: Shape)

  /** Erases every handle along the chain. */
  function ShapeOf(r: Reference): Shape {
    match r
    case DirectReference(n, _, t) => DirectShape(n, t)
    case SymbolicReference(n, _, t) => SymbolicShape(n, ShapeOf(t))
  }

  /** Two direct references are equal iff their names and target objects
      are; two symbolic ones iff their names are and their targets are
      equal references; a direct and a symbolic reference never are. */
  lemma EqualsByVariant(a: Reference, b: Reference)
    ensures a.DirectReference? && b.DirectReference? ==>
      (Equals(a, Some(b)) <==> a.name == b.name && a.target == b.target)
    ensures a.SymbolicReference? && b.SymbolicReference? ==>
      (Equals(a, Some(b)) <==> a.name == b.name && Equals(a.targetRef, Some(b.targetRef)))
    ensures a.Class() != b.Class() ==> !Equals(a, Some(b)) && !OpEquality(Some(a), Some(b))
  {
  }

  /** `Equals` is an equivalence relation on non-null references. */
  lemma EqualsIsEquivalence(a: Reference, b: Reference, c: Reference)
    ensures Equals(a, Some(a))
    ensures Equals(a, Some(b)) <==> Equals(b, Some(a))
    ensures Equals(a, Some(b)) && Equals(b, Some(c)) ==> Equals(a, Some(c))
  {
  }

  /** `==` is null-safe `Equals`, symmetric, and `!=` is its negation. */
  lemma OperatorsAgreeWithEquals(left: Option<Reference>, right: Option<Reference>)
    ensures OpEquality(left, right) <==>
      (left.None? && right.None?) || (left.Some? && Equals(left.value, right))
    ensures OpEquality(left, right) <==> OpEquality(right, left)
    ensures OpInequality(left, right) <==> !OpEquality(left, right)
  {
  }

  /** Resolution maps equal references to equal direct references. */
  lemma {:induction false} ResolvePreservesEquals(a: Reference, b: Reference)
    requires Equals(a, Some(b))
    ensures Equals(ResolveToDirectReference(a), Some(ResolveToDirectReference(b)))
    decreases a
  {
    if a.SymbolicReference? {
      ResolvePreservesEquals(a.targetRef, b.targetRef);
    }
  }

  // ---------------------------------------------------------------------
  // Hashing
  // ---------------------------------------------------------------------

  /** The hash codes of the parts, which the model does not fix:
      `Type.GetHashCode` of the runtime class, `string.GetHashCode` of the
      name, and `GetHashCode` of a target object. Each is a function, so it
      agrees with equality on its part. */
  datatype HashCodes = HashCodes(
    ofClass: ReferenceClass -> Int32Bits,
    ofName: string -> Int32Bits,
    ofObject: GitObject -> Int32Bits)

  /** The `GetHashCode` formula over handle-free content: the class hash,
      mixed with the name hash and then with the hash of the additional
      equality component (the target object's hash for a direct shape, the
      target shape's own hash for a symbolic one). */
  function ShapeHash(hc: HashCodes, s: Shape): Int32Bits {
    match s
    case DirectShape(n, t) => Mix(Mix(hc.ofClass(DirectClass), hc.ofName(n)), hc.ofObject(t))
    case SymbolicShape(n, t) => Mix(Mix(hc.ofClass(SymbolicClass), hc.ofName(n)), ShapeHash(hc, t))
  }

  /** `GetHashCode`, computed on the reference itself: the hash of the
      additional equality component of a symbolic reference is the target
      reference's own `GetHashCode`. It is the shape formula, so the owned
      handles never reach it. */
  function HashCode(hc: HashCodes, r: Reference): (h: Int32Bits)
    ensures h == ShapeHash(hc, ShapeOf(r))
  {
    var component :=
      if r.DirectReference? then hc.ofObject(r.target) else HashCode(hc, r.targetRef);
    Mix(Mix(hc.ofClass(r.Class()), hc.ofName(r.name)), component)
  }

  /** The hash reads nothing but the handle-free content. */
  lemma SameShapeSameHash(hc: HashCodes, a: Reference, b: Reference)
    requires ShapeOf(a) == ShapeOf(b)
    ensures HashCode(hc, a) == HashCode(hc, b)
  {
  }

  /** Equal references have equal hash codes, whatever the part hashes. */
  lemma EqualReferencesHashEqually(hc: HashCodes, a: Reference, b: Reference)
    requires OpEquality(Some(a), Some(b))
    ensures HashCode(hc, a) == HashCode(hc, b)
  {
  }
}
