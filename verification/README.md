# LibGit2Sharp `Reference` — a Dafny model

This project models the reference value type of LibGit2Sharp (`Reference`,
with its subclasses `DirectReference` and `SymbolicReference`). A reference
is a named pointer. A direct reference targets an object of the object
database. A symbolic reference targets another reference, and that reference
is built eagerly when the outer one is.

The model covers four behaviours:

- **Construction** (`CreateFromPtr`) works against an abstract reference
  store. The store is a map from native handle to the record the native calls
  would report: name, type tag, the handle `git_reference_resolve` yields, and
  the object id `git_reference_oid` yields. The object database
  (`Repository.Lookup`) is a map from object id to object. The source follows
  symbolic handles recursively with no cycle or depth guard. The model makes
  that recursion explicit and requires a ghost bound on the chain length
  (`EndsWithin`). The ghost bound cannot influence the result. A lemma shows
  that a handle on a symbolic cycle has no such bound.
- **Resolution** (`ResolveToDirectReference`) walks the in-memory chain down
  to its direct reference.
- **Equality** covers `Equals(Reference)`, `Equals(object)` and the static
  `object.Equals` that `==`, `!=` and the component comparison call. Each
  reference carries the handle it owns. Dafny's own `==` on references
  therefore plays the part of C#'s `ReferenceEquals` (the same instance).
  The source's `Equals` is a separate function that never compares handles.
  Equality is specified against `ShapeOf`, which erases every handle along
  the chain. `Equals` holds exactly when the shapes are equal.
- **Hashing** (`GetHashCode`) follows the source:
  `((h(class) * 397) ^ h(name)) * 397 ^ h(component)`. It wraps to 32 bits
  explicitly. A C# `int` is represented by its two's-complement bit pattern,
  a `bv32`, whose arithmetic wraps modulo 2^32. The
  part hashes (`Type.GetHashCode`, `string.GetHashCode`, the target's
  `GetHashCode`) are parameters, not fixed values.

Modules: `Wrappers` (Option, Result), `Hashing` (wrapping 32-bit mixing),
`References` (the datatype, resolution, equality, hash), `ReferenceStore`
(construction), `Scenarios` (concrete stores).

Three points about the source shape the model:

- The source follows symbolic handles recursively with no cycle or depth
  guard. The model keeps that recursion and states a chain bound as a
  precondition instead of adding a guard. The bound excludes cycles.
- An unsupported tag makes the source throw `NotImplementedException`. The
  model returns the failure `NotImplemented(tag)`.
- How many levels `git_reference_resolve` follows is left open. The store's
  `resolved` handle may be one level or several levels down.

## Model

| member | source | states |
|---|---|---|
| `References.ResolveToDirectReference` | LibGit2Sharp/Reference.cs:113-122 | The result is always a direct reference. A direct reference resolves to itself. The result is the last link of the reference's chain. |
| `References.ResolveSymbolic` | LibGit2Sharp/Reference.cs:118-121 | Resolving a symbolic reference is resolving its target. |
| `References.ResolveIsChainEnd` | LibGit2Sharp/Reference.cs:118-122 | The resolution is the only direct reference on the reference's chain. |
| `References.ResolveIdempotent` | LibGit2Sharp/Reference.cs:118-122 | Resolving the resolution again returns it unchanged. |
| `References.ObjectEquals` | LibGit2Sharp/Reference.cs:99-102 | The static `object.Equals` on two possibly-null references: two nulls are equal, and exactly one null is unequal. Two non-null references are equal iff their handle-free content is. |
| `References.Equals` | LibGit2Sharp/Reference.cs:59-84 | False on null and true on the same instance. False when the classes differ or the names differ. On a non-null argument, true iff the handle-free content is equal, in both directions. So the same-instance shortcut never changes the answer, and owned handles are never compared. |
| `References.EqualsObject` | LibGit2Sharp/Reference.cs:54-57 | `Equals(object)` is false for null and for non-references. A reference argument gets the `Equals(Reference)` answer, which is equality of handle-free content. |
| `References.OpEquality` | LibGit2Sharp/Reference.cs:99-102 | `==`: true for two nulls and false for exactly one null. When the left side is non-null, it agrees with `Equals`. |
| `References.OpInequality` | LibGit2Sharp/Reference.cs:104-107 | `!=` is the exact negation of `==`. |
| `References.EqualsByVariant` | LibGit2Sharp/Reference.cs:71-81 | Two direct references are equal iff their names and target objects are. Two symbolic ones are equal iff their names are and their targets are equal references. A direct and a symbolic reference are never equal, under `Equals` or under `==`. |
| `References.EqualsIsEquivalence` | LibGit2Sharp/Reference.cs:59-82 | `Equals` is reflexive, symmetric and transitive. |
| `References.OperatorsAgreeWithEquals` | LibGit2Sharp/Reference.cs:99-107 | `==` is exactly null-safe `Equals` and is symmetric. `!=` is its negation. |
| `References.ResolvePreservesEquals` | LibGit2Sharp/Reference.cs:113-122 | Equal references resolve to equal direct references. |
| `References.HashCode` | LibGit2Sharp/Reference.cs:86-97 | The hash is the `((h(class) * 397) ^ h(name)) * 397 ^ h(component)` formula in wrapping `bv32` arithmetic, taken over the handle-free shape (`ShapeHash`), so owned handles never reach it. The component of a symbolic reference is its target's own hash. The part hashes are parameters. Consistency with `==` is `EqualReferencesHashEqually`. |
| `References.SameShapeSameHash` | LibGit2Sharp/Reference.cs:86-97 | The 32-bit hash depends only on the handle-free content, whatever the part hashes are. |
| `References.EqualReferencesHashEqually` | LibGit2Sharp/Reference.cs:86-97 | References that are `==` have equal hash codes, for every choice of class, name and object hashes. |
| `ReferenceStore.CreateFromPtr` | LibGit2Sharp/Reference.cs:24-43 | On success, the name and type are the handle's, and the outer handle is the one kept. A successful result mirrors the store link by link down the whole chain, so a symbolic result targets the reference built from the resolved handle. A direct result targets the looked-up object, and succeeds iff that object exists. Any other tag fails with `NotImplemented` and builds nothing. The result's depth stays within the chain bound. |
| `ReferenceStore.CreateMirrorsStore` | LibGit2Sharp/Reference.cs:24-43 | Construction returns `r` iff `r` mirrors the store link by link, in both directions. So the result is fully materialised and unique. |
| `ReferenceStore.CreateDecidedAtChainEnd` | LibGit2Sharp/Reference.cs:28-42 | The end of the chain alone decides the outcome. An unsupported tag there gives `NotImplemented`. A missing object there gives `ObjectNotFound`. Otherwise construction succeeds, and the result resolves to the direct reference built from the end record. |
| `ReferenceStore.CycleIsUnbounded` | LibGit2Sharp/Reference.cs:28-34 | A handle on a cycle of symbolic records has no chain bound, because the source's recursion has no guard. |
| `Scenarios.DirectScenario` | LibGit2Sharp/Reference.cs:35-41 | A direct `refs/heads/main` resolves to itself. It is `==` to a reference built from another handle with the same name and object, although the two values differ. |
| `Scenarios.HeadScenario` | LibGit2Sharp/Reference.cs:28-34 | Symbolic `HEAD` keeps its own handle, targets `refs/heads/main`, and resolves to it. |
| `Scenarios.FailureScenarios` | LibGit2Sharp/Reference.cs:35-42 | An unsupported tag and a missing object each fail and build nothing. |
| `Scenarios.SelfReferenceScenario` | LibGit2Sharp/Reference.cs:28-34 | A HEAD record that resolves to itself has no chain bound, so the source's unguarded recursion could not end and no model construction starts from it. |

## Left out

- `Delete`: it only passes the owned handle to `git_reference_delete` and calls `Ensure.Success`, both native or not part of this model.
- Native calls and `Marshal.PtrToStructure`: replaced by reads of the abstract store record. Handle validity, lifetime and release are not modelled, because the source has no such logic.
- The status code of `git_reference_resolve`: the source discards it. The model instead requires that the resolved handle is in the store, as part of `EndsWithin`.
- `Repository.Lookup` is not part of this model. It is abstracted as a read of the object map (`ReferenceStore.Lookup`). A missing object is modelled as the failure `ObjectNotFound`. If the real lookup returns null instead, the source would build a direct reference with a null target, which the model does not represent.
- `GitObject.Equals` and `GetHashCode` are not part of this model. Object equality is value equality of `GitObject`, and the object hash is a parameter.
- `ProvideAdditionalEqualityComponent` overrides are not part of this model. The component is taken to be the target: the object for a direct reference, the target reference for a symbolic one.
- Concrete `string.GetHashCode` and `Type.GetHashCode` values are parameters (`HashCodes`), because they are runtime-specific.
- `References.Equals`: C#'s same-instance test is modelled as value identity. Two distinct instances with identical contents therefore take the shortcut in the model but not in C#. The shape clause of `Equals`'s contract shows that the answer is the same either way.
- `ReferenceStore.CreateFromPtr`: modelled only on handles whose chain reaches a non-symbolic record within the ghost bound. On a cyclic store the source recurses without end, and that behaviour is excluded by the precondition rather than modelled.
