/** `Reference.CreateFromPtr` against an abstract reference store.

    The native calls `git_reference_name`, `git_reference_type`,
    `git_reference_resolve` and `git_reference_oid` become reads of one
    record per handle, and `Repository.Lookup` becomes a read of a map from
    object identity to object. The source follows a symbolic handle with no
    cycle or depth guard; the model makes that recursion explicit and
    terminates it only under the hypothesis `EndsWithin` (the chain from the
    handle reaches a non-symbolic record within a given number of steps),
    carried as a ghost bound that cannot influence the result. */
module ReferenceStore {
  import opened Wrappers
  import opened References

  /** What the native store answers for one handle: its name, its type tag,
      the handle `git_reference_resolve` yields (consulted only for a
      symbolic tag) and the object identity `git_reference_oid` yields
      (consulted only for an `Oid` tag). */
  datatype RefRecord = RefRecord(name: string, kind: GitReferenceType, resolved: Handle, oid: ObjectId)

  type Refs = map<Handle, RefRecord>

  /** The object database `Repository.Lookup` reads. */
  datatype Repository = Repository(objects: map<ObjectId, GitObject>)

  /** What escapes `CreateFromPtr` instead of a reference: the
      `NotImplementedException` of an unsupported tag, or a failed object
      lookup. */
  datatype CreateError = NotImplemented(kind: GitReferenceType) | ObjectNotFound(oid: ObjectId)

  /** Following resolved handles from `h` stays inside the store and reaches
      a non-symbolic record after at most `n` steps. */
  ghost predicate EndsWithin(refs: Refs, h: Handle, n: nat)
    decreases n
  {
    && h in refs
    && (refs[h].kind == Symbolic ==> n > 0 && EndsWithin(refs, refs[h].resolved, n - 1))
  }

  /** Some bound exists: the handle's chain is finite and every handle on it
      is in the store (a dangling resolved handle is unbounded too). */
  ghost predicate Bounded(refs: Refs, h: Handle) {
    exists n: nat :: EndsWithin(refs, h, n)
  }

  /** `repo.Lookup(new ObjectId(oid))`, abstracted as a read of the object
      map that fails when the identity is absent. */
  function Lookup(repo: Repository, id: ObjectId): Result<GitObject, CreateError>
  {
    if id in repo.objects then Success(repo.objects[id]) else Failure(ObjectNotFound(id))
  }

  /** `CreateFromPtr(ptr, repo)`: read the name and tag of `h`; a symbolic
      tag resolves the handle and builds the target recursively, keeping the
      outer handle; an `Oid` tag looks the object up; any other tag throws. */
  function CreateFromPtr(refs: Refs, h: Handle, repo: Repository, ghost bound: nat): (r: Result<Reference, CreateError>)
    requires EndsWithin(refs, h, bound)
    ensures r.Success? ==>
      && r.value.name == refs[h].name
      && r.value.Type() == refs[h].kind
      && r.value.handle == h
      && Depth(r.value) <= bound
    ensures r.Success? && r.value.SymbolicReference? ==>
      && refs[h].kind == Symbolic
      && r.value.targetRef.handle == refs[h].resolved
      && refs[h].resolved in refs
      && r.value.targetRef.name == refs[refs[h].resolved].name
    ensures r.Success? && r.value.DirectReference? ==>
      && refs[h].oid in repo.objects
      && r.value.target == repo.objects[refs[h].oid]
    ensures refs[h].kind == Oid ==> (r.Success? <==> refs[h].oid in repo.objects)
    ensures refs[h].kind.OtherType? ==> r == Failure(NotImplemented(refs[h].kind))
    ensures r.Success? ==> Mirrors(refs, repo, h, r.value)
    decreases bound
  {
    var rec := refs[h];
    if rec.kind == Symbolic then
      match CreateFromPtr(refs, rec.resolved, repo, bound - 1)
      case Failure(e) => Failure(e)
      case Success(target) => Success(SymbolicReference(rec.name, h, target))
    else if rec.kind == Oid then
      match Lookup(repo, rec.oid)
      case Failure(e) => Failure(e)
      case Success(obj) => Success(DirectReference(rec.name, h, obj))
    else
      Failure(NotImplemented(rec.kind))
  }

  /** `r` is exactly what the store describes from `h` on: each link has the
      name and handle of its record, symbolic links target what their
      record resolves to, and the direct end targets the looked-up object. */
  ghost predicate Mirrors(refs: Refs, repo: Repository, h: Handle, r: Reference)
    decreases r
  {
    && h in refs
    && r.name == refs[h].name
    && r.handle == h
    && match r
       case DirectReference(_, _, obj) =>
         refs[h].kind == Oid && refs[h].oid in repo.objects && obj == repo.objects[refs[h].oid]
       case SymbolicReference(_, _, t) =>
         refs[h].kind == Symbolic && Mirrors(refs, repo, refs[h].resolved, t)
  }

  /** Construction succeeds with `r` iff `r` mirrors the store: the result
      is fully materialised, and it is the only reference that is. */
  lemma {:induction false} CreateMirrorsStore(refs: Refs, h: Handle, repo: Repository, bound: nat, r: Reference)
    requires EndsWithin(refs, h, bound)
    ensures CreateFromPtr(refs, h, repo, bound) == Success(r) <==> Mirrors(refs, repo, h, r)
    decreases bound
  {
    var rec := refs[h];
    if rec.kind == Symbolic {
      if r.SymbolicReference? {
        CreateMirrorsStore(refs, rec.resolved, repo, bound - 1, r.targetRef);
      }
    }
  }

  /** The non-symbolic record a chain ends at. */
  ghost function ChainEnd(refs: Refs, h: Handle, n: nat): (e: Handle)
    requires EndsWithin(refs, h, n)
    ensures e in refs && refs[e].kind != Symbolic
    decreases n
  {
    if refs[h].kind == Symbolic then ChainEnd(refs, refs[h].resolved, n - 1) else h
  }

  /** Construction is decided by the end of the chain alone: an unsupported
      tag there throws `NotImplemented`, a missing object there fails the
      lookup, and otherwise construction succeeds and the result resolves,
      without further store access, to the direct reference built from that
      end record. */
  lemma {:induction false} CreateDecidedAtChainEnd(refs: Refs, h: Handle, repo: Repository, bound: nat)
    requires EndsWithin(refs, h, bound)
    ensures var rec := refs[ChainEnd(refs, h, bound)];
      rec.kind.OtherType? ==> CreateFromPtr(refs, h, repo, bound) == Failure(NotImplemented(rec.kind))
    ensures var rec := refs[ChainEnd(refs, h, bound)];
      rec.kind == Oid && rec.oid !in repo.objects ==>
        CreateFromPtr(refs, h, repo, bound) == Failure(ObjectNotFound(rec.oid))
    ensures var e := ChainEnd(refs, h, bound); var rec := refs[e];
      rec.kind == Oid && rec.oid in repo.objects ==>
        && CreateFromPtr(refs, h, repo, bound).Success?
        && ResolveToDirectReference(CreateFromPtr(refs, h, repo, bound).value)
           == DirectReference(rec.name, e, repo.objects[rec.oid])
    decreases bound
  {
    if refs[h].kind == Symbolic {
      CreateDecidedAtChainEnd(refs, refs[h].resolved, repo, bound - 1);
    }
  }

  /** A set of symbolic records that only resolve into one another. */
  ghost predicate SymbolicCycle(refs: Refs, s: set<Handle>) {
    forall x :: x in s ==> x in refs && refs[x].kind == Symbolic && refs[x].resolved in s
  }

  lemma {:induction false} NoBoundInCycle(refs: Refs, s: set<Handle>, h: Handle, n: nat)
    requires SymbolicCycle(refs, s) && h in s
    ensures !EndsWithin(refs, h, n)
    decreases n
  {
    if n > 0 {
      NoBoundInCycle(refs, s, refs[h].resolved, n - 1);
    }
  }

  /** A handle on a symbolic cycle has no bound: the source's unguarded
      recursion would not end there, so the model's precondition excludes
      every such handle. */
  lemma CycleIsUnbounded(refs: Refs, s: set<Handle>, h: Handle)
    requires SymbolicCycle(refs, s) && h in s
    ensures !Bounded(refs, h)
  {
    forall n: nat ensures !EndsWithin(refs, h, n) {
      NoBoundInCycle(refs, s, h, n);
    }
  }
}
