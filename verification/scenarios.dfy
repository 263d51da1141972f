/** Concrete stores exercising `CreateFromPtr`, resolution and equality:
    `HEAD` pointing symbolically at `refs/heads/main`, a second handle to the
    same branch, a handle with an unsupported tag and a direct reference to
    an object missing from the database. */
module Scenarios {
  import opened Wrappers
  import opened References
  import opened ReferenceStore

  const DeadBeef: ObjectId := [0xde, 0xad, 0xbe, 0xef]
  const Missing: ObjectId := [0x00]
  const MainCommit := GitObject(DeadBeef, Commit)

  const Head := Handle(1)
  const Main := Handle(2)
  const MainAgain := Handle(3)
  const Broken := Handle(4)
  const Dangling := Handle(5)

  const Store: Refs := map[
    Head := RefRecord("HEAD", Symbolic, Main, []),
    Main := RefRecord("refs/heads/main", Oid, Handle(0), DeadBeef),
    MainAgain := RefRecord("refs/heads/main", Oid, Handle(0), DeadBeef),
    Broken := RefRecord("refs/heads/broken", OtherType(0), Handle(0), []),
    Dangling := RefRecord("refs/heads/gone", Oid, Handle(0), Missing)
  ]

  const Repo := Repository(map[DeadBeef := MainCommit])

  /** A direct reference resolves to itself and equals a reference built
      from another handle to the same name and object, though the two values
      own different handles. */
  lemma DirectScenario()
    ensures CreateFromPtr(Store, Main, Repo, 0) == Success(DirectReference("refs/heads/main", Main, MainCommit))
    ensures var main := CreateFromPtr(Store, Main, Repo, 0).value;
      var again := CreateFromPtr(Store, MainAgain, Repo, 0).value;
      && ResolveToDirectReference(main) == main
      && main != again
      && OpEquality(Some(main), Some(again))
  {
  }

  /** `HEAD` is symbolic, keeps its own handle, and resolves to the direct
      reference on `refs/heads/main`. */
  lemma HeadScenario()
    ensures EndsWithin(Store, Head, 1)
    ensures var head := CreateFromPtr(Store, Head, Repo, 1);
      && head == Success(SymbolicReference("HEAD", Head, DirectReference("refs/heads/main", Main, MainCommit)))
      && ResolveToDirectReference(head.value) == DirectReference("refs/heads/main", Main, MainCommit)
  {
  }

  /** An unsupported tag throws and builds nothing; so does a direct
      reference to an object the database lacks. */
  lemma FailureScenarios()
    ensures CreateFromPtr(Store, Broken, Repo, 0) == Failure(NotImplemented(OtherType(0)))
    ensures CreateFromPtr(Store, Dangling, Repo, 0) == Failure(ObjectNotFound(Missing))
  {
  }

  /** A symbolic reference resolving to itself has no chain bound, so no
      call of the model's `CreateFromPtr` can start from it. */
  lemma SelfReferenceScenario()
    ensures !Bounded(map[Head := RefRecord("HEAD", Symbolic, Head, [])], Head)
  {
    CycleIsUnbounded(map[Head := RefRecord("HEAD", Symbolic, Head, [])], {Head}, Head);
  }
}
