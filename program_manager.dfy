/**
 * `circe::gl::ProgramManager` (circe/gl/graphics/program_manager.cpp): the
 * registry of linked shader programs, looked up by name, by index or by
 * handle. The singleton is one object of the class below. Compiling and
 * linking is replaced by its outcome: `None` for a failed link, or the
 * linked program's GL name. A lookup that returns a `Program *` returns the
 * position it points at.
 */
module ProgramManagers {
  import opened Wrappers

  /** `ProgramHandle`: the index of a program in the registry. */
  datatype ProgramHandle = ProgramHandle(programId: nat)

  class ProgramManager {
    /** `programs_`, each program given by its GL name. */
    var programs: seq<nat>
    var nameToIndex: map<string, nat>
    var indexToName: map<nat, string>

    /**
     * The two maps agree with each other and with the program list: every
     * registered name leads to a program and back to itself, and every
     * registered index is a program's.
     */
    ghost predicate Consistent()
      reads this
    {
      && (forall n :: n in nameToIndex ==> nameToIndex[n] < |programs| && nameToIndex[n] in indexToName)
      && (forall n :: n in nameToIndex ==> indexToName[nameToIndex[n]] == n)
      && (forall k :: k in indexToName ==> k < |programs| && indexToName[k] in nameToIndex)
    }

    constructor ()
      ensures Consistent() && programs == [] && nameToIndex == map[] && indexToName == map[]
    {
      programs, nameToIndex, indexToName := [], map[], map[];
    }

    /**
     * `push`: a failed link is an `Error` and changes nothing; otherwise the
     * program is appended, its index returned, and both maps point the name
     * and the index at each other. (The free-index stack is never filled, so
     * the append branch is the only one taken.)
     */
    method Push(name: string, linked: Option<nat>) returns (r: HeResult<ProgramHandle>)
      requires Consistent()
      modifies this
      ensures Consistent()
      ensures linked.None? ==>
        && r == Err(Error) && programs == old(programs)
        && nameToIndex == old(nameToIndex) && indexToName == old(indexToName)
      ensures linked.Some? ==>
        && r == Ok(ProgramHandle(|old(programs)|))
        && programs == old(programs) + [linked.value]
        && nameToIndex == old(nameToIndex)[name := |old(programs)|]
        && indexToName == old(indexToName)[|old(programs)| := name]
      ensures linked.Some? ==> ProgramIndex(name) == Ok(|old(programs)|) && ProgramName(|old(programs)|) == Ok(name)
    {
      if linked.None? {
        return Err(Error);
      }
      var id := |programs|;
      programs := programs + [linked.value];
      nameToIndex := nameToIndex[name := id];
      indexToName := indexToName[id := name];
      r := Ok(ProgramHandle(id));
    }

    /** `programIndex`: the index registered for a name, `OutOfBounds` for an unknown one. */
    function ProgramIndex(name: string): (r: HeResult<nat>)
      reads this
      ensures r.Ok? <==> name in nameToIndex
      ensures r.Err? ==> r.status == OutOfBounds
      ensures r.Ok? && Consistent() ==> r.value < |programs| && r.value in indexToName && indexToName[r.value] == name
    {
      if name in nameToIndex then Ok(nameToIndex[name]) else Err(OutOfBounds)
    }

    /** `programName`: the name registered for an index, `OutOfBounds` for an unknown one. */
    function ProgramName(index: nat): (r: HeResult<string>)
      reads this
      ensures r.Ok? <==> index in indexToName
      ensures r.Err? ==> r.status == OutOfBounds
      ensures r.Ok? && Consistent() ==> index < |programs| && r.value in nameToIndex
    {
      if index in indexToName then Ok(indexToName[index]) else Err(OutOfBounds)
    }

    /**
     * `program(name)`: the slot the registered index points at, with no check
     * that it is still a program's.
     */
    function ProgramByName(name: string): (r: HeResult<nat>)
      reads this
      ensures r.Ok? <==> name in nameToIndex
      ensures r.Ok? ==> ProgramIndex(name) == Ok(r.value)
      ensures r.Ok? && Consistent() ==> r.value < |programs|
    {
      if name in nameToIndex then Ok(nameToIndex[name]) else Err(OutOfBounds)
    }

    /** `program(index)`: `OutOfBounds` exactly when the index is not below the number of programs. */
    function ProgramAt(index: nat): (r: HeResult<nat>)
      reads this
      ensures r.Err? <==> index >= |programs|
      ensures r.Err? ==> r.status == OutOfBounds
      ensures r.Ok? ==> r.value == index
    {
      if index >= |programs| then Err(OutOfBounds) else Ok(index)
    }

    /** `program(handle)`: the same bounds check on the handle's index. */
    function ProgramOf(handle: ProgramHandle): (r: HeResult<nat>)
      reads this
      ensures r == ProgramAt(handle.programId)
      ensures r.Ok? ==> r.value == handle.programId
    {
      if handle.programId >= |programs| then Err(OutOfBounds) else Ok(handle.programId)
    }

    /** `cleanup` as written: the programs go, both name maps stay. */
    method CleanupAsWritten()
      modifies this`programs
      ensures programs == []
    {
      programs := [];
    }

    /** `cleanup` that forgets the names with the programs, keeping the registry consistent. */
    method Cleanup()
      modifies this
      ensures Consistent() && programs == [] && nameToIndex == map[] && indexToName == map[]
    {
      programs, nameToIndex, indexToName := [], map[], map[];
    }
  }

  /** In a consistent registry, a name's index leads back to the name. */
  lemma NameIndexRoundTrip(manager: ProgramManager, name: string)
    requires manager.Consistent() && manager.ProgramIndex(name).Ok?
    ensures manager.ProgramName(manager.ProgramIndex(name).value) == Ok(name)
  {
  }

  /**
   * After the written `cleanup`, a name pushed before it is still found, and
   * `program(name)` points past the end of the empty program list.
   */
  method StaleNameAfterCleanup() returns (manager: ProgramManager, lookup: HeResult<nat>)
    ensures lookup == Ok(0) && manager.programs == []
    ensures manager.ProgramIndex("basic") == Ok(0)
    ensures !manager.Consistent()
  {
    manager := new ProgramManager();
    var pushed := manager.Push("basic", Some(3));
    manager.CleanupAsWritten();
    lookup := manager.ProgramByName("basic");
  }

  /** With the corrected `cleanup`, a name pushed before it is unknown afterwards. */
  method NoNameAfterCleanup() returns (manager: ProgramManager, lookup: HeResult<nat>)
    ensures lookup == Err(OutOfBounds) && manager.Consistent()
  {
    manager := new ProgramManager();
    var pushed := manager.Push("basic", Some(3));
    manager.Cleanup();
    lookup := manager.ProgramByName("basic");
  }
}
