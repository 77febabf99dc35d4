/**
 * `MemoryStorage` (src/infinity_mcp_server/storage.py): project activation and
 * the create/read/list/update/delete operations, each of which checks
 * activation, validates, reads the whole memories file, applies one change and
 * writes the whole file back with one atomic replace.
 *
 * The working directory's `.infinity` folder is a `ProjectDirectory` object,
 * shared by every `MemoryStorage` opened on it. The clock and `uuid.uuid4()`
 * are parameters (`now`, `freshId`), and so is the set of operating-system
 * calls that fail during an operation (`failing`).
 */
module Storage {
  import opened Wrappers
  import opened Models
  import opened Records
  import Text

  /** The context text of each `StorageError` the store raises. */
  const CannotCreateProjectDirectory: string := "Cannot create project directory"
  const CannotReadMemoriesFile: string := "Cannot read memories file"
  const CannotWriteMemoriesFile: string := "Cannot write memories file"

  /** The operating-system calls an operation makes, any of which may fail. */
  datatype IoStep =
    | MakeInfinityDir   // mkdir of `.infinity`
    | IdFileRead        // read_text of `project_id`
    | IdFileWrite       // write_text of `project_id`
    | MemoriesRead      // open and parse `memories.json`
    | MemoriesWrite     // write the temporary file and rename it over `memories.json`

  /** The content of `memories.json`: `{"project_id": ..., "memories": [...]}`. */
  datatype Collection = Collection(projectId: string, memories: seq<Memory>)

  /** `memories.json` is missing, is not a readable collection, or holds one. */
  datatype FileState = Absent | Malformed | Present(collection: Collection)

  /** The store's invariant on the memories file, when it holds a collection. */
  ghost predicate WellFormedFile(f: FileState)
  {
    f.Present? ==> WellFormed(f.collection.memories)
  }

  /**
   * The input checks of `store_memory`, in the code's order: the title must be
   * neither None nor empty, then the type must be allowed, then the content
   * must not be None (an empty content is accepted).
   */
  function ValidateNewMemory(title: Option<string>, memoryType: string, content: Option<string>): (r: Outcome<MemoryError>)
    ensures r.Pass? <==>
      title.Some? && title.value != "" && memoryType in AllowedMemoryTypes && content.Some?
    ensures (title.None? || title == Some("")) ==> r == Fail(MissingRequiredFieldError("title"))
    ensures title.Some? && title.value != "" && memoryType !in AllowedMemoryTypes ==>
      r == Fail(InvalidMemoryTypeError(memoryType))
    ensures title.Some? && title.value != "" && memoryType in AllowedMemoryTypes && content.None? ==>
      r == Fail(MissingRequiredFieldError("content"))
  {
    var titleCheck := ValidateRequiredField(title, "title");
    if titleCheck.Fail? then titleCheck
    else
      var typeCheck := ValidateMemoryType(memoryType);
      if typeCheck.Fail? then typeCheck
      else if content.None? then ValidateRequiredField(content, "content")
      else Pass
  }

  /** The id activation settles on: the stripped id file if there is one, else the fresh id. */
  function ResolveProjectId(idFile: Option<string>, freshId: string): (id: string)
    ensures idFile.None? ==> id == freshId
    ensures idFile.Some? ==> Text.IsTrimmed(id) && exists a: nat :: Text.IsMiddleOf(id, idFile.value, a)
  {
    if idFile.Some? then
      Text.StripIsMiddle(idFile.value);
      Text.Strip(idFile.value)
    else
      freshId
  }

  /** The id file once activation has succeeded: unchanged if it existed, else the fresh id. */
  function IdFileAfterActivation(idFile: Option<string>, freshId: string): string
  {
    if idFile.Some? then idFile.value else freshId
  }

  /**
   * Activation is idempotent: activating again, from any store on the same
   * directory and with any fresh id, settles on the id the first activation
   * returned.
   */
  lemma ReactivationReturnsSameId(idFile: Option<string>, freshId: string, nextFreshId: string)
    requires Text.IsUuidText(freshId)
    ensures ResolveProjectId(Some(IdFileAfterActivation(idFile, freshId)), nextFreshId)
         == ResolveProjectId(idFile, freshId)
  {
    if idFile.None? {
      Text.UuidTextIsTrimmed(freshId);
    }
  }

  /** The `.infinity` folder of a working directory and the two files in it. */
  class ProjectDirectory {
    var hasInfinityDir: bool
    var idFile: Option<string>
    var memFile: FileState

    /** The files live inside the folder. */
    ghost predicate Valid()
      reads this
    {
      !hasInfinityDir ==> idFile.None? && memFile.Absent?
    }

    /** A working directory that has never been activated. */
    constructor Empty()
      ensures Valid()
      ensures !hasInfinityDir && idFile.None? && memFile.Absent?
    {
      hasInfinityDir := false;
      idFile := None;
      memFile := Absent;
    }
  }

  class MemoryStorage {
    const dir: ProjectDirectory
    var projectId: Option<string>

    /** `__init__`: a store on a working directory, not yet activated. */
    constructor (dir: ProjectDirectory)
      ensures this.dir == dir && projectId.None?
    {
      this.dir := dir;
      projectId := None;
    }

    /** Whether the write of the memories file goes through. */
    predicate CanWrite(failing: set<IoStep>)
      reads this, dir
    {
      dir.hasInfinityDir && MemoriesWrite !in failing
    }

    /**
     * `activate_project`. The project id is the stripped content of the id
     * file if there is one, otherwise the fresh id, which is then written to
     * it. An absent memories file is created empty; an existing one, and an
     * existing id file, are never rewritten. As in the code, the in-memory
     * id is assigned before the id file and the memories file are written, so
     * a failure of either write leaves this store activated.
     */
    method ActivateProject(freshId: string, failing: set<IoStep>) returns (r: Result<string, MemoryError>)
      requires dir.Valid()
      requires Text.IsUuidText(freshId)
      modifies this, dir
      ensures dir.Valid() && dir.hasInfinityDir == (old(dir.hasInfinityDir) || MakeInfinityDir !in failing)
      ensures old(dir.idFile).Some? ==> dir.idFile == old(dir.idFile)
      ensures old(dir.memFile) != Absent ==> dir.memFile == old(dir.memFile)
      ensures r.Err? <==>
        || (!old(dir.hasInfinityDir) && MakeInfinityDir in failing)
        || (old(dir.idFile).Some? && IdFileRead in failing)
        || (old(dir.idFile).None? && IdFileWrite in failing)
        || (old(dir.memFile).Absent? && MemoriesWrite in failing)
      ensures r.Err? ==> r.error.StorageError? && dir.memFile == old(dir.memFile)
      ensures r.Err? ==>
        if (!old(dir.hasInfinityDir) && MakeInfinityDir in failing) || (old(dir.idFile).Some? && IdFileRead in failing)
        then projectId == old(projectId) && dir.idFile == old(dir.idFile)
        else
          && projectId == Some(ResolveProjectId(old(dir.idFile), freshId))
          && dir.idFile == (if old(dir.idFile).None? && IdFileWrite in failing then None
                            else Some(IdFileAfterActivation(old(dir.idFile), freshId)))
      ensures r.Ok? ==>
        && r.value == ResolveProjectId(old(dir.idFile), freshId)
        && projectId == Some(r.value)
        && dir.idFile == Some(IdFileAfterActivation(old(dir.idFile), freshId))
        && (old(dir.memFile).Absent? ==> dir.memFile == Present(Collection(r.value, [])))
    {
      if !dir.hasInfinityDir {
        if MakeInfinityDir in failing {
          return Err(StorageError(CannotCreateProjectDirectory));
        }
        dir.hasInfinityDir := true;
      }
      if dir.idFile.Some? {
        if IdFileRead in failing {
          return Err(StorageError(CannotCreateProjectDirectory));
        }
        projectId := Some(Text.Strip(dir.idFile.value));
      } else {
        projectId := Some(freshId);
        if IdFileWrite in failing {
          return Err(StorageError(CannotCreateProjectDirectory));
        }
        dir.idFile := Some(freshId);
      }
      if dir.memFile.Absent? {
        var written := WriteMemoriesFile(Collection(projectId.value, []), failing);
        if written.Fail? {
          return Err(written.error);
        }
      }
      r := Ok(projectId.value);
    }

    /** `_ensure_activated`: fails with `project_not_activated` exactly when there is no project id. */
    function EnsureActivated(): (r: Outcome<MemoryError>)
      reads this
      ensures r.Fail? <==> projectId.None?
      ensures r.Fail? ==> r.error == ProjectNotActivatedError
    {
      if projectId.None? then Fail(ProjectNotActivatedError) else Pass
    }

    /**
     * `_read_memories_file`: a missing file reads as an empty collection under
     * the active project id; an unreadable or malformed one is a storage error.
     */
    function ReadMemoriesFile(failing: set<IoStep>): (r: Result<Collection, MemoryError>)
      reads this, dir
      requires projectId.Some?
      ensures r.Err? <==> dir.memFile.Malformed? || (dir.memFile.Present? && MemoriesRead in failing)
      ensures r.Err? ==> r.error == StorageError(CannotReadMemoriesFile)
      ensures r.Ok? && dir.memFile.Absent? ==> r.value == Collection(projectId.value, [])
      ensures r.Ok? && dir.memFile.Present? ==> r.value == dir.memFile.collection
    {
      match dir.memFile
      case Absent => Ok(Collection(projectId.value, []))
      case Malformed => Err(StorageError(CannotReadMemoriesFile))
      case Present(c) => if MemoriesRead in failing then Err(StorageError(CannotReadMemoriesFile)) else Ok(c)
    }

    /**
     * `_write_memories_file`: the temporary-file-and-rename write. Either the
     * file is replaced as a whole by the new collection, or it is left exactly
     * as it was and the write reports a storage error.
     */
    method WriteMemoriesFile(data: Collection, failing: set<IoStep>) returns (r: Outcome<MemoryError>)
      requires dir.Valid()
      modifies dir`memFile
      ensures dir.Valid()
      ensures r.Pass? <==> CanWrite(failing)
      ensures r.Pass? ==> dir.memFile == Present(data)
      ensures r.Fail? ==> r.error == StorageError(CannotWriteMemoriesFile) && dir.memFile == old(dir.memFile)
    {
      if !dir.hasInfinityDir || MemoriesWrite in failing {
        return Fail(StorageError(CannotWriteMemoriesFile));
      }
      dir.memFile := Present(data);
      r := Pass;
    }

    /**
     * `store_memory`: after the activation check and the input checks, appends
     * one record with the fresh id, the given fields, `created_at = now` and no
     * `updated_at`, and returns its id. Any failure leaves the file unchanged.
     */
    method StoreMemory(title: Option<string>, memoryType: string, content: Option<string>,
                       freshId: string, now: string, failing: set<IoStep>)
      returns (r: Result<string, MemoryError>)
      requires dir.Valid()
      requires dir.memFile.Present? ==> freshId !in Ids(dir.memFile.collection.memories)
      modifies dir`memFile
      ensures dir.Valid()
      ensures WellFormedFile(old(dir.memFile)) ==> WellFormedFile(dir.memFile)
      ensures r.Err? ==> dir.memFile == old(dir.memFile)
      ensures projectId.None? ==> r == Err(ProjectNotActivatedError)
      ensures projectId.Some? && ValidateNewMemory(title, memoryType, content).Fail? ==>
        r == Err(ValidateNewMemory(title, memoryType, content).error)
      ensures projectId.Some? && ValidateNewMemory(title, memoryType, content).Pass? ==>
        match old(ReadMemoriesFile(failing))
        case Err(e) => r == Err(e)
        case Ok(c) =>
          && (r.Ok? <==> CanWrite(failing))
          && (r.Err? ==> r.error == StorageError(CannotWriteMemoriesFile))
          && (r.Ok? ==>
                && r.value == freshId
                && dir.memFile == Present(Collection(c.projectId,
                     c.memories + [Memory(freshId, title.value, memoryType, content.value, now, None)])))
    {
      var activated := EnsureActivated();
      if activated.Fail? {
        return Err(activated.error);
      }
      var valid := ValidateNewMemory(title, memoryType, content);
      if valid.Fail? {
        return Err(valid.error);
      }
      var memory := Memory(freshId, title.value, memoryType, content.value, now, None);
      var data := ReadMemoriesFile(failing);
      if data.Err? {
        return Err(data.error);
      }
      var c := data.value;
      if dir.memFile.Absent? {
        assert c.memories == [];
      }
      if WellFormed(c.memories) {
        AppendPreservesWellFormed(c.memories, memory);
      }
      var written := WriteMemoriesFile(Collection(c.projectId, c.memories + [memory]), failing);
      if written.Fail? {
        return Err(written.error);
      }
      r := Ok(freshId);
    }

    /**
     * `get_memory`: scans the collection in order and returns the first record
     * with the id (rebuilt from its dictionary form), or `memory_not_found`.
     */
    method GetMemory(memoryId: string, failing: set<IoStep>) returns (r: Result<Memory, MemoryError>)
      ensures projectId.None? ==> r == Err(ProjectNotActivatedError)
      ensures projectId.Some? && ReadMemoriesFile(failing).Err? ==> r == Err(ReadMemoriesFile(failing).error)
      ensures projectId.Some? && ReadMemoriesFile(failing).Ok? ==>
        r == Lookup(ReadMemoriesFile(failing).value.memories, memoryId)
    {
      var activated := EnsureActivated();
      if activated.Fail? {
        return Err(activated.error);
      }
      var data := ReadMemoriesFile(failing);
      if data.Err? {
        return Err(data.error);
      }
      var ms := data.value.memories;
      var i := 0;
      while i < |ms|
        invariant 0 <= i <= |ms|
        invariant forall j :: 0 <= j < i ==> ms[j].id != memoryId
      {
        if ms[i].id == memoryId {
          MemoryDictRoundTrip(ms[i]);
          return Ok(MemoryFromDict(MemoryToDict(ms[i])).value);
        }
        i := i + 1;
      }
      return Err(MemoryNotFoundError(memoryId));
    }

    /**
     * `list_memories`: the `{id, title, type}` of every record whose type
     * equals the filter (of every record when there is none), in collection
     * order; no match gives an empty list.
     */
    method ListMemories(filter: Option<string>, failing: set<IoStep>) returns (r: Result<seq<MemoryMetadata>, MemoryError>)
      ensures projectId.None? ==> r == Err(ProjectNotActivatedError)
      ensures projectId.Some? && ReadMemoriesFile(failing).Err? ==> r == Err(ReadMemoriesFile(failing).error)
      ensures projectId.Some? && ReadMemoriesFile(failing).Ok? ==>
        r == Ok(Listing(ReadMemoriesFile(failing).value.memories, filter))
    {
      var activated := EnsureActivated();
      if activated.Fail? {
        return Err(activated.error);
      }
      var data := ReadMemoriesFile(failing);
      if data.Err? {
        return Err(data.error);
      }
      var ms := data.value.memories;
      var memories: seq<MemoryMetadata> := [];
      for i := 0 to |ms|
        invariant memories == Listing(ms[..i], filter)
      {
        assert ms[..i + 1] == ms[..i] + [ms[i]];
        ListingAppend(ms[..i], [ms[i]], filter);
        if filter.Some? && ms[i].memoryType != filter.value {
          continue;
        }
        memories := memories + [Metadata(ms[i])];
      }
      assert ms[..|ms|] == ms;
      return Ok(memories);
    }

    /**
     * `update_memory`: replaces the content and sets `updated_at` of the first
     * record with the id, and writes the collection back; `memory_not_found`
     * and no write when there is none.
     */
    method UpdateMemory(memoryId: string, content: string, now: string, failing: set<IoStep>)
      returns (r: Outcome<MemoryError>)
      requires dir.Valid()
      modifies dir`memFile
      ensures dir.Valid()
      ensures WellFormedFile(old(dir.memFile)) ==> WellFormedFile(dir.memFile)
      ensures r.Fail? ==> dir.memFile == old(dir.memFile)
      ensures projectId.None? ==> r == Fail(ProjectNotActivatedError)
      ensures projectId.Some? ==>
        match old(ReadMemoriesFile(failing))
        case Err(e) => r == Fail(e)
        case Ok(c) =>
          if memoryId !in Ids(c.memories) then r == Fail(MemoryNotFoundError(memoryId))
          else
            && (r.Pass? <==> CanWrite(failing))
            && (r.Fail? ==> r.error == StorageError(CannotWriteMemoriesFile))
            && (r.Pass? ==>
                  dir.memFile == Present(Collection(c.projectId, UpdateContent(c.memories, memoryId, content, now))))
    {
      var activated := EnsureActivated();
      if activated.Fail? {
        return Fail(activated.error);
      }
      var data := ReadMemoriesFile(failing);
      if data.Err? {
        return Fail(data.error);
      }
      var c := data.value;
      var ms := c.memories;
      var found := false;
      var i := 0;
      while i < |ms|
        invariant 0 <= i <= |ms|
        invariant ms == c.memories
        invariant forall j :: 0 <= j < i ==> ms[j].id != memoryId
      {
        if ms[i].id == memoryId {
          ms := ms[i := ms[i].(content := content, updatedAt := Some(now))];
          found := true;
          break;
        }
        i := i + 1;
      }
      if !found {
        return Fail(MemoryNotFoundError(memoryId));
      }
      assert ms == UpdateContent(c.memories, memoryId, content, now);
      if WellFormed(c.memories) {
        UpdatePreservesWellFormed(c.memories, memoryId, content, now);
      }
      r := WriteMemoriesFile(Collection(c.projectId, ms), failing);
    }

    /**
     * `delete_memory`: keeps the records whose id differs, in order; when that
     * removes nothing it is `memory_not_found` and no write.
     */
    method DeleteMemory(memoryId: string, failing: set<IoStep>) returns (r: Outcome<MemoryError>)
      requires dir.Valid()
      modifies dir`memFile
      ensures dir.Valid()
      ensures WellFormedFile(old(dir.memFile)) ==> WellFormedFile(dir.memFile)
      ensures r.Fail? ==> dir.memFile == old(dir.memFile)
      ensures projectId.None? ==> r == Fail(ProjectNotActivatedError)
      ensures projectId.Some? ==>
        match old(ReadMemoriesFile(failing))
        case Err(e) => r == Fail(e)
        case Ok(c) =>
          if memoryId !in Ids(c.memories) then r == Fail(MemoryNotFoundError(memoryId))
          else
            && (r.Pass? <==> CanWrite(failing))
            && (r.Fail? ==> r.error == StorageError(CannotWriteMemoriesFile))
            && (r.Pass? ==> dir.memFile == Present(Collection(c.projectId, WithoutId(c.memories, memoryId))))
    {
      var activated := EnsureActivated();
      if activated.Fail? {
        return Fail(activated.error);
      }
      var data := ReadMemoriesFile(failing);
      if data.Err? {
        return Fail(data.error);
      }
      var c := data.value;
      var originalLength := |c.memories|;
      var kept := WithoutId(c.memories, memoryId);
      WithoutIdShortens(c.memories, memoryId);
      if |kept| == originalLength {
        return Fail(MemoryNotFoundError(memoryId));
      }
      if WellFormed(c.memories) {
        DeletePreservesWellFormed(c.memories, memoryId);
      }
      r := WriteMemoriesFile(Collection(c.projectId, kept), failing);
    }
  }
}
