/**
 * Client code in the manner of the store's test suites: what a caller can
 * conclude about a sequence of operations from the contracts alone.
 */
module Scenarios {
  import opened Wrappers
  import opened Models
  import opened Storage
  import Records
  import Text

  /** Before activation every operation is refused and the directory is left alone. */
  method RefusedBeforeActivation(dir: ProjectDirectory, freshId: string, now: string)
    returns (stored: Result<string, MemoryError>, got: Result<Memory, MemoryError>,
             listed: Result<seq<MemoryMetadata>, MemoryError>, updated: Outcome<MemoryError>,
             deleted: Outcome<MemoryError>)
    requires dir.Valid()
    requires dir.memFile.Present? ==> freshId !in Records.Ids(dir.memFile.collection.memories)
    modifies dir
    ensures stored == Err(ProjectNotActivatedError) && got == Err(ProjectNotActivatedError)
    ensures listed == Err(ProjectNotActivatedError)
    ensures updated == Fail(ProjectNotActivatedError) && deleted == Fail(ProjectNotActivatedError)
    ensures dir.memFile == old(dir.memFile) && dir.idFile == old(dir.idFile)
  {
    var store := new MemoryStorage(dir);
    stored := store.StoreMemory(Some("Test"), "design_doc", Some("Content"), freshId, now, {});
    got := store.GetMemory(freshId, {});
    listed := store.ListMemories(None, {});
    updated := store.UpdateMemory(freshId, "Content", now, {});
    deleted := store.DeleteMemory(freshId, {});
  }

  /**
   * Activating a fresh directory creates the id file and an empty collection;
   * two records with the same title and type are then both stored.
   */
  method StoreTwoWithSameTitle(projectId: string, id1: string, id2: string, t0: string)
    returns (store: MemoryStorage, empty: Result<seq<MemoryMetadata>, MemoryError>)
    requires Text.IsUuidText(projectId)
    requires id1 != id2
    ensures fresh(store) && fresh(store.dir) && store.dir.Valid()
    ensures empty == Ok([])
    ensures store.projectId == Some(projectId) && store.dir.idFile == Some(projectId)
    ensures store.dir.memFile == Present(Collection(projectId, [
      Memory(id1, "T1", "design_doc", "c1", t0, None),
      Memory(id2, "T1", "design_doc", "c2", t0, None)]))
  {
    var dir := new ProjectDirectory.Empty();
    store := new MemoryStorage(dir);
    var activated := store.ActivateProject(projectId, {});
    assert dir.memFile == Present(Collection(projectId, []));
    empty := store.ListMemories(None, {});
    var first := store.StoreMemory(Some("T1"), "design_doc", Some("c1"), id1, t0, {});
    assert dir.memFile == Present(Collection(projectId, [Memory(id1, "T1", "design_doc", "c1", t0, None)]));
    var second := store.StoreMemory(Some("T1"), "design_doc", Some("c2"), id2, t0, {});
  }

  /**
   * Continuing from two stored records: updating the first changes only its
   * content and timestamp, deleting the second leaves only the first, the
   * deleted id is no longer found, and the type "rules" is refused.
   */
  method UpdateThenDelete(store: MemoryStorage, projectId: string, id1: string, id2: string, id3: string,
                          t0: string, t1: string)
    returns (updated: Result<Memory, MemoryError>, listed: Result<seq<MemoryMetadata>, MemoryError>,
             deleted: Result<Memory, MemoryError>, rules: Result<string, MemoryError>)
    requires store.dir.Valid() && store.projectId == Some(projectId)
    requires id1 != id2 && id3 != id1
    requires store.dir.memFile == Present(Collection(projectId, [
      Memory(id1, "T1", "design_doc", "c1", t0, None),
      Memory(id2, "T1", "design_doc", "c2", t0, None)]))
    modifies store.dir
    ensures updated == Ok(Memory(id1, "T1", "design_doc", "c1-new", t0, Some(t1)))
    ensures listed == Ok([MemoryMetadata(id1, "T1", "design_doc")])
    ensures deleted == Err(MemoryNotFoundError(id2))
    ensures rules == Err(InvalidMemoryTypeError("rules"))
  {
    var m1 := Memory(id1, "T1", "design_doc", "c1", t0, None);
    var m2 := Memory(id2, "T1", "design_doc", "c2", t0, None);
    var u := store.UpdateMemory(id1, "c1-new", t1, {});
    var m1' := m1.(content := "c1-new", updatedAt := Some(t1));
    assert store.dir.memFile == Present(Collection(projectId, [m1', m2]));
    updated := store.GetMemory(id1, {});

    var d := store.DeleteMemory(id2, {});
    assert Records.WithoutId([m1', m2], id2) == [m1'];
    assert store.dir.memFile == Present(Collection(projectId, [m1']));
    listed := store.ListMemories(None, {});
    assert [m1'][1..] == [];
    assert Records.Listing([m1'], None) == [MemoryMetadata(id1, "T1", "design_doc")];
    deleted := store.GetMemory(id2, {});

    rules := store.StoreMemory(Some("T3"), "rules", Some("c3"), id3, t1, {});
  }

  /**
   * Two stores opened on the same directory settle on the same project id:
   * the second activation reads back the id file the first one left, even
   * though it is handed a different fresh id.
   */
  method TwoStoresShareProjectId(dir: ProjectDirectory, freshId1: string, freshId2: string,
                                 failing1: set<IoStep>, failing2: set<IoStep>)
    returns (first: Result<string, MemoryError>, second: Result<string, MemoryError>)
    requires dir.Valid()
    requires Text.IsUuidText(freshId1) && Text.IsUuidText(freshId2)
    modifies dir
    ensures first.Ok? && failing2 == {} ==> second.Ok?
    ensures first.Ok? && second.Ok? ==> second.value == first.value
    ensures old(dir.idFile).None? && first.Ok? ==> first.value == freshId1
  {
    var idFile := dir.idFile;
    var store1 := new MemoryStorage(dir);
    first := store1.ActivateProject(freshId1, failing1);
    var store2 := new MemoryStorage(dir);
    second := store2.ActivateProject(freshId2, failing2);
    ReactivationReturnsSameId(idFile, freshId1, freshId2);
  }
}
