# Memory store model

A Dafny model of the record store behind the memory server's tool calls:
the `MemoryStorage` class (`src/infinity_mcp_server/storage.py`) and the record
model and validators it uses (`src/infinity_mcp_server/models.py`).

The store keeps short text records ("memories") for one project, which is one
working directory. Activation sets the project id. It reads the
`.infinity/project_id` file, or writes a fresh UUID there when the file is
missing, and it creates an empty `.infinity/memories.json` when that file is
missing. Every create, read, list, update and delete call follows the same
steps:

1. check that the store was activated;
2. validate the inputs;
3. read the whole memories file;
4. apply one change to the record list;
5. write the whole file back with one temporary-file-and-rename replace.

## Layout

- `wrappers.dfy` (`Wrappers`): `Option` for Python's `None`; `Result` and
  `Outcome` for a return value or a raised exception.
- `models.dfy` (`Models`): the allowed memory types, the `Memory` record and
  its dictionary form, `MemoryMetadata`, the exception classes and their
  error codes, and the two validators.
- `text.dfy` (`Text`): Python's `str.strip()`, which activation applies to the
  id file, and the text shape of `str(uuid.uuid4())`.
- `records.dfy` (`Records`): pure definitions of the four list operations the
  store performs on the record sequence: first match by id, the filtered
  metadata listing, the in-place content update and the delete filter. It
  also holds the lemmas about what each operation preserves and what it
  leaves alone.
- `storage.dfy` (`Storage`): the state and the operations.
  - `ProjectDirectory` is the `.infinity` folder: whether it exists, the id
    file, and the memories file (`Absent`, `Malformed` or `Present`).
  - `MemoryStorage` holds the in-memory `projectId` and a reference to the
    directory, so two stores opened on one directory share its files.
  - Each mutating method's `ensures` gives the new file as a function of the
    old one. A failed write leaves the file exactly as it was, which is the
    atomic replace.
- `scenarios.dfy` (`Scenarios`): client methods that follow the test suites.
  They show what a caller can conclude from the contracts alone.

External inputs are parameters:
- the clock is `now`;
- `uuid.uuid4()` is `freshId`;
- the operating-system calls that fail during an operation are `failing`, a
  set of `IoStep`.

`ActivateProject` requires `freshId` to have the shape of a UUID. `StoreMemory`
requires `freshId` not to be an id already in the collection. With that, a
store keeps record ids unique (`WellFormedFile` is preserved by every
mutating method).

Points where the code is followed over its documentation:
- **Allowed types.** The code's enumeration contains `"guidelines"`. The tests
  and the tool docstring use `"rules"` instead. The model accepts `"guidelines"`
  and rejects `"rules"` (see `UpdateThenDelete`).
- **Failed activation.** The documented intent is that a failed activation must
  not leave the project activated. The code assigns `self.project_id` before it
  writes the id file and before it writes the memories file. If either write
  fails, the store is left activated even though a `StorageError` is raised.
  `ActivateProject` models this as written.
- **Delete.** The documentation says delete removes one record. The code removes
  every record with the id. The two agree when ids are unique
  (`WithoutIdRemovesOne`).

## Model

| member | source | states |
|---|---|---|
| `Models.AllowedMemoryTypesAreEight` | src/infinity_mcp_server/models.py:19-28 | the allowed-type set has exactly eight members; it contains "guidelines" and not "rules" |
| `Models.MemoryToDict` | src/infinity_mcp_server/models.py:42-51 | the dictionary has exactly the six keys; `updated_at` is null exactly when the record has never been updated |
| `Models.GetOptional` | src/infinity_mcp_server/models.py:62 | `dict.get`: a value exactly when the key is present with a string, and then that string; None for an absent key or a null |
| `Models.MemoryFromDict` | src/infinity_mcp_server/models.py:53-63 | succeeds exactly when the five required keys hold strings; copies them verbatim; `updated_at` is read with `get`, so an absent key or a null becomes None and a string is kept |
| `Models.MemoryDictRoundTrip` | src/infinity_mcp_server/models.py:42-63 | `from_dict(to_dict(m)) == m` for every record |
| `Models.MemoryToDictInjective` | src/infinity_mcp_server/models.py:42-51 | distinct records have distinct dictionaries |
| `Models.MemoryFromDictIgnoresOtherKeys` | src/infinity_mcp_server/models.py:53-63 | keys other than the six record keys do not affect `from_dict` |
| `Models.MetadataToDict` | src/infinity_mcp_server/models.py:74-80 | exactly the keys `id`, `title`, `type` with the metadata's values; never `content` or a timestamp |
| `Models.ErrorCode` | src/infinity_mcp_server/models.py:93-131 | each exception class carries its fixed code, and the code identifies the class (both directions) |
| `Models.ValidateMemoryType` | src/infinity_mcp_server/models.py:134-144 | accepts exactly the allowed types; otherwise `InvalidMemoryTypeError` naming the given type |
| `Models.ValidateRequiredField` | src/infinity_mcp_server/models.py:147-158 | rejects exactly None and the empty string, with `MissingRequiredFieldError` naming the field; whitespace-only text is accepted |
| `Text.TrimStart` | src/infinity_mcp_server/storage.py:55 | removes exactly the longest whitespace prefix |
| `Text.TrimEnd` | src/infinity_mcp_server/storage.py:55 | removes exactly the longest whitespace suffix |
| `Text.Strip` | src/infinity_mcp_server/storage.py:55 | the stripped id has no whitespace at either end, is no longer than the file text, and is empty only if that text is all whitespace |
| `Text.StripIsMiddle` | src/infinity_mcp_server/storage.py:55 | the stripped id is a contiguous slice of the file text, and everything cut away on either side of it is whitespace |
| `Text.StripFixesExactlyTrimmed` | src/infinity_mcp_server/storage.py:55 | strip leaves a string unchanged exactly when it has no whitespace at either end |
| `Text.StripIdempotent` | src/infinity_mcp_server/storage.py:55 | stripping twice equals stripping once |
| `Text.UuidTextIsTrimmed` | src/infinity_mcp_server/storage.py:57-58 | a UUID written to the id file strips back to itself |
| `Records.FirstIndex` | src/infinity_mcp_server/storage.py:176-178 | the position of the first record with the id, and none exactly when no record has it |
| `Records.Lookup` | src/infinity_mcp_server/storage.py:175-180 | `memory_not_found` exactly when the id is absent; otherwise the record at the first position holding that id, no earlier record having it |
| `Records.LookupUnique` | src/infinity_mcp_server/storage.py:176-178 | with unique ids, looking up any record's id returns that record |
| `Records.LookupAfterAppend` | src/infinity_mcp_server/storage.py:144-158 | after appending a record under a fresh id, it is found under that id and every other lookup is unchanged |
| `Records.FirstIndexAfterAppend` | src/infinity_mcp_server/storage.py:155 | appending under a fresh id puts the record's first match at the old length and moves no other first match |
| `Records.AppendPreservesWellFormed` | src/infinity_mcp_server/storage.py:134-155 | appending a validated record under a fresh id keeps ids unique, titles non-empty and types allowed |
| `Records.Matches` | src/infinity_mcp_server/storage.py:201 | a record passes exactly when there is no filter or its type equals the filter |
| `Records.Metadata` | src/infinity_mcp_server/storage.py:204-210 | the listed entry carries the record's id, title and type |
| `Records.Listing` | src/infinity_mcp_server/storage.py:196-212 | never longer than the collection; with no filter, one entry per record |
| `Records.ListingAppend` | src/infinity_mcp_server/storage.py:199-212 | listing a concatenation lists its parts in order (the result keeps collection order) |
| `Records.ListingMembership` | src/infinity_mcp_server/storage.py:199-212 | an entry is listed exactly when some record that passes the filter projects to it |
| `Records.ListingUnfiltered` | src/infinity_mcp_server/storage.py:199-210 | with no filter, entry i is the projection of record i |
| `Records.ListingEmpty` | src/infinity_mcp_server/storage.py:196-212 | the listing is empty (not an error) exactly when no record passes the filter |
| `Records.ListingUnknownType` | src/infinity_mcp_server/storage.py:200-202 | in a collection the store wrote, a filter outside the enumeration lists nothing |
| `Records.ListingDependsOnMetadataOnly` | src/infinity_mcp_server/storage.py:204-210 | the listing depends only on each record's id, title and type |
| `Records.UpdateContent` | src/infinity_mcp_server/storage.py:228-235 | the first matching record gets the new content and `updated_at`, and keeps its id, title, type and `created_at`; every other record is unchanged; with no match nothing changes |
| `Records.LookupAfterUpdate` | src/infinity_mcp_server/storage.py:230-233 | reading the id after an update gives the old record with the new content and timestamp |
| `Records.ListingUnchangedByUpdate` | src/infinity_mcp_server/storage.py:230-233 | an update never changes what the list operation shows |
| `Records.UpdatePreservesWellFormed` | src/infinity_mcp_server/storage.py:230-233 | an update keeps ids unique, titles non-empty and types allowed |
| `Records.WithoutId` | src/infinity_mcp_server/storage.py:258 | no record with the id remains; the result is no longer than the input |
| `Records.WithoutIdMembership` | src/infinity_mcp_server/storage.py:258 | a record survives exactly when it was present and has a different id |
| `Records.WithoutIdAppend` | src/infinity_mcp_server/storage.py:258 | the filter works record by record: filtering a concatenation filters each part, so survivors keep their order and repetitions for any input |
| `Records.WithoutIdShortens` | src/infinity_mcp_server/storage.py:255-261 | the filter shortens the list exactly when the id is present, and changes nothing when it is absent |
| `Records.WithoutIdRemovesOne` | src/infinity_mcp_server/storage.py:258 | with unique ids, the result is the list with exactly that one record cut out, the rest in order |
| `Records.UniqueIdsSplit` | src/infinity_mcp_server/storage.py:258 | with unique ids, the first record's id does not recur and the rest keep unique ids |
| `Records.LookupAfterDelete` | src/infinity_mcp_server/storage.py:258 | after a delete, reading the id gives `memory_not_found` |
| `Records.DeletePreservesWellFormed` | src/infinity_mcp_server/storage.py:258 | a delete keeps ids unique, titles non-empty and types allowed |
| `Records.WithoutIdKeepsIdsUnique` | src/infinity_mcp_server/storage.py:258 | the filter keeps unique ids unique |
| `Storage.ValidateNewMemory` | src/infinity_mcp_server/storage.py:136-141 | checks run in order: the title, then the type, then None content; each failure gives that check's error; all pass exactly on non-empty title, allowed type and present content |
| `Storage.ResolveProjectId` | src/infinity_mcp_server/storage.py:54-58 | the id activation settles on: the fresh id when there is no id file, otherwise the id file's content with the whitespace at both ends cut away |
| `Storage.IdFileAfterActivation` | src/infinity_mcp_server/storage.py:54-58 | the id file after activation: left as it was when it existed, otherwise the fresh id |
| `Storage.ReactivationReturnsSameId` | src/infinity_mcp_server/storage.py:54-58 | activating again, from any store on the same directory and with any fresh id, returns the id the first activation returned |
| `Storage.ProjectDirectory.Empty` | tests/test_storage.py:21-31 | a working directory with no `.infinity` folder and no files |
| `Storage.MemoryStorage.constructor` | src/infinity_mcp_server/storage.py:27-37 | a new store on a directory is not activated |
| `Storage.MemoryStorage.ActivateProject` | src/infinity_mcp_server/storage.py:39-67 | returns the stripped id file or, when it is absent, the fresh id, which it writes; an existing id file or memories file is never rewritten; a missing memories file becomes an empty collection under the id; exactly the failing OS calls it makes give a `StorageError`; a failed mkdir or id-file read leaves the id and the id file as they were, while a failed id-file write or memories write leaves the store activated with the resolved id |
| `Storage.MemoryStorage.EnsureActivated` | src/infinity_mcp_server/storage.py:69-78 | fails with `project_not_activated` exactly when there is no project id |
| `Storage.MemoryStorage.CanWrite` | src/infinity_mcp_server/storage.py:107-116 | the temporary-file write and rename go through exactly when the `.infinity` folder exists and the write does not fail |
| `Storage.MemoryStorage.ReadMemoriesFile` | src/infinity_mcp_server/storage.py:80-96 | a missing file reads as an empty collection under the active id; a malformed or unreadable file is a `StorageError`; otherwise the stored collection |
| `Storage.MemoryStorage.WriteMemoriesFile` | src/infinity_mcp_server/storage.py:98-116 | either the file becomes the new collection as a whole, or it is left unchanged and a `StorageError` is reported |
| `Storage.MemoryStorage.StoreMemory` | src/infinity_mcp_server/storage.py:118-158 | order of errors: not activated, then validation, then read, then write; on success exactly one record is appended with the given fields, `created_at = now` and no `updated_at`, and its id is returned; any error leaves the file unchanged; the store invariant is kept |
| `Storage.MemoryStorage.GetMemory` | src/infinity_mcp_server/storage.py:160-180 | not activated first, then read errors; otherwise the first record with the id, or `memory_not_found` |
| `Storage.MemoryStorage.ListMemories` | src/infinity_mcp_server/storage.py:182-212 | not activated first, then read errors; otherwise the metadata of exactly the records that pass the filter, in collection order |
| `Storage.MemoryStorage.UpdateMemory` | src/infinity_mcp_server/storage.py:214-240 | not activated, read error or `memory_not_found` each leave the file unchanged; otherwise the file becomes the collection with only the first match's content and `updated_at` changed |
| `Storage.MemoryStorage.DeleteMemory` | src/infinity_mcp_server/storage.py:242-263 | not activated, read error or `memory_not_found` each leave the file unchanged; otherwise the file keeps exactly the records with other ids, in order |
| `Scenarios.RefusedBeforeActivation` | tests/test_storage.py:84-88 | before activation every operation returns `project_not_activated` and neither file changes |
| `Scenarios.StoreTwoWithSameTitle` | tests/test_integration.py:319-339 | a fresh directory lists nothing after activation; two records with the same title and type are both stored, in order |
| `Scenarios.UpdateThenDelete` | tests/test_storage.py:227-264 | update changes only content and `updated_at`; after delete only the other record is listed and the deleted id is not found; type "rules" is refused |
| `Scenarios.TwoStoresShareProjectId` | tests/test_storage.py:54-66 | a second store on the same directory activates to the first store's id, whatever fresh id it is handed |

## Left out

- `src/infinity_mcp_server/server.py` (the tool wrapper, its global store and its mapping of exceptions to result dictionaries) is not part of this model; the error codes it returns are `Models.ErrorCode`.
- JSON encoding and decoding are not modelled. The memories file is an abstract `Collection`, and `Malformed` stands for content that does not parse. Records are kept as `Memory` values rather than dictionaries; `MemoryDictRoundTrip` is what lets `get_memory`'s `from_dict` return the stored record.
- Files that parse but do not have the expected shape are outside the abstract `Collection` and `string` files. A memories file without a `"memories"` list, or a record without `"id"` or `"type"`, makes the code raise `KeyError` or `TypeError` rather than `StorageError`. An id file that does not decode as text raises `UnicodeDecodeError`, which activation does not catch.
- Extra top-level keys of the memories file, which the code would carry through a rewrite, are not represented.
- Real filesystem behaviour is abstracted to the three fields of `ProjectDirectory`: `mkdir`, `exists`, the temporary file and `Path.replace`. A `.tmp` file left behind by a failed rename is not modelled.
- The id file is written without a rename. A partially written id file is not modelled.
- The operating system's error text that the code appends to each `StorageError` message is not modelled; `StorageError` carries only the fixed context text.
- The human-readable messages of the other exceptions are not modelled. `InvalidMemoryTypeError`'s message lists the allowed set in iteration order. Only the codes and the exception arguments are modelled.
- `uuid.uuid4()` and `get_iso_timestamp()` are parameters. The ISO-8601 format of `now` is not checked.
- Lost updates between processes are not modelled. The code does no locking, and the model is single-threaded.
- Models.MemoryFromDict: a required key holding JSON null gives None here, where the dataclass would build a record whose field is None. Dictionary values are only strings or null.
- Models.ValidateRequiredField: only strings and None are passed in. Python's check would also accept any other non-string value.
- Storage.MemoryStorage.UpdateMemory: the new content is a string. The code does not validate it, so a None content would be stored as null.
- Storage.MemoryStorage.StoreMemory: the type argument is a string. A None type, which the code rejects as an invalid type, is not modelled.
