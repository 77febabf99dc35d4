/**
 * The record model and the validators of the memory store
 * (src/infinity_mcp_server/models.py): the memory record, its dictionary
 * form, the list-view metadata, the error codes and the two validators.
 */
module Models {
  import opened Wrappers

  /**
   * ALLOWED_MEMORY_TYPES. The code's set holds "guidelines"; the test suites
   * and the tool's documentation use "rules" in that place instead. This model
   * follows the code: "guidelines" is accepted and "rules" is rejected.
   */
  const AllowedMemoryTypes: set<string> := {
    "design_doc",
    "project_overview",
    "implementation_plan",
    "progress_tracker",
    "test_plan",
    "instructions",
    "guidelines",
    "analysis"
  }

  /** The enumeration has exactly eight members, "guidelines" but not "rules". */
  lemma AllowedMemoryTypesAreEight()
    ensures |AllowedMemoryTypes| == 8
    ensures "guidelines" in AllowedMemoryTypes && "rules" !in AllowedMemoryTypes
  {
    // Same-length names differ at some position.
    assert "design_doc"[0] != "guidelines"[0];
    assert "project_overview"[3] != "progress_tracker"[3];
    var s1 := {"design_doc"};
    var s2 := s1 + {"project_overview"};
    var s3 := s2 + {"implementation_plan"};
    var s4 := s3 + {"progress_tracker"};
    var s5 := s4 + {"test_plan"};
    var s6 := s5 + {"instructions"};
    var s7 := s6 + {"guidelines"};
    var s8 := s7 + {"analysis"};
    assert |s8| == 8;
    assert s8 == AllowedMemoryTypes;
  }

  /** A memory record (the `Memory` dataclass); `memoryType` is the `type` field. */
  datatype Memory = Memory(
    id: string,
    title: string,
    memoryType: string,
    content: string,
    createdAt: string,
    updatedAt: Option<string>)

  /** A JSON value as it appears in a memory dictionary: a string or null. */
  datatype FieldValue = Text(text: string) | Null

  /** A memory dictionary, as produced by `to_dict` and read back from JSON. */
  type Dict = map<string, FieldValue>

  /** The keys `from_dict` indexes directly (a missing one raises KeyError). */
  const RequiredKeys: set<string> := {"id", "title", "type", "content", "created_at"}

  /** The keys of `Memory.to_dict`. */
  const MemoryKeys: set<string> := RequiredKeys + {"updated_at"}

  /** `Memory.to_dict`: all six keys, with `updated_at` null until the first update. */
  function MemoryToDict(m: Memory): (d: Dict)
    ensures d.Keys == MemoryKeys
    ensures d["updated_at"] == (if m.updatedAt.Some? then Text(m.updatedAt.value) else Null)
  {
    map[
      "id" := Text(m.id),
      "title" := Text(m.title),
      "type" := Text(m.memoryType),
      "content" := Text(m.content),
      "created_at" := Text(m.createdAt),
      "updated_at" := if m.updatedAt.Some? then Text(m.updatedAt.value) else Null
    ]
  }

  /** The five required keys are present and hold strings. */
  predicate HasRequiredFields(d: Dict)
  {
    && "id" in d && d["id"].Text?
    && "title" in d && d["title"].Text?
    && "type" in d && d["type"].Text?
    && "content" in d && d["content"].Text?
    && "created_at" in d && d["created_at"].Text?
  }

  /** `data.get(key)`: an absent key and a null value both read as None. */
  function GetOptional(d: Dict, key: string): (r: Option<string>)
    ensures r.Some? <==> key in d && d[key].Text?
    ensures r.Some? ==> r.value == d[key].text
  {
    if key in d && d[key].Text? then Some(d[key].text) else None
  }

  /**
   * `Memory.from_dict`: copies the five required keys and takes `updated_at`
   * with `get`, so an absent `updated_at` becomes None. None here stands for
   * the KeyError a missing required key raises.
   */
  function MemoryFromDict(d: Dict): (r: Option<Memory>)
    ensures r.Some? <==> HasRequiredFields(d)
    ensures r.Some? ==>
      && r.value.id == d["id"].text
      && r.value.title == d["title"].text
      && r.value.memoryType == d["type"].text
      && r.value.content == d["content"].text
      && r.value.createdAt == d["created_at"].text
      && ("updated_at" !in d ==> r.value.updatedAt.None?)
    ensures r.Some? ==> r.value.updatedAt == GetOptional(d, "updated_at")
  {
    if HasRequiredFields(d) then
      Some(Memory(
        d["id"].text,
        d["title"].text,
        d["type"].text,
        d["content"].text,
        d["created_at"].text,
        GetOptional(d, "updated_at")))
    else
      None
  }

  /** `Memory.from_dict(m.to_dict()) == m` for every memory. */
  lemma MemoryDictRoundTrip(m: Memory)
    ensures MemoryFromDict(MemoryToDict(m)) == Some(m)
  {
    var d := MemoryToDict(m);
    assert HasRequiredFields(d);
  }

  /** Two memories with the same dictionary are the same memory. */
  lemma MemoryToDictInjective(m1: Memory, m2: Memory)
    requires MemoryToDict(m1) == MemoryToDict(m2)
    ensures m1 == m2
  {
    MemoryDictRoundTrip(m1);
    MemoryDictRoundTrip(m2);
  }

  /** Keys other than the six memory keys do not influence `from_dict`. */
  lemma MemoryFromDictIgnoresOtherKeys(d: Dict, extra: Dict)
    requires extra.Keys !! MemoryKeys
    ensures MemoryFromDict(d + extra) == MemoryFromDict(d - extra.Keys)
  {
    var a, b := d + extra, d - extra.Keys;
    assert forall k :: k in MemoryKeys ==> (k in a <==> k in b) && (k in a ==> a[k] == b[k]);
    assert HasRequiredFields(a) == HasRequiredFields(b);
  }

  /** `MemoryMetadata`: what the list operation shows of a memory. */
  datatype MemoryMetadata = MemoryMetadata(id: string, title: string, memoryType: string)

  /** `MemoryMetadata.to_dict`: exactly `id`, `title` and `type`; never `content`. */
  function MetadataToDict(md: MemoryMetadata): (d: Dict)
    ensures d.Keys == {"id", "title", "type"}
    ensures "content" !in d && "created_at" !in d && "updated_at" !in d
    ensures d["id"] == Text(md.id) && d["title"] == Text(md.title) && d["type"] == Text(md.memoryType)
  {
    map["id" := Text(md.id), "title" := Text(md.title), "type" := Text(md.memoryType)]
  }

  /** The exception hierarchy under `MemoryError`, one constructor per exception class. */
  datatype MemoryError =
    | InvalidMemoryTypeError(memoryType: string)
    | MissingRequiredFieldError(field: string)
    | MemoryNotFoundError(memoryId: string)
    | ProjectNotActivatedError
    | StorageError(message: string)

  /** The fixed `error_code` each exception class carries; the code determines the class. */
  function ErrorCode(e: MemoryError): (code: string)
    ensures code == "invalid_memory_type" <==> e.InvalidMemoryTypeError?
    ensures code == "missing_required_field" <==> e.MissingRequiredFieldError?
    ensures code == "memory_not_found" <==> e.MemoryNotFoundError?
    ensures code == "project_not_activated" <==> e.ProjectNotActivatedError?
    ensures code == "storage_error" <==> e.StorageError?
  {
    match e
    case InvalidMemoryTypeError(_) => "invalid_memory_type"
    case MissingRequiredFieldError(_) => "missing_required_field"
    case MemoryNotFoundError(_) => "memory_not_found"
    case ProjectNotActivatedError => "project_not_activated"
    case StorageError(_) => "storage_error"
  }

  /** `validate_memory_type`: accepts exactly the allowed types. */
  function ValidateMemoryType(memoryType: string): (r: Outcome<MemoryError>)
    ensures r.Pass? <==> memoryType in AllowedMemoryTypes
    ensures r.Fail? ==> r.error == InvalidMemoryTypeError(memoryType)
  {
    if memoryType !in AllowedMemoryTypes then Fail(InvalidMemoryTypeError(memoryType)) else Pass
  }

  /**
   * `validate_required_field`: rejects exactly None and the empty string; any
   * other string, whitespace-only included, is accepted.
   */
  function ValidateRequiredField(value: Option<string>, fieldName: string): (r: Outcome<MemoryError>)
    ensures r.Fail? <==> value.None? || value == Some("")
    ensures r.Fail? ==> r.error == MissingRequiredFieldError(fieldName)
  {
    if value.None? || value.value == "" then Fail(MissingRequiredFieldError(fieldName)) else Pass
  }
}
