/**
 * The list operations of `MemoryStorage` (src/infinity_mcp_server/storage.py)
 * as functions over the ordered sequence of records in the memories file:
 * first match by id, the filtered metadata listing, the in-place content
 * update and the delete filter, with what they preserve and leave alone.
 */
module Records {
  import opened Wrappers
  import opened Models

  /** The ids present in a sequence of records. */
  function Ids(ms: seq<Memory>): set<string>
  {
    set m | m in ms :: m.id
  }

  /** No two records share an id. */
  ghost predicate UniqueIds(ms: seq<Memory>)
  {
    forall i, j :: 0 <= i < j < |ms| ==> ms[i].id != ms[j].id
  }

  /** What the store keeps true of every collection it writes. */
  ghost predicate WellFormed(ms: seq<Memory>)
  {
    && UniqueIds(ms)
    && forall i :: 0 <= i < |ms| ==> ms[i].title != "" && ms[i].memoryType in AllowedMemoryTypes
  }

  /** The position of the first record with the given id, if any. */
  function FirstIndex(ms: seq<Memory>, id: string): (r: Option<nat>)
    ensures r.None? <==> id !in Ids(ms)
    ensures r.Some? ==> r.value < |ms| && ms[r.value].id == id
    ensures r.Some? ==> forall j :: 0 <= j < r.value ==> ms[j].id != id
  {
    if ms == [] then None
    else if ms[0].id == id then Some(0)
    else
      match FirstIndex(ms[1..], id)
      case None => assert Ids(ms) == {ms[0].id} + Ids(ms[1..]); None
      case Some(k) => Some(k + 1)
  }

  /** The result of looking a record up: the first match, or `memory_not_found`. */
  function Lookup(ms: seq<Memory>, id: string): (r: Result<Memory, MemoryError>)
    ensures r.Err? <==> id !in Ids(ms)
    ensures r.Err? ==> r.error == MemoryNotFoundError(id)
    ensures r.Ok? ==> r.value in ms && r.value.id == id
    ensures r.Ok? ==> exists k :: 0 <= k < |ms| && ms[k] == r.value && forall j :: 0 <= j < k ==> ms[j].id != id
  {
    match FirstIndex(ms, id)
    case None => Err(MemoryNotFoundError(id))
    case Some(k) => Ok(ms[k])
  }

  /** With unique ids, lookup finds the one record with that id wherever it is. */
  lemma LookupUnique(ms: seq<Memory>, k: nat)
    requires UniqueIds(ms) && k < |ms|
    ensures Lookup(ms, ms[k].id) == Ok(ms[k])
  {
    var r := FirstIndex(ms, ms[k].id);
    assert ms[k] in ms;
    assert r.Some? && r.value == k;
  }

  /** A record appended under a fresh id is found, and every other lookup is unchanged. */
  lemma {:induction false} LookupAfterAppend(ms: seq<Memory>, m: Memory, id: string)
    requires m.id !in Ids(ms)
    ensures Lookup(ms + [m], id) == if id == m.id then Ok(m) else Lookup(ms, id)
  {
    if ms == [] {
    } else {
      assert (ms + [m])[1..] == ms[1..] + [m];
      assert Ids(ms) == {ms[0].id} + Ids(ms[1..]);
      LookupAfterAppend(ms[1..], m, id);
      FirstIndexAfterAppend(ms, m, id);
    }
  }

  lemma {:induction false} FirstIndexAfterAppend(ms: seq<Memory>, m: Memory, id: string)
    requires m.id !in Ids(ms)
    ensures FirstIndex(ms + [m], id) == if id == m.id then Some(|ms|) else FirstIndex(ms, id)
  {
    if ms != [] {
      assert (ms + [m])[1..] == ms[1..] + [m];
      assert Ids(ms) == {ms[0].id} + Ids(ms[1..]);
      FirstIndexAfterAppend(ms[1..], m, id);
    }
  }

  /** Appending a valid record under a fresh id keeps the collection well formed. */
  lemma AppendPreservesWellFormed(ms: seq<Memory>, m: Memory)
    requires WellFormed(ms)
    requires m.id !in Ids(ms) && m.title != "" && m.memoryType in AllowedMemoryTypes
    ensures WellFormed(ms + [m])
  {
    var r := ms + [m];
    forall i, j | 0 <= i < j < |r| ensures r[i].id != r[j].id {
      if j == |ms| {
        assert r[i] in ms;
      }
    }
  }

  /** Whether a record passes the optional type filter of the list operation. */
  predicate Matches(m: Memory, filter: Option<string>)
  {
    filter.None? || m.memoryType == filter.value
  }

  /** The `{id, title, type}` projection shown by the list operation. */
  function Metadata(m: Memory): (md: MemoryMetadata)
    ensures md.id == m.id && md.title == m.title && md.memoryType == m.memoryType
  {
    MemoryMetadata(m.id, m.title, m.memoryType)
  }

  /** The metadata of the matching records, in collection order. */
  function Listing(ms: seq<Memory>, filter: Option<string>): (r: seq<MemoryMetadata>)
    ensures |r| <= |ms|
    ensures filter.None? ==> |r| == |ms|
  {
    if ms == [] then []
    else (if Matches(ms[0], filter) then [Metadata(ms[0])] else []) + Listing(ms[1..], filter)
  }

  /** Listing a concatenation lists the parts one after the other (order is kept). */
  lemma {:induction false} ListingAppend(a: seq<Memory>, b: seq<Memory>, filter: Option<string>)
    ensures Listing(a + b, filter) == Listing(a, filter) + Listing(b, filter)
  {
    if a == [] {
      assert a + b == b;
    } else {
      var head := if Matches(a[0], filter) then [Metadata(a[0])] else [];
      var ab := a + b;
      assert ab[0] == a[0];
      assert ab[1..] == a[1..] + b;
      ListingAppend(a[1..], b, filter);
      calc {
        Listing(ab, filter);
        head + Listing(ab[1..], filter);
        head + (Listing(a[1..], filter) + Listing(b, filter));
        (head + Listing(a[1..], filter)) + Listing(b, filter);
        Listing(a, filter) + Listing(b, filter);
      }
    }
  }

  /** A metadata entry is listed exactly when some matching record projects to it. */
  lemma {:induction false} ListingMembership(ms: seq<Memory>, filter: Option<string>, x: MemoryMetadata)
    ensures x in Listing(ms, filter) <==>
      exists i :: 0 <= i < |ms| && Matches(ms[i], filter) && Metadata(ms[i]) == x
  {
    if ms != [] {
      ListingMembership(ms[1..], filter, x);
      if x in Listing(ms[1..], filter) {
        var i :| 0 <= i < |ms[1..]| && Matches(ms[1..][i], filter) && Metadata(ms[1..][i]) == x;
        assert ms[i + 1] == ms[1..][i];
      }
      if exists i :: 0 <= i < |ms| && Matches(ms[i], filter) && Metadata(ms[i]) == x {
        var i :| 0 <= i < |ms| && Matches(ms[i], filter) && Metadata(ms[i]) == x;
        if i > 0 {
          assert ms[1..][i - 1] == ms[i];
        }
      }
    }
  }

  /** Without a filter, the listing is the projection of every record, position by position. */
  lemma {:induction false} ListingUnfiltered(ms: seq<Memory>)
    ensures |Listing(ms, None)| == |ms|
    ensures forall i :: 0 <= i < |ms| ==> Listing(ms, None)[i] == Metadata(ms[i])
  {
    if ms != [] {
      ListingUnfiltered(ms[1..]);
    }
  }

  /** The listing is empty, not an error, exactly when no record matches. */
  lemma ListingEmpty(ms: seq<Memory>, filter: Option<string>)
    ensures Listing(ms, filter) == [] <==> forall i :: 0 <= i < |ms| ==> !Matches(ms[i], filter)
  {
    if Listing(ms, filter) != [] {
      ListingMembership(ms, filter, Listing(ms, filter)[0]);
    } else {
      forall i | 0 <= i < |ms| ensures !Matches(ms[i], filter) {
        ListingMembership(ms, filter, Metadata(ms[i]));
      }
    }
  }

  /** In a well-formed collection, filtering by a type outside the enumeration lists nothing. */
  lemma ListingUnknownType(ms: seq<Memory>, memoryType: string)
    requires WellFormed(ms)
    requires memoryType !in AllowedMemoryTypes
    ensures Listing(ms, Some(memoryType)) == []
  {
    ListingEmpty(ms, Some(memoryType));
  }

  /** Two collections that agree on every record's id, title and type list the same. */
  lemma {:induction false} ListingDependsOnMetadataOnly(a: seq<Memory>, b: seq<Memory>, filter: Option<string>)
    requires |a| == |b|
    requires forall i :: 0 <= i < |a| ==> Metadata(a[i]) == Metadata(b[i])
    ensures Listing(a, filter) == Listing(b, filter)
  {
    if a != [] {
      ListingDependsOnMetadataOnly(a[1..], b[1..], filter);
    }
  }

  /**
   * `update_memory`'s loop: the first record with the id gets the new content
   * and `updated_at`; it keeps its id, title, type and `created_at`, and every
   * other record is left as it was. With no such record, nothing changes.
   */
  function UpdateContent(ms: seq<Memory>, id: string, content: string, now: string): (r: seq<Memory>)
    ensures |r| == |ms|
    ensures id !in Ids(ms) ==> r == ms
    ensures forall i :: 0 <= i < |ms| && Some(i) != FirstIndex(ms, id) ==> r[i] == ms[i]
    ensures FirstIndex(ms, id).Some? ==>
      var k := FirstIndex(ms, id).value;
      && r[k].id == ms[k].id && r[k].title == ms[k].title && r[k].memoryType == ms[k].memoryType
      && r[k].createdAt == ms[k].createdAt
      && r[k].content == content && r[k].updatedAt == Some(now)
  {
    match FirstIndex(ms, id)
    case None => ms
    case Some(k) => ms[k := ms[k].(content := content, updatedAt := Some(now))]
  }

  /** Reading a record back after an update shows the new content and timestamp. */
  lemma LookupAfterUpdate(ms: seq<Memory>, id: string, content: string, now: string)
    ensures Lookup(UpdateContent(ms, id, content, now), id) ==
      match Lookup(ms, id)
      case Ok(m) => Ok(m.(content := content, updatedAt := Some(now)))
      case Err(e) => Err(e)
  {
    var r := UpdateContent(ms, id, content, now);
    var f := FirstIndex(ms, id);
    if f.Some? {
      var k := f.value;
      assert r[k].id == id;
      assert FirstIndex(r, id) == Some(k);
    } else {
      assert r == ms;
    }
  }

  /** An update never changes what the list operation shows. */
  lemma ListingUnchangedByUpdate(ms: seq<Memory>, id: string, content: string, now: string, filter: Option<string>)
    ensures Listing(UpdateContent(ms, id, content, now), filter) == Listing(ms, filter)
  {
    ListingDependsOnMetadataOnly(UpdateContent(ms, id, content, now), ms, filter);
  }

  /** An update keeps the collection well formed. */
  lemma UpdatePreservesWellFormed(ms: seq<Memory>, id: string, content: string, now: string)
    requires WellFormed(ms)
    ensures WellFormed(UpdateContent(ms, id, content, now))
  {
  }

  /** `delete_memory`'s filter: the records whose id differs, in their original order. */
  function WithoutId(ms: seq<Memory>, id: string): (r: seq<Memory>)
    ensures |r| <= |ms|
    ensures forall i :: 0 <= i < |r| ==> r[i].id != id
  {
    if ms == [] then []
    else if ms[0].id == id then WithoutId(ms[1..], id)
    else [ms[0]] + WithoutId(ms[1..], id)
  }

  /** A record survives the filter exactly when it was there and has another id. */
  lemma {:induction false} WithoutIdMembership(ms: seq<Memory>, id: string, m: Memory)
    ensures m in WithoutId(ms, id) <==> m in ms && m.id != id
  {
    if ms != [] {
      WithoutIdMembership(ms[1..], id, m);
      assert m in ms <==> m == ms[0] || m in ms[1..];
    }
  }

  /**
   * The filter works record by record: filtering a concatenation filters each
   * part, so the survivors keep their order and their repetitions.
   */
  lemma {:induction false} WithoutIdAppend(a: seq<Memory>, b: seq<Memory>, id: string)
    ensures WithoutId(a + b, id) == WithoutId(a, id) + WithoutId(b, id)
  {
    if a == [] {
      assert a + b == b;
    } else {
      var ab := a + b;
      assert ab[0] == a[0];
      assert ab[1..] == a[1..] + b;
      WithoutIdAppend(a[1..], b, id);
      if a[0].id != id {
        assert [a[0]] + (WithoutId(a[1..], id) + WithoutId(b, id))
            == ([a[0]] + WithoutId(a[1..], id)) + WithoutId(b, id);
      }
    }
  }

  /** The filter shortens the collection exactly when the id is present (the not-found test). */
  lemma {:induction false} WithoutIdShortens(ms: seq<Memory>, id: string)
    ensures |WithoutId(ms, id)| < |ms| <==> id in Ids(ms)
    ensures id !in Ids(ms) ==> WithoutId(ms, id) == ms
  {
    if ms != [] {
      assert Ids(ms) == {ms[0].id} + Ids(ms[1..]);
      WithoutIdShortens(ms[1..], id);
      if ms[0].id != id {
        assert ms == [ms[0]] + ms[1..];
      }
    }
  }

  /** With unique ids, deleting removes exactly the one record and keeps the order of the rest. */
  lemma {:induction false} WithoutIdRemovesOne(ms: seq<Memory>, id: string, k: nat)
    requires UniqueIds(ms)
    requires k < |ms| && ms[k].id == id
    ensures WithoutId(ms, id) == ms[..k] + ms[k + 1..]
    ensures |WithoutId(ms, id)| == |ms| - 1
  {
    var tail := ms[1..];
    UniqueIdsSplit(ms);
    if k == 0 {
      WithoutIdShortens(tail, id);
      assert ms[..0] + ms[1..] == tail;
    } else {
      assert tail[k - 1] == ms[k];
      WithoutIdRemovesOne(tail, id, k - 1);
      assert ms[..k] == [ms[0]] + tail[..k - 1];
      assert ms[k + 1..] == tail[k..];
    }
  }

  /** The first record's id does not recur, and the rest have unique ids. */
  lemma UniqueIdsSplit(ms: seq<Memory>)
    requires UniqueIds(ms) && ms != []
    ensures UniqueIds(ms[1..])
    ensures ms[0].id !in Ids(ms[1..])
  {
    var tail := ms[1..];
    forall m | m in tail ensures m.id != ms[0].id {
      var j :| 0 <= j < |tail| && tail[j] == m;
      assert ms[j + 1] == m;
    }
  }

  /** After a delete, the id is gone. */
  lemma LookupAfterDelete(ms: seq<Memory>, id: string)
    ensures Lookup(WithoutId(ms, id), id) == Err(MemoryNotFoundError(id))
  {
  }

  /** Deleting keeps the collection well formed. */
  lemma DeletePreservesWellFormed(ms: seq<Memory>, id: string)
    requires WellFormed(ms)
    ensures WellFormed(WithoutId(ms, id))
  {
    var r := WithoutId(ms, id);
    forall i | 0 <= i < |r|
      ensures r[i].title != "" && r[i].memoryType in AllowedMemoryTypes
    {
      WithoutIdMembership(ms, id, r[i]);
    }
    WithoutIdKeepsIdsUnique(ms, id);
  }

  /** The filter keeps unique ids unique. */
  lemma {:induction false} WithoutIdKeepsIdsUnique(ms: seq<Memory>, id: string)
    requires UniqueIds(ms)
    ensures UniqueIds(WithoutId(ms, id))
  {
    if ms != [] {
      WithoutIdKeepsIdsUnique(ms[1..], id);
      var rest := WithoutId(ms[1..], id);
      if ms[0].id != id {
        var r := [ms[0]] + rest;
        forall j | 0 < j < |r| ensures r[0].id != r[j].id {
          WithoutIdMembership(ms[1..], id, r[j]);
          UniqueIdsSplit(ms);
        }
      }
    }
  }
}
