/** The process-wide registry of loaded models, `loadedSavedModelPathMap` and
    `nextTFSavedModelId` (saved_moddule.ts:15-18), with a ghost log of the calls made to the
    native backend. */
module Sessions {
  import opened Wrappers
  import opened Tags

  /** `{path, tags, sessionId}`, the value stored under a model id. */
  datatype Record = Record(path: string, tags: seq<string>, sessionId: nat)

  /** A call into the native backend that creates or releases a session. */
  datatype BackendCall =
    | LoadSavedModelMetaGraph(path: string, tagsString: string, sessionId: nat)
    | DisposeSession(sessionId: nat)

  /** The test at saved_moddule.ts:264-265: same path, and tags that compare equal. */
  predicate Matches(r: Record, path: string, tags: seq<string>) {
    r.path == path && SameElements(r.tags, tags)
  }

  /** Records for the same path and matching tags share one session. */
  ghost predicate SharedSessions(records: map<nat, Record>) {
    forall i, j :: i in records && j in records && Matches(records[i], records[j].path, records[j].tags) ==>
      records[i].sessionId == records[j].sessionId
  }

  predicate Increasing(ids: seq<nat>) {
    forall i, j :: 0 <= i < j < |ids| ==> ids[i] < ids[j]
  }

  /** The session a scan of `ids` (in that order) ends with, starting from `found`: every
      matching record overwrites it, so the last one wins. */
  function LastMatchFrom(records: map<nat, Record>, ids: seq<nat>, path: string, tags: seq<string>, found: Option<nat>)
    : Option<nat>
    decreases |ids|
  {
    if ids == [] then found
    else
      var found' := if ids[0] in records && Matches(records[ids[0]], path, tags) then Some(records[ids[0]].sessionId) else found;
      LastMatchFrom(records, ids[1..], path, tags, found')
  }

  lemma {:induction false} LastMatchFromResult(records: map<nat, Record>, ids: seq<nat>, path: string, tags: seq<string>, found: Option<nat>)
    ensures var r := LastMatchFrom(records, ids, path, tags, found);
            (r.Some? <==> found.Some? || exists k :: 0 <= k < |ids| && ids[k] in records && Matches(records[ids[k]], path, tags)) &&
            (r.Some? ==> r == found || exists k :: 0 <= k < |ids| && ids[k] in records && Matches(records[ids[k]], path, tags) &&
                                                   r.value == records[ids[k]].sessionId)
    decreases |ids|
  {
    if ids != [] {
      var found' := if ids[0] in records && Matches(records[ids[0]], path, tags) then Some(records[ids[0]].sessionId) else found;
      LastMatchFromResult(records, ids[1..], path, tags, found');
      assert forall k :: 1 <= k < |ids| ==> ids[k] == ids[1..][k - 1];
    }
  }

  /** `ids` without `x`, order kept. */
  function Without(ids: seq<nat>, x: nat): (r: seq<nat>)
    ensures forall y :: y in r <==> y in ids && y != x
    ensures Increasing(ids) ==> Increasing(r)
    ensures Increasing(ids) && ids != [] && r != [] ==> ids[0] <= r[0]
  {
    if ids == [] then []
    else
      var t := Without(ids[1..], x);
      assert Increasing(ids) ==> Increasing(ids[1..]) by {
        if Increasing(ids) {
          forall i, j | 0 <= i < j < |ids[1..]| ensures ids[1..][i] < ids[1..][j] {
            assert ids[1..][i] == ids[i + 1] && ids[1..][j] == ids[j + 1];
          }
        }
      }
      assert Increasing(ids) && t != [] ==> ids[0] < t[0] by {
        if Increasing(ids) && t != [] {
          assert t[0] in ids[1..];
        }
      }
      if ids[0] == x then t else [ids[0]] + t
  }

  class SavedModelRegistry {
    /** `loadedSavedModelPathMap`. */
    var records: map<nat, Record>
    /** The map's keys in insertion order, the order `Array.from(map.keys())` lists them. */
    var order: seq<nat>
    /** `nextTFSavedModelId`. */
    var nextId: nat
    /** Backend sessions created and released, oldest first. */
    ghost var calls: seq<BackendCall>

    ghost predicate Valid()
      reads this
    {
      && Increasing(order)
      && (forall id :: id in records <==> id in order)
      && (forall id :: id in records ==> id < nextId && Sorted(records[id].tags))
      && SharedSessions(records)
    }

    constructor ()
      ensures Valid()
      ensures records == map[] && order == [] && nextId == 0 && calls == []
    {
      records := map[];
      order := [];
      nextId := 0;
      calls := [];
    }

    /** The session-reuse scan of `loadSavedModel` (saved_moddule.ts:262-268). Its
        comparisons sort the two tag arrays in place, which changes neither: records hold
        sorted tags and the loader passes sorted tags. */
    method FindSession(path: string, tags: seq<string>) returns (sessionId: Option<nat>)
      requires Valid()
      ensures sessionId == LastMatchFrom(records, order, path, tags, None)
      ensures sessionId.Some? <==> exists id :: id in records && Matches(records[id], path, tags)
      ensures sessionId.Some? ==>
                forall id :: id in records && Matches(records[id], path, tags) ==> records[id].sessionId == sessionId.value
    {
      sessionId := None;
      var i := 0;
      while i < |order|
        invariant 0 <= i <= |order|
        invariant LastMatchFrom(records, order[i..], path, tags, sessionId) == LastMatchFrom(records, order, path, tags, None)
      {
        assert order[i..][1..] == order[i + 1..];
        var modelInfo := records[order[i]];
        if modelInfo.path == path && SameElements(modelInfo.tags, tags) {
          sessionId := Some(modelInfo.sessionId);
        }
        i := i + 1;
      }
      LastMatchFromResult(records, order, path, tags, None);
      if sessionId.Some? {
        var k :| 0 <= k < |order| && order[k] in records && Matches(records[order[k]], path, tags) &&
                 sessionId.value == records[order[k]].sessionId;
        forall id | id in records && Matches(records[id], path, tags)
          ensures records[id].sessionId == sessionId.value
        {
          assert Matches(records[id], records[order[k]].path, records[order[k]].tags);
        }
      }
      if exists id :: id in records && Matches(records[id], path, tags) {
        var id :| id in records && Matches(records[id], path, tags);
        var k :| 0 <= k < |order| && order[k] == id;
      }
    }

    /** The sibling scan of `dispose` (saved_moddule.ts:169-174): whether any remaining
        record still uses `sessionId`. */
    method IsSessionReferenced(sessionId: nat) returns (referenced: bool)
      requires Valid()
      ensures referenced <==> exists id :: id in records && records[id].sessionId == sessionId
    {
      var i := 0;
      while i < |order|
        invariant 0 <= i <= |order|
        invariant forall k :: 0 <= k < i ==> records[order[k]].sessionId != sessionId
      {
        if records[order[i]].sessionId == sessionId {
          return true;
        }
        i := i + 1;
      }
      assert forall id :: id in records ==> exists k :: 0 <= k < |order| && order[k] == id;
      return false;
    }

    /** `loadedSavedModelPathMap.delete(id)`. */
    method Delete(id: nat)
      requires Valid()
      modifies this
      ensures Valid()
      ensures records == old(records) - {id} && order == Without(old(order), id)
      ensures nextId == old(nextId) && calls == old(calls)
    {
      records := records - {id};
      order := Without(order, id);
    }

    /** `const id = nextTFSavedModelId++` followed by `loadedSavedModelPathMap.set(id, ...)`
        (saved_moddule.ts:274, 277). The session must be the one every matching record
        already uses, which keeps one session per path and tag multiset. */
    method Register(path: string, tags: seq<string>, sessionId: nat) returns (id: nat)
      requires Valid() && Sorted(tags)
      requires forall j :: j in records && Matches(records[j], path, tags) ==> records[j].sessionId == sessionId
      modifies this
      ensures Valid()
      ensures id == old(nextId) && nextId == id + 1
      ensures id !in old(records) && forall j :: j in old(records) ==> j < id
      ensures records == old(records)[id := Record(path, tags, sessionId)]
      ensures order == old(order) + [id]
      ensures calls == old(calls)
    {
      id := nextId;
      nextId := nextId + 1;
      assert forall k :: 0 <= k < |order| ==> order[k] in records;
      records := records[id := Record(path, tags, sessionId)];
      order := order + [id];
      assert SharedSessions(records) by {
        forall i, j | i in records && j in records && Matches(records[i], records[j].path, records[j].tags)
          ensures records[i].sessionId == records[j].sessionId
        {
          if i == id && j != id {
            assert Matches(records[j], path, tags);
          }
        }
      }
    }
  }
}
