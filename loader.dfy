/** `loadSavedModel` (saved_moddule.ts:249-279): decode the model, resolve the signature,
    reuse or create a backend session, and register the new handle. */
module Loader {
  import opened Wrappers
  import opened OrderedMaps
  import opened Tags
  import opened MetaGraphs
  import opened Signatures
  import opened Sessions
  import opened Model

  /** The defaults of `loadSavedModel`'s optional parameters. */
  const DEFAULT_TAGS: seq<string> := ["serve"]
  const DEFAULT_SIGNATURE: string := "serving_default"

  /** The signature entry the load resolves to, or the error it throws before touching the
      registry. */
  function Resolution(enumObject: Entries<int>, file: Option<SavedModelMessage>, path: string, tags: seq<string>, signature: string)
    : (r: Result<SignatureDefEntry, Error>)
    ensures file.None? ==> r == Err(ModelFileNotFound(path))
    ensures r.Err? ==> r.error.ModelFileNotFound? || r.error.UnsupportedType? || r.error == TagsNotFound(tags) || r.error == SignatureNotFound(signature)
    ensures r.Ok? ==> WellFormedEntry(r.value)
  {
    match DecodedMetaGraphs(enumObject, file, path)
    case Err(e) => Err(e)
    case Ok(savedModelInfo) =>
      DecodedMetaGraphsWellFormed(enumObject, file, path);
      var r := GetSignatureDefEntryFromMetaGraphInfo(savedModelInfo, tags, signature);
      if r.Ok? then ResolvedEntryWellFormed(savedModelInfo, tags, signature); r else r
  }

  /** A resolved entry is the decoded form of a signature stored in the file: the one named
      `signature` in a record whose tags match the request. */
  lemma ResolutionFromRecord(enumObject: Entries<int>, file: Option<SavedModelMessage>, path: string, tags: seq<string>, signature: string)
    requires Resolution(enumObject, file, path, tags, signature).Ok?
    requires file.Some? ==> forall i :: 0 <= i < |file.value.metaGraphs| ==> DistinctKeys(file.value.metaGraphs[i].signatureDefs)
    ensures file.Some?
    ensures var records := file.value.metaGraphs;
            exists i, j :: 0 <= i < |records| && 0 <= j < |records[i].signatureDefs| &&
                           SameElements(tags, records[i].tags) && records[i].signatureDefs[j].0 == signature &&
                           SignatureEntryOf(enumObject, records[i].signatureDefs[j].1) == Ok(Resolution(enumObject, file, path, tags, signature).value)
  {
    var records := file.value.metaGraphs;
    var gs := DecodedMetaGraphs(enumObject, file, path).value;
    var entry := Resolution(enumObject, file, path, tags, signature).value;
    assert GetSignatureDefEntryFromMetaGraphInfo(gs, tags, signature) == Ok(entry);
    ResolvedFromFirstMatch(gs, tags, signature);
    var i := FirstMatchingIndex(gs, tags);
    DecodedMetaGraphsProperties(enumObject, file, path);
    DecodedSignatureEntries(enumObject, file, path);
    assert signature in Keys(gs[i].signatureDefs);
    assert signature in Keys(records[i].signatureDefs);
    var j :| 0 <= j < |records[i].signatureDefs| && Keys(records[i].signatureDefs)[j] == signature;
    assert records[i].signatureDefs[j].0 == signature;
    assert gs[i].tags == records[i].tags;
  }

  /** The session a load of `path` with `tags` reuses, if any. */
  ghost function ExistingSession(records: map<nat, Record>, path: string, tags: seq<string>): Option<nat> {
    if exists id :: id in records && Matches(records[id], path, tags)
    then var id :| id in records && Matches(records[id], path, tags); Some(records[id].sessionId)
    else None
  }

  /** The session-reuse part of `loadSavedModel` (saved_moddule.ts:260-273): the session of
      a record for the same path and matching tags, or a new one from the backend, called
      with the sorted tags joined by commas. */
  method AcquireSession(registry: SavedModelRegistry, path: string, tags: seq<string>, newSessionId: nat)
    returns (sessionId: nat)
    requires registry.Valid()
    modifies registry`calls
    ensures registry.Valid()
    ensures var reused := ExistingSession(registry.records, path, tags);
            sessionId == (if reused.Some? then reused.value else newSessionId) &&
            registry.calls == old(registry.calls) +
              (if reused.Some? then [] else [LoadSavedModelMetaGraph(path, Join(Sort(tags)), newSessionId)])
    ensures forall id :: id in registry.records && Matches(registry.records[id], path, Sort(tags)) ==>
              registry.records[id].sessionId == sessionId
  {
    var sortedTags := Sort(tags);
    var found := registry.FindSession(path, sortedTags);
    SortedTagsMatchAlike(registry.records, path, tags);
    ExistingSessionIsFound(registry.records, path, tags, found);
    if found.Some? {
      sessionId := found.value;
    } else {
      var tagsString := Join(sortedTags);
      sessionId := newSessionId;
      registry.calls := registry.calls + [LoadSavedModelMetaGraph(path, tagsString, sessionId)];
    }
  }

  /** Records hold sorted tags, and matching is insensitive to the order of the request. */
  lemma SortedTagsMatchAlike(records: map<nat, Record>, path: string, tags: seq<string>)
    ensures forall id :: id in records ==> Matches(records[id], path, Sort(tags)) == Matches(records[id], path, tags)
  {
    forall id | id in records
      ensures Matches(records[id], path, Sort(tags)) == Matches(records[id], path, tags)
    {
      SameElementsSortInvariant(records[id].tags, tags);
    }
  }

  /** A scan result that is present iff some record matches, and then is every matching
      record's session, is the session the load reuses. */
  lemma ExistingSessionIsFound(records: map<nat, Record>, path: string, tags: seq<string>, found: Option<nat>)
    requires forall id :: id in records ==> Matches(records[id], path, Sort(tags)) == Matches(records[id], path, tags)
    requires found.Some? <==> exists id :: id in records && Matches(records[id], path, Sort(tags))
    requires found.Some? ==> forall id :: id in records && Matches(records[id], path, Sort(tags)) ==> records[id].sessionId == found.value
    ensures ExistingSession(records, path, tags) == found
  {
    if found.Some? {
      var id :| id in records && Matches(records[id], path, Sort(tags));
      assert Matches(records[id], path, tags);
    }
  }

  /** `loadSavedModel(path, tags, signature)`. `file` is the decoded `saved_model.pb`
      (`None` when it cannot be read), `enumObject` the `DataType` enum of the protobuf
      bindings, and `newSessionId` what `backend.loadSavedModelMetaGraph` returns when it is
      called. The caller's tag array ends up sorted by the comparisons, so the registry and
      the backend see `Sort(tags)`. */
  method LoadSavedModel(registry: SavedModelRegistry, enumObject: Entries<int>, file: Option<SavedModelMessage>,
                        path: string, tags: seq<string>, signature: string, newSessionId: nat)
    returns (r: Result<TFSavedModel, Error>)
    requires registry.Valid()
    modifies registry
    ensures registry.Valid()
    ensures r.Err? <==> Resolution(enumObject, file, path, tags, signature).Err?
    ensures r.Err? ==> r.error == Resolution(enumObject, file, path, tags, signature).error && unchanged(registry)
    ensures r.Ok? ==>
              var model := r.value;
              var reused := ExistingSession(old(registry.records), path, tags);
              fresh(model) && model.Valid() && !model.disposed && model.outputNodeNamesCache == None &&
              model.registry == registry &&
              model.signature == Resolution(enumObject, file, path, tags, signature).value &&
              model.jsid == old(registry.nextId) && registry.nextId == model.jsid + 1 &&
              (forall id :: id in old(registry.records) ==> id < model.jsid) &&
              model.sessionId == (if reused.Some? then reused.value else newSessionId) &&
              registry.records == old(registry.records)[model.jsid := Record(path, Sort(tags), model.sessionId)] &&
              registry.order == old(registry.order) + [model.jsid] &&
              registry.calls == old(registry.calls) +
                (if reused.Some? then [] else [LoadSavedModelMetaGraph(path, Join(Sort(tags)), newSessionId)])
  {
    var savedModelInfo := GetMetaGraphsFromSavedModel(enumObject, file, path);
    if savedModelInfo.Err? {
      return Err(savedModelInfo.error);
    }
    var signatureDefEntry := GetSignatureDefEntryFromMetaGraphInfo(savedModelInfo.value, tags, signature);
    if signatureDefEntry.Err? {
      return Err(signatureDefEntry.error);
    }
    assert signatureDefEntry == Resolution(enumObject, file, path, tags, signature);
    // A match needs equal lengths, so the comparisons sorted the caller's array in place.
    var sortedTags := Sort(tags);
    var sessionId := AcquireSession(registry, path, tags, newSessionId);
    var id := registry.Register(path, sortedTags, sessionId);
    var savedModel := new TFSavedModel(sessionId, id, signatureDefEntry.value, registry);
    r := Ok(savedModel);
  }

  lemma GpuServeSorted()
    ensures Sort(["serve", "gpu"]) == ["gpu", "serve"] && Sort(["gpu", "serve"]) == ["gpu", "serve"]
    ensures Join(["gpu", "serve"]) == "gpu,serve"
    ensures SameElements(["gpu", "serve"], ["gpu", "serve"])
  {
    assert LessEq("gpu", "serve");
    SortPair("gpu", "serve");
    SortOfPermutation(["gpu", "serve"], ["serve", "gpu"]);
    JoinPair("gpu", "serve");
  }

  /** A registry holding one record reuses its session for a load that matches it. */
  lemma ExistingSessionOfOne(id: nat, record: Record, path: string, tags: seq<string>)
    requires Matches(record, path, tags)
    ensures ExistingSession(map[id := record], path, tags) == Some(record.sessionId)
  {
    var records := map[id := record];
    assert id in records && Matches(records[id], path, tags);
  }

  /** The first load into an empty registry creates a session. */
  method LoadFirst(enumObject: Entries<int>, file: Option<SavedModelMessage>, path: string, signature: string)
    returns (registry: SavedModelRegistry, ma: TFSavedModel)
    requires Resolution(enumObject, file, path, ["serve", "gpu"], signature).Ok?
    ensures fresh(registry) && fresh(ma)
    ensures registry.Valid() && ma.registry == registry
    ensures !ma.disposed && ma.sessionId == 7 && ma.jsid == 0 && registry.nextId == 1
    ensures registry.records == map[0 := Record(path, ["gpu", "serve"], 7)]
    ensures registry.calls == [LoadSavedModelMetaGraph(path, "gpu,serve", 7)]
  {
    registry := new SavedModelRegistry();
    GpuServeSorted();
    var a := LoadSavedModel(registry, enumObject, file, path, ["serve", "gpu"], signature, 7);
    ma := a.value;
  }

  /** Two loads of the same model with the tags in a different order share one backend
      session, created by the first. */
  method LoadTwice(enumObject: Entries<int>, file: Option<SavedModelMessage>, path: string, signature: string)
    returns (registry: SavedModelRegistry, ma: TFSavedModel, mb: TFSavedModel)
    requires Resolution(enumObject, file, path, ["serve", "gpu"], signature).Ok?
    ensures fresh(registry) && fresh(ma) && fresh(mb) && ma != mb
    ensures registry.Valid() && ma.registry == registry && mb.registry == registry
    ensures !ma.disposed && !mb.disposed && ma.sessionId == 7 && mb.sessionId == 7 && ma.jsid == 0 && mb.jsid == 1
    ensures registry.records == map[0 := Record(path, ["gpu", "serve"], 7), 1 := Record(path, ["gpu", "serve"], 7)]
    ensures registry.calls == [LoadSavedModelMetaGraph(path, "gpu,serve", 7)]
  {
    registry, ma := LoadFirst(enumObject, file, path, signature);
    GpuServeSorted();
    TagOrderIrrelevant(DecodedMetaGraphs(enumObject, file, path).value, ["serve", "gpu"], ["gpu", "serve"], signature);
    ExistingSessionOfOne(0, Record(path, ["gpu", "serve"], 7), path, ["gpu", "serve"]);
    var b := LoadSavedModel(registry, enumObject, file, path, ["gpu", "serve"], signature, 8);
    mb := b.value;
  }

  /** Disposing the first of two handles that share a session keeps the session, disposing
      the second releases it, and disposing either again fails. */
  method ReleaseBoth(registry: SavedModelRegistry, ma: TFSavedModel, mb: TFSavedModel)
    returns (first: Outcome<Error>, second: Outcome<Error>, again: Outcome<Error>)
    requires registry.Valid() && ma.registry == registry && mb.registry == registry && ma != mb
    requires !ma.disposed && !mb.disposed && ma.sessionId == mb.sessionId && ma.jsid != mb.jsid
    requires registry.records.Keys == {ma.jsid, mb.jsid} && registry.records[mb.jsid].sessionId == mb.sessionId
    modifies registry, ma, mb
    ensures first == Pass && second == Pass && again == Fail(AlreadyDisposed)
    ensures registry.calls == old(registry.calls) + [DisposeSession(ma.sessionId)]
  {
    first := ma.Dispose();
    assert registry.records.Keys == {mb.jsid};
    assert SessionInUse(registry.records, ma.sessionId) by {
      assert registry.records[mb.jsid].sessionId == ma.sessionId;
    }
    second := mb.Dispose();
    assert registry.records.Keys == {};
    assert !SessionInUse(registry.records, mb.sessionId);
    again := ma.Dispose();
  }

  /** Two loads of one model with the tags in a different order, then both disposed: one
      backend session is created and released once. */
  method ShareThenRelease(enumObject: Entries<int>, file: Option<SavedModelMessage>, path: string, signature: string)
    returns (first: Outcome<Error>, second: Outcome<Error>, again: Outcome<Error>, ghost calls: seq<BackendCall>)
    requires Resolution(enumObject, file, path, ["serve", "gpu"], signature).Ok?
    ensures first == Pass && second == Pass && again == Fail(AlreadyDisposed)
    ensures calls == [LoadSavedModelMetaGraph(path, "gpu,serve", 7), DisposeSession(7)]
  {
    var registry, ma, mb := LoadTwice(enumObject, file, path, signature);
    first, second, again := ReleaseBoth(registry, ma, mb);
    calls := registry.calls;
  }

  /** With `dispose` as written, a handle loaded with both defaults cannot be disposed: it
      stays registered and its session is never released. */
  method DisposeRefusedAsWritten(enumObject: Entries<int>, file: Option<SavedModelMessage>, path: string)
    returns (outcome: Outcome<Error>, registered: bool, ghost calls: seq<BackendCall>)
    requires Resolution(enumObject, file, path, DEFAULT_TAGS, DEFAULT_SIGNATURE).Ok?
    ensures outcome == Fail(AlreadyDisposed) && registered
    ensures calls == [LoadSavedModelMetaGraph(path, "serve", 3)]
  {
    var registry := new SavedModelRegistry();
    assert Sort(DEFAULT_TAGS) == DEFAULT_TAGS by {
      assert Insert("serve", []) == ["serve"];
    }
    assert Join(DEFAULT_TAGS) == "serve";
    var a := LoadSavedModel(registry, enumObject, file, path, DEFAULT_TAGS, DEFAULT_SIGNATURE, 3);
    var model := a.value;
    outcome := model.DisposeAsWritten();
    registered := model.jsid in registry.records;
    calls := registry.calls;
  }
}
