/** `getMetaGraphsFromSavedModel` (saved_moddule.ts:39-112) over the already-decoded
    protobuf record tree, and the metadata types it produces. */
module MetaGraphs {
  import opened Wrappers
  import opened OrderedMaps
  import opened Dtypes

  const SAVED_MODEL_INIT_OP_KEY: string := "_saved_model_init_op"

  // The decoded `SavedModel` message: what the generated `get*` accessors expose.

  /** A `TensorShapeProto.Dim`, carried through unchanged. */
  datatype Dim = Dim(size: int, name: string)
  datatype TensorInfoMessage = TensorInfoMessage(name: string, dtype: int, dims: seq<Dim>)
  datatype SignatureDefMessage = SignatureDefMessage(inputs: Entries<TensorInfoMessage>, outputs: Entries<TensorInfoMessage>)
  datatype MetaGraphMessage = MetaGraphMessage(tags: seq<string>, signatureDefs: Entries<SignatureDefMessage>)
  datatype SavedModelMessage = SavedModelMessage(metaGraphs: seq<MetaGraphMessage>)

  // The metadata the loader builds from it.

  datatype ModelTensorInfo = ModelTensorInfo(name: string, dtype: DataType, tfDtype: string, shape: seq<Dim>)
  datatype SignatureDefEntry = SignatureDefEntry(inputs: Entries<ModelTensorInfo>, outputs: Entries<ModelTensorInfo>)
  datatype MetaGraph = MetaGraph(tags: seq<string>, signatureDefs: Entries<SignatureDefEntry>)

  /** The body of the inner loops (saved_moddule.ts:75-81, 94-101) for one tensor. */
  function TensorInfoOf(enumObject: Entries<int>, t: TensorInfoMessage): Result<ModelTensorInfo, Error> {
    match ResolveDtype(enumObject, t.dtype)
    case Err(e) => Err(e)
    case Ok(resolved) => Ok(ModelTensorInfo(t.name, resolved.0, resolved.1, t.dims))
  }

  /** A tensor map built into `acc` from the entries not yet visited. */
  function TensorMapFrom(enumObject: Entries<int>, acc: Entries<ModelTensorInfo>, rest: Entries<TensorInfoMessage>)
    : (r: Result<Entries<ModelTensorInfo>, Error>)
    ensures r.Err? ==> r.error.UnsupportedType?
    decreases |rest|
  {
    if rest == [] then Ok(acc)
    else match TensorInfoOf(enumObject, rest[0].1)
      case Err(e) => Err(e)
      case Ok(info) => TensorMapFrom(enumObject, Put(acc, rest[0].0, info), rest[1..])
  }

  function TensorMap(enumObject: Entries<int>, entries: Entries<TensorInfoMessage>): Result<Entries<ModelTensorInfo>, Error> {
    TensorMapFrom(enumObject, [], entries)
  }

  function SignatureEntryOf(enumObject: Entries<int>, s: SignatureDefMessage): Result<SignatureDefEntry, Error> {
    match TensorMap(enumObject, s.inputs)
    case Err(e) => Err(e)
    case Ok(inputs) =>
      match TensorMap(enumObject, s.outputs)
      case Err(e) => Err(e)
      case Ok(outputs) => Ok(SignatureDefEntry(inputs, outputs))
  }

  /** The signature dictionary built into `acc`; the init-op entry is passed over. */
  function SignatureDefsFrom(enumObject: Entries<int>, acc: Entries<SignatureDefEntry>, rest: Entries<SignatureDefMessage>)
    : (r: Result<Entries<SignatureDefEntry>, Error>)
    ensures r.Err? ==> r.error.UnsupportedType?
    decreases |rest|
  {
    if rest == [] then Ok(acc)
    else if rest[0].0 == SAVED_MODEL_INIT_OP_KEY then SignatureDefsFrom(enumObject, acc, rest[1..])
    else match SignatureEntryOf(enumObject, rest[0].1)
      case Err(e) => Err(e)
      case Ok(entry) => SignatureDefsFrom(enumObject, Put(acc, rest[0].0, entry), rest[1..])
  }

  function MetaGraphOf(enumObject: Entries<int>, g: MetaGraphMessage): Result<MetaGraph, Error> {
    match SignatureDefsFrom(enumObject, [], g.signatureDefs)
    case Err(e) => Err(e)
    case Ok(defs) => Ok(MetaGraph(g.tags, defs))
  }

  function MetaGraphsFrom(enumObject: Entries<int>, acc: seq<MetaGraph>, rest: seq<MetaGraphMessage>)
    : (r: Result<seq<MetaGraph>, Error>)
    ensures r.Err? ==> r.error.UnsupportedType?
    decreases |rest|
  {
    if rest == [] then Ok(acc)
    else match MetaGraphOf(enumObject, rest[0])
      case Err(e) => Err(e)
      case Ok(g) => MetaGraphsFrom(enumObject, acc + [g], rest[1..])
  }

  /** Every tensor dictionary of a decoded signature has distinct keys, as a JavaScript
      object does. */
  predicate WellFormedEntry(entry: SignatureDefEntry) {
    DistinctKeys(entry.inputs) && DistinctKeys(entry.outputs)
  }

  predicate WellFormedDefs(defs: Entries<SignatureDefEntry>) {
    forall e :: e in defs ==> WellFormedEntry(e.1)
  }

  /** What `getMetaGraphsFromSavedModel(path)` resolves to; `file` is the decoded
      `saved_model.pb` under `path`, or `None` when it cannot be read. */
  function DecodedMetaGraphs(enumObject: Entries<int>, file: Option<SavedModelMessage>, path: string): Result<seq<MetaGraph>, Error> {
    match file
    case None => Err(ModelFileNotFound(path))
    case Some(m) => MetaGraphsFrom(enumObject, [], m.metaGraphs)
  }

  // ---------------------------------------------------------------------------
  // Properties of the decoding.

  /** A tensor map is built iff every tensor's dtype maps; otherwise the error is that of
      the first tensor that does not. */
  lemma {:induction false} TensorMapFromResult(enumObject: Entries<int>, acc: Entries<ModelTensorInfo>, rest: Entries<TensorInfoMessage>)
    ensures TensorMapFrom(enumObject, acc, rest).Ok? <==> forall i :: 0 <= i < |rest| ==> TensorInfoOf(enumObject, rest[i].1).Ok?
    ensures TensorMapFrom(enumObject, acc, rest).Err? ==>
              exists i :: 0 <= i < |rest| && TensorInfoOf(enumObject, rest[i].1) == Err(TensorMapFrom(enumObject, acc, rest).error) &&
                          forall j :: 0 <= j < i ==> TensorInfoOf(enumObject, rest[j].1).Ok?
    ensures DistinctKeys(acc) && TensorMapFrom(enumObject, acc, rest).Ok? ==> DistinctKeys(TensorMapFrom(enumObject, acc, rest).value)
    decreases |rest|
  {
    if rest != [] {
      assert forall i :: 1 <= i < |rest| ==> rest[i] == rest[1..][i - 1];
      match TensorInfoOf(enumObject, rest[0].1)
      case Err(e) =>
      case Ok(info) =>
        if DistinctKeys(acc) { PutDistinct(acc, rest[0].0, info); }
        TensorMapFromResult(enumObject, Put(acc, rest[0].0, info), rest[1..]);
        var r := TensorMapFrom(enumObject, acc, rest);
        if r.Err? {
          var i :| 0 <= i < |rest[1..]| && TensorInfoOf(enumObject, rest[1..][i].1) == Err(r.error) &&
                   forall j :: 0 <= j < i ==> TensorInfoOf(enumObject, rest[1..][j].1).Ok?;
          assert TensorInfoOf(enumObject, rest[i + 1].1) == Err(r.error);
        }
    }
  }

  /** The infos of `entries`, one per entry and in entry order, when every dtype maps. */
  function InfosOf(enumObject: Entries<int>, entries: Entries<TensorInfoMessage>): (m: Entries<ModelTensorInfo>)
    requires forall i :: 0 <= i < |entries| ==> TensorInfoOf(enumObject, entries[i].1).Ok?
    ensures |m| == |entries|
  {
    seq(|entries|, i requires 0 <= i < |entries| => (entries[i].0, TensorInfoOf(enumObject, entries[i].1).value))
  }

  /** With distinct keys (a protobuf map) each entry becomes one info, in entry order,
      after what `acc` already holds. */
  lemma {:induction false} TensorMapFromEntries(enumObject: Entries<int>, acc: Entries<ModelTensorInfo>, rest: Entries<TensorInfoMessage>)
    requires DistinctKeys(rest) && forall i :: 0 <= i < |rest| ==> rest[i].0 !in Keys(acc)
    requires forall i :: 0 <= i < |rest| ==> TensorInfoOf(enumObject, rest[i].1).Ok?
    ensures TensorMapFrom(enumObject, acc, rest) == Ok(acc + InfosOf(enumObject, rest))
    decreases |rest|
  {
    if rest == [] {
      assert acc + InfosOf(enumObject, rest) == acc;
    } else {
      TensorMapStep(enumObject, acc, rest);
      var acc' := acc + [(rest[0].0, TensorInfoOf(enumObject, rest[0].1).value)];
      InfosOfCons(enumObject, rest);
      TensorMapFromEntries(enumObject, acc', rest[1..]);
      InfosOfCons(enumObject, rest);
      assert acc + InfosOf(enumObject, rest) == acc' + InfosOf(enumObject, rest[1..]);
    }
  }

  lemma InfosOfCons(enumObject: Entries<int>, entries: Entries<TensorInfoMessage>)
    requires entries != [] && forall i :: 0 <= i < |entries| ==> TensorInfoOf(enumObject, entries[i].1).Ok?
    ensures forall i :: 0 <= i < |entries[1..]| ==> TensorInfoOf(enumObject, entries[1..][i].1).Ok?
    ensures InfosOf(enumObject, entries) ==
              [(entries[0].0, TensorInfoOf(enumObject, entries[0].1).value)] + InfosOf(enumObject, entries[1..])
  {
    assert forall i :: 0 <= i < |entries[1..]| ==> entries[1..][i] == entries[i + 1];
  }

  /** One step of the above: putting a key that is new appends it, and the remaining
      entries still have keys that are not yet present. */
  lemma TensorMapStep(enumObject: Entries<int>, acc: Entries<ModelTensorInfo>, rest: Entries<TensorInfoMessage>)
    requires rest != [] && DistinctKeys(rest) && forall i :: 0 <= i < |rest| ==> rest[i].0 !in Keys(acc)
    requires TensorInfoOf(enumObject, rest[0].1).Ok?
    ensures var acc' := acc + [(rest[0].0, TensorInfoOf(enumObject, rest[0].1).value)];
            TensorMapFrom(enumObject, acc, rest) == TensorMapFrom(enumObject, acc', rest[1..]) &&
            DistinctKeys(rest[1..]) && forall i :: 0 <= i < |rest[1..]| ==> rest[1..][i].0 !in Keys(acc')
  {
    var info := TensorInfoOf(enumObject, rest[0].1).value;
    PutAbsent(acc, rest[0].0, info);
    var acc' := acc + [(rest[0].0, info)];
    assert Keys(acc') == Keys(acc) + [rest[0].0];
    forall i | 0 <= i < |rest[1..]| ensures rest[1..][i].0 !in Keys(acc') {
      assert rest[1..][i] == rest[i + 1];
    }
    forall i, j | 0 <= i < j < |rest[1..]| ensures rest[1..][i].0 != rest[1..][j].0 {
      assert rest[1..][i] == rest[i + 1] && rest[1..][j] == rest[j + 1];
    }
  }

  /** The map built for a protobuf map: its keys in order, each with the info of its tensor. */
  lemma DecodedTensorMap(enumObject: Entries<int>, entries: Entries<TensorInfoMessage>)
    requires DistinctKeys(entries)
    ensures TensorMap(enumObject, entries).Ok? <==> forall i :: 0 <= i < |entries| ==> TensorInfoOf(enumObject, entries[i].1).Ok?
    ensures TensorMap(enumObject, entries).Ok? ==>
              var m := TensorMap(enumObject, entries).value;
              Keys(m) == Keys(entries) &&
              forall i :: 0 <= i < |entries| ==> TensorInfoOf(enumObject, entries[i].1) == Ok(m[i].1)
  {
    var empty: Entries<ModelTensorInfo> := [];
    assert |Keys(empty)| == 0;
    TensorMapFromResult(enumObject, [], entries);
    if TensorMap(enumObject, entries).Ok? {
      TensorMapFromEntries(enumObject, [], entries);
      assert empty + InfosOf(enumObject, entries) == InfosOf(enumObject, entries);
    }
  }

  /** The signature dictionary holds no init-op entry, no key the record does not have,
      and distinct keys; it is built iff every other signature decodes. */
  lemma {:induction false} SignatureDefsFromResult(enumObject: Entries<int>, acc: Entries<SignatureDefEntry>, rest: Entries<SignatureDefMessage>)
    ensures SignatureDefsFrom(enumObject, acc, rest).Ok? <==>
              forall i :: 0 <= i < |rest| && rest[i].0 != SAVED_MODEL_INIT_OP_KEY ==> SignatureEntryOf(enumObject, rest[i].1).Ok?
    ensures SignatureDefsFrom(enumObject, acc, rest).Ok? ==>
              var m := SignatureDefsFrom(enumObject, acc, rest).value;
              (SAVED_MODEL_INIT_OP_KEY !in Keys(acc) ==> SAVED_MODEL_INIT_OP_KEY !in Keys(m)) &&
              (DistinctKeys(acc) ==> DistinctKeys(m)) &&
              (forall k :: k in Keys(m) ==> k in Keys(acc) || k in Keys(rest)) &&
              (forall i :: 0 <= i < |rest| && rest[i].0 != SAVED_MODEL_INIT_OP_KEY ==> rest[i].0 in Keys(m)) &&
              (forall k :: k in Keys(acc) ==> k in Keys(m))
    decreases |rest|
  {
    if rest != [] {
      assert forall i :: 1 <= i < |rest| ==> rest[i] == rest[1..][i - 1];
      assert Keys(rest) == [rest[0].0] + Keys(rest[1..]);
      if rest[0].0 == SAVED_MODEL_INIT_OP_KEY {
        SignatureDefsFromResult(enumObject, acc, rest[1..]);
      } else {
        match SignatureEntryOf(enumObject, rest[0].1)
        case Err(e) =>
        case Ok(entry) =>
          var acc' := Put(acc, rest[0].0, entry);
          PutKeys(acc, rest[0].0, entry);
          if DistinctKeys(acc) { PutDistinct(acc, rest[0].0, entry); }
          SignatureDefsFromResult(enumObject, acc', rest[1..]);
      }
    }
  }

  /** One metagraph per record, in record order, each with that record's tags. */
  lemma {:induction false} MetaGraphsFromResult(enumObject: Entries<int>, acc: seq<MetaGraph>, rest: seq<MetaGraphMessage>)
    ensures MetaGraphsFrom(enumObject, acc, rest).Ok? <==> forall i :: 0 <= i < |rest| ==> MetaGraphOf(enumObject, rest[i]).Ok?
    ensures MetaGraphsFrom(enumObject, acc, rest).Ok? ==>
              var gs := MetaGraphsFrom(enumObject, acc, rest).value;
              |gs| == |acc| + |rest| && gs[..|acc|] == acc &&
              forall i :: 0 <= i < |rest| ==> MetaGraphOf(enumObject, rest[i]) == Ok(gs[|acc| + i])
    decreases |rest|
  {
    if rest != [] {
      assert forall i :: 1 <= i < |rest| ==> rest[i] == rest[1..][i - 1];
      match MetaGraphOf(enumObject, rest[0])
      case Err(e) =>
      case Ok(g) =>
        MetaGraphsFromResult(enumObject, acc + [g], rest[1..]);
        var r := MetaGraphsFrom(enumObject, acc, rest);
        if r.Ok? {
          var gs := r.value;
          assert gs[..|acc| + 1] == acc + [g];
          assert gs[..|acc|] == (acc + [g])[..|acc|] == acc;
          forall i | 0 <= i < |rest| ensures MetaGraphOf(enumObject, rest[i]) == Ok(gs[|acc| + i]) {
            if i == 0 {
              assert gs[|acc|] == (acc + [g])[|acc|];
            } else {
              assert |acc| + i == |acc + [g]| + (i - 1);
            }
          }
        }
    }
  }

  /** The candidate properties of `getMetaGraphsFromSavedModel` together: a missing file is
      reported by path; otherwise the result has one metagraph per record, in order, with
      that record's tags, no init-op signature, and every other signature of the record;
      and it fails exactly when some tensor of a non-init signature has an unmapped dtype. */
  lemma DecodedMetaGraphsProperties(enumObject: Entries<int>, file: Option<SavedModelMessage>, path: string)
    ensures file.None? ==> DecodedMetaGraphs(enumObject, file, path) == Err(ModelFileNotFound(path))
    ensures file.Some? ==>
              (DecodedMetaGraphs(enumObject, file, path).Ok? <==>
                 forall i, j :: 0 <= i < |file.value.metaGraphs| && 0 <= j < |file.value.metaGraphs[i].signatureDefs| &&
                                file.value.metaGraphs[i].signatureDefs[j].0 != SAVED_MODEL_INIT_OP_KEY ==>
                                  SignatureEntryOf(enumObject, file.value.metaGraphs[i].signatureDefs[j].1).Ok?)
    ensures file.Some? && DecodedMetaGraphs(enumObject, file, path).Ok? ==>
              var records := file.value.metaGraphs;
              var gs := DecodedMetaGraphs(enumObject, file, path).value;
              |gs| == |records| &&
              forall i :: 0 <= i < |records| ==>
                gs[i].tags == records[i].tags &&
                SAVED_MODEL_INIT_OP_KEY !in Keys(gs[i].signatureDefs) &&
                DistinctKeys(gs[i].signatureDefs) &&
                (forall k :: k in Keys(gs[i].signatureDefs) ==> k in Keys(records[i].signatureDefs)) &&
                (forall j :: 0 <= j < |records[i].signatureDefs| && records[i].signatureDefs[j].0 != SAVED_MODEL_INIT_OP_KEY ==>
                   records[i].signatureDefs[j].0 in Keys(gs[i].signatureDefs))
  {
    if file.Some? {
      var records := file.value.metaGraphs;
      MetaGraphsFromResult(enumObject, [], records);
      forall i | 0 <= i < |records|
        ensures MetaGraphOf(enumObject, records[i]).Ok? <==>
                  forall j :: 0 <= j < |records[i].signatureDefs| && records[i].signatureDefs[j].0 != SAVED_MODEL_INIT_OP_KEY ==>
                    SignatureEntryOf(enumObject, records[i].signatureDefs[j].1).Ok?
        ensures MetaGraphOf(enumObject, records[i]).Ok? ==>
                  var g := MetaGraphOf(enumObject, records[i]).value;
                  g.tags == records[i].tags &&
                  SAVED_MODEL_INIT_OP_KEY !in Keys(g.signatureDefs) &&
                  DistinctKeys(g.signatureDefs) &&
                  (forall k :: k in Keys(g.signatureDefs) ==> k in Keys(records[i].signatureDefs)) &&
                  (forall j :: 0 <= j < |records[i].signatureDefs| && records[i].signatureDefs[j].0 != SAVED_MODEL_INIT_OP_KEY ==>
                     records[i].signatureDefs[j].0 in Keys(g.signatureDefs))
      {
        SignatureDefsFromResult(enumObject, [], records[i].signatureDefs);
      }
    }
  }

  /** With distinct record keys, each non-init signature is stored under its own key as
      that signature decoded, and every key already built keeps its entry. */
  lemma {:induction false} SignatureDefsFromLookup(enumObject: Entries<int>, acc: Entries<SignatureDefEntry>, rest: Entries<SignatureDefMessage>)
    requires DistinctKeys(rest) && forall i :: 0 <= i < |rest| ==> rest[i].0 !in Keys(acc)
    requires SignatureDefsFrom(enumObject, acc, rest).Ok?
    ensures var m := SignatureDefsFrom(enumObject, acc, rest).value;
            (forall k :: k in Keys(acc) ==> Lookup(m, k) == Lookup(acc, k)) &&
            forall i :: 0 <= i < |rest| && rest[i].0 != SAVED_MODEL_INIT_OP_KEY ==>
              Lookup(m, rest[i].0).Some? && SignatureEntryOf(enumObject, rest[i].1) == Ok(Lookup(m, rest[i].0).value)
    decreases |rest|
  {
    if rest != [] {
      var m := SignatureDefsFrom(enumObject, acc, rest).value;
      assert forall i :: 1 <= i < |rest| ==> rest[i] == rest[1..][i - 1];
      assert DistinctKeys(rest[1..]) by {
        forall i, j | 0 <= i < j < |rest[1..]| ensures rest[1..][i].0 != rest[1..][j].0 {
          assert rest[1..][i] == rest[i + 1] && rest[1..][j] == rest[j + 1];
        }
      }
      if rest[0].0 == SAVED_MODEL_INIT_OP_KEY {
        SignatureDefsFromLookup(enumObject, acc, rest[1..]);
      } else {
        var entry := SignatureEntryOf(enumObject, rest[0].1).value;
        var acc' := Put(acc, rest[0].0, entry);
        PutKeys(acc, rest[0].0, entry);
        assert Keys(acc') == Keys(acc) + [rest[0].0];
        assert forall i :: 0 <= i < |rest[1..]| ==> rest[1..][i].0 !in Keys(acc') by {
          forall i | 0 <= i < |rest[1..]| ensures rest[1..][i].0 !in Keys(acc') {
            assert rest[1..][i] == rest[i + 1];
          }
        }
        SignatureDefsFromLookup(enumObject, acc', rest[1..]);
        PutLookup(acc, rest[0].0, entry, rest[0].0);
        forall k | k in Keys(acc) ensures Lookup(m, k) == Lookup(acc, k) {
          PutLookup(acc, rest[0].0, entry, k);
        }
      }
    }
  }

  /** The signature dictionary of a decoded metagraph holds, under each key of a record with
      distinct signature keys, that record's signature decoded. */
  lemma DecodedSignatureEntries(enumObject: Entries<int>, file: Option<SavedModelMessage>, path: string)
    ensures file.Some? && DecodedMetaGraphs(enumObject, file, path).Ok? ==>
              var records := file.value.metaGraphs;
              var gs := DecodedMetaGraphs(enumObject, file, path).value;
              |gs| == |records| &&
              forall i, j :: 0 <= i < |records| && DistinctKeys(records[i].signatureDefs) &&
                             0 <= j < |records[i].signatureDefs| && records[i].signatureDefs[j].0 != SAVED_MODEL_INIT_OP_KEY ==>
                Lookup(gs[i].signatureDefs, records[i].signatureDefs[j].0).Some? &&
                SignatureEntryOf(enumObject, records[i].signatureDefs[j].1) ==
                  Ok(Lookup(gs[i].signatureDefs, records[i].signatureDefs[j].0).value)
  {
    if file.Some? && DecodedMetaGraphs(enumObject, file, path).Ok? {
      var records := file.value.metaGraphs;
      var gs := DecodedMetaGraphs(enumObject, file, path).value;
      MetaGraphsFromResult(enumObject, [], records);
      forall i | 0 <= i < |records| && DistinctKeys(records[i].signatureDefs)
        ensures forall j :: 0 <= j < |records[i].signatureDefs| && records[i].signatureDefs[j].0 != SAVED_MODEL_INIT_OP_KEY ==>
                  Lookup(gs[i].signatureDefs, records[i].signatureDefs[j].0).Some? &&
                  SignatureEntryOf(enumObject, records[i].signatureDefs[j].1) ==
                    Ok(Lookup(gs[i].signatureDefs, records[i].signatureDefs[j].0).value)
      {
        assert MetaGraphOf(enumObject, records[i]) == Ok(gs[i]);
        var empty: Entries<SignatureDefEntry> := [];
        assert |Keys(empty)| == 0;
        SignatureDefsFromLookup(enumObject, empty, records[i].signatureDefs);
      }
    }
  }

  lemma SignatureEntryWellFormed(enumObject: Entries<int>, s: SignatureDefMessage)
    requires SignatureEntryOf(enumObject, s).Ok?
    ensures WellFormedEntry(SignatureEntryOf(enumObject, s).value)
  {
    TensorMapFromResult(enumObject, [], s.inputs);
    TensorMapFromResult(enumObject, [], s.outputs);
  }

  lemma {:induction false} SignatureDefsWellFormed(enumObject: Entries<int>, acc: Entries<SignatureDefEntry>, rest: Entries<SignatureDefMessage>)
    requires WellFormedDefs(acc)
    ensures SignatureDefsFrom(enumObject, acc, rest).Ok? ==> WellFormedDefs(SignatureDefsFrom(enumObject, acc, rest).value)
    decreases |rest|
  {
    if rest != [] {
      if rest[0].0 == SAVED_MODEL_INIT_OP_KEY {
        SignatureDefsWellFormed(enumObject, acc, rest[1..]);
      } else {
        match SignatureEntryOf(enumObject, rest[0].1)
        case Err(e) =>
        case Ok(entry) =>
          SignatureEntryWellFormed(enumObject, rest[0].1);
          PutMembers(acc, rest[0].0, entry);
          SignatureDefsWellFormed(enumObject, Put(acc, rest[0].0, entry), rest[1..]);
      }
    }
  }

  /** Every signature of every decoded metagraph has distinct tensor keys. */
  lemma DecodedMetaGraphsWellFormed(enumObject: Entries<int>, file: Option<SavedModelMessage>, path: string)
    ensures DecodedMetaGraphs(enumObject, file, path).Ok? ==>
              forall g :: g in DecodedMetaGraphs(enumObject, file, path).value ==> WellFormedDefs(g.signatureDefs)
  {
    if file.Some? && DecodedMetaGraphs(enumObject, file, path).Ok? {
      var records := file.value.metaGraphs;
      var gs := DecodedMetaGraphs(enumObject, file, path).value;
      MetaGraphsFromResult(enumObject, [], records);
      forall g | g in gs ensures WellFormedDefs(g.signatureDefs) {
        var i :| 0 <= i < |gs| && gs[i] == g;
        assert MetaGraphOf(enumObject, records[i]) == Ok(g);
        var empty: Entries<SignatureDefEntry> := [];
        SignatureDefsWellFormed(enumObject, empty, records[i].signatureDefs);
      }
    }
  }

  /** A tensor whose dtype does not map, in any non-init signature of any record, makes the
      whole decoding fail with an `UnsupportedType` error. */
  lemma UnmappedDtypeAborts(enumObject: Entries<int>, m: SavedModelMessage, path: string, i: nat, j: nat, k: nat, isInput: bool)
    requires i < |m.metaGraphs| && j < |m.metaGraphs[i].signatureDefs|
    requires m.metaGraphs[i].signatureDefs[j].0 != SAVED_MODEL_INIT_OP_KEY
    requires var s := m.metaGraphs[i].signatureDefs[j].1;
             var tensors := if isInput then s.inputs else s.outputs;
             k < |tensors| && TensorInfoOf(enumObject, tensors[k].1).Err?
    ensures DecodedMetaGraphs(enumObject, Some(m), path).Err?
    ensures DecodedMetaGraphs(enumObject, Some(m), path).error.UnsupportedType?
  {
    var s := m.metaGraphs[i].signatureDefs[j].1;
    TensorMapFromResult(enumObject, [], s.inputs);
    TensorMapFromResult(enumObject, [], s.outputs);
    DecodedMetaGraphsProperties(enumObject, Some(m), path);
  }

  // ---------------------------------------------------------------------------
  // The loops.

  /** The inputs loop (saved_moddule.ts:68-83), which the outputs loop is meant to repeat. */
  method DecodeTensorMap(enumObject: Entries<int>, entries: Entries<TensorInfoMessage>) returns (r: Result<Entries<ModelTensorInfo>, Error>)
    ensures r == TensorMap(enumObject, entries)
  {
    var tensors: Entries<ModelTensorInfo> := [];
    var i := 0;
    while i < |entries|
      invariant 0 <= i <= |entries|
      invariant TensorMapFrom(enumObject, tensors, entries[i..]) == TensorMap(enumObject, entries)
    {
      assert entries[i..][1..] == entries[i + 1..];
      var info := TensorInfoOf(enumObject, entries[i].1);
      if info.Err? {
        return Err(info.error);
      }
      tensors := Put(tensors, entries[i].0, info.value);
      i := i + 1;
    }
    return Ok(tensors);
  }

  /** The signature loop (saved_moddule.ts:56-106), with the outputs loop as intended. */
  method DecodeSignatureDefs(enumObject: Entries<int>, signatureDefMap: Entries<SignatureDefMessage>)
    returns (r: Result<Entries<SignatureDefEntry>, Error>)
    ensures r == SignatureDefsFrom(enumObject, [], signatureDefMap)
  {
    var signatureDef: Entries<SignatureDefEntry> := [];
    var i := 0;
    while i < |signatureDefMap|
      invariant 0 <= i <= |signatureDefMap|
      invariant SignatureDefsFrom(enumObject, signatureDef, signatureDefMap[i..]) == SignatureDefsFrom(enumObject, [], signatureDefMap)
    {
      assert signatureDefMap[i..][1..] == signatureDefMap[i + 1..];
      var key := signatureDefMap[i].0;
      if key == SAVED_MODEL_INIT_OP_KEY {
        i := i + 1;
        continue;
      }
      var inputs := DecodeTensorMap(enumObject, signatureDefMap[i].1.inputs);
      if inputs.Err? {
        return Err(inputs.error);
      }
      var outputs := DecodeTensorMap(enumObject, signatureDefMap[i].1.outputs);
      if outputs.Err? {
        return Err(outputs.error);
      }
      signatureDef := Put(signatureDef, key, SignatureDefEntry(inputs.value, outputs.value));
      i := i + 1;
    }
    return Ok(signatureDef);
  }

  /** `getMetaGraphsFromSavedModel`: one metagraph pushed per record (saved_moddule.ts:47-109);
      `file` stands for `readSavedModelProto(path)` (saved_moddule.ts:24-35). */
  method GetMetaGraphsFromSavedModel(enumObject: Entries<int>, file: Option<SavedModelMessage>, path: string)
    returns (r: Result<seq<MetaGraph>, Error>)
    ensures r == DecodedMetaGraphs(enumObject, file, path)
  {
    if file.None? {
      return Err(ModelFileNotFound(path));
    }
    var metaGraphList := file.value.metaGraphs;
    var result: seq<MetaGraph> := [];
    var i := 0;
    while i < |metaGraphList|
      invariant 0 <= i <= |metaGraphList|
      invariant MetaGraphsFrom(enumObject, result, metaGraphList[i..]) == MetaGraphsFrom(enumObject, [], metaGraphList)
    {
      assert metaGraphList[i..][1..] == metaGraphList[i + 1..];
      var signatureDefs := DecodeSignatureDefs(enumObject, metaGraphList[i].signatureDefs);
      if signatureDefs.Err? {
        return Err(signatureDefs.error);
      }
      result := result + [MetaGraph(metaGraphList[i].tags, signatureDefs.value)];
      i := i + 1;
    }
    return Ok(result);
  }

  // ---------------------------------------------------------------------------
  // The outputs loop as written.

  /** What the outputs loop as written produces: never a map. */
  function OutputsAsWritten(enumObject: Entries<int>, outputsMapMessage: Entries<TensorInfoMessage>)
    : (r: Result<Entries<ModelTensorInfo>, Error>)
    ensures r.Err?
    ensures TensorMap(enumObject, outputsMapMessage).Ok? ==> r == Err(UndefinedAccess)
  {
    match TensorMap(enumObject, outputsMapMessage)
    case Err(e) => Err(e)
    case Ok(_) => Err(UndefinedAccess)
  }

  /** saved_moddule.ts:88-104 as written: the exit test reads `outputsMapKeys.done`, a
      property the iterator does not have, so the loop never breaks. The first iteration
      after the keys run out throws a TypeError. The loop therefore always throws: the error
      of the first unmapped dtype if there is one, otherwise that TypeError. */
  method DecodeOutputsAsWritten(enumObject: Entries<int>, outputsMapMessage: Entries<TensorInfoMessage>)
    returns (r: Result<Entries<ModelTensorInfo>, Error>)
    ensures r.Err?
    ensures r == OutputsAsWritten(enumObject, outputsMapMessage)
  {
    var outputs: Entries<ModelTensorInfo> := [];
    var i := 0;
    while true
      invariant 0 <= i <= |outputsMapMessage|
      invariant TensorMapFrom(enumObject, outputs, outputsMapMessage[i..]) == TensorMap(enumObject, outputsMapMessage)
      decreases |outputsMapMessage| - i
    {
      // `outputsMapKeys.done` is undefined: the break is never taken.
      if i == |outputsMapMessage| {
        // The iterator is exhausted: this iteration throws a TypeError.
        return Err(UndefinedAccess);
      }
      assert outputsMapMessage[i..][1..] == outputsMapMessage[i + 1..];
      var info := TensorInfoOf(enumObject, outputsMapMessage[i].1);
      if info.Err? {
        return Err(info.error);
      }
      outputs := Put(outputs, outputsMapMessage[i].0, info.value);
      i := i + 1;
    }
  }

  /** A signature with no outputs at all, which the intended loop decodes to an empty
      map, already makes the loop as written throw. */
  lemma AsWrittenRejectsEmptyOutputs(enumObject: Entries<int>)
    ensures TensorMap(enumObject, []) == Ok([])
    ensures OutputsAsWritten(enumObject, []) == Err(UndefinedAccess)
  {
  }
}
