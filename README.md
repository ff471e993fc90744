# SavedModel loader for the Node.js tensor runtime

This project models the TypeScript module `saved_moddule.ts`, which loads a TensorFlow
SavedModel directory into the Node.js tensor runtime. It proves properties of the model.
The module has five parts:

- **Metadata decoding** walks the decoded `saved_model.pb` record tree. It builds one
  metagraph per record. Each metagraph holds its tags and its signature dictionary, and the
  `_saved_model_init_op` entry is skipped. Every tensor gets a host dtype from
  `mapTFDtypeToJSDtype`, and an unmapped dtype aborts the decoding.
- **Signature resolution** picks the first metagraph whose tags compare equal to the request
  under `stringArraysHaveSameElements`. It fails with "does not have tags" or with "does not
  have a signature".
- **Session registry**: `loadedSavedModelPathMap` and `nextTFSavedModelId`. It lets a second
  load of the same path with matching tags reuse the backend session of the first.
- **The model handle** `TFSavedModel` provides:
  - the `inputs` and `outputs` getters, which strip a trailing `:0` from tensor names in place;
  - a cached `outputNodeNames` dictionary;
  - `predict` over a single tensor, an array or a name-to-tensor map;
  - `execute`, which always fails;
  - `dispose`, which unregisters the handle and releases the session once no other handle
    uses it.
- **`loadSavedModel`** ties these together.

The model is organised as follows:

- Pure code becomes functions and lemmas: the dtype switch, the comparison, resolution and
  the decoding folds.
- Each loop of the source becomes a `method` whose postcondition ties it to one of those
  functions.
- Each state-changing object becomes a class:
  - the handle is `Model.TFSavedModel`;
  - the registry is `Sessions.SavedModelRegistry`, with a ghost log of the backend calls
    that create and release sessions.

Several parts of the system become parameters:

- the decoded protobuf message (`None` when the file cannot be read);
- the protobuf `DataType` enum object;
- the session id the backend hands out;
- `runSavedModel`, as a function.

JavaScript objects and protobuf maps are ordered key/value sequences (`OrderedMaps.Entries`).
Assignment keeps an existing key in its place and appends a new one.

### Constructs read by their evident intent

The module does not compile as written. The model reads each of these constructs as its
author evidently meant it.

- The class is declared as `TFSavedModelId` (saved_moddule.ts:133). Lines 251 and 276 use
  it as `TFSavedModel`.
- The registry is declared as `loadedSavedModelPathmap` with a field `tagd`
  (saved_moddule.ts:15). Lines 262-277 use `loadedSavedModelPathMap` and `tags`.
- `SAVED_MODEL_FILE_NAME` (saved_moddule.ts:26, 32) is never defined. It is read as the
  file name `saved_model.pb`.
- `fs.accesssSync` (saved_moddule.ts:26) is not a function. Read literally, the catch at
  28-30 would turn every read into the "no saved_model.pb" error. It is read as the
  access check it evidently is.
- `outputNodeNamesArray` (saved_moddule.ts:233) is never defined. It is read as the array
  `outputNodeNameArray` built at 225-228.
- `getSignatureDefEntryFromMetaGraphInfo` is declared `async` but returns a non-Promise
  type (saved_moddule.ts:116-118). Lines 257-258 call it without `await`. Read literally,
  a resolution error would reject a promise nobody awaits, and the load would carry on
  with a Promise as its signature. The model treats the function as synchronous, so a
  resolution error fails the load (`Loader.LoadSavedModel`).
- The class is not closed after `execute` (saved_moddule.ts:248). The last brace, at 316,
  closes it, so as written the functions from 249 on sit inside the class body. They are
  read as module-level functions.

### Where the code departs from what its names suggest

The model follows the code in each of these cases.

- **One might expect tags to be compared as sets; the code compares multisets.** It compares lengths, then the
  comma-joined sorted arrays, so duplicates matter (`Tags.DuplicatesMatter`). Names that
  contain commas can collide (`Tags.CommaCollision`).
- **One might expect a named map to be dispatched in declaration order; the code uses sorted
  name order.** The comparison
  sorts `inputTensorNames` in place before the dispatch loop reads it
  (`Model.SortedDispatchOrder`). The positional forms pass the infos in declaration order.
- **One might expect the getters to strip any `:<digits>` suffix; they strip only a trailing
  `:0`.** They also rewrite the
  names in place, so a name ending in `:0:0` loses one suffix per call
  (`Model.StripSuffixNotIdempotent`).
- **One might expect every handle operation to check the disposed flag; not all do.** Only `predict` and `dispose` do.
  The `inputs`, `outputs` and `outputNodeNames` getters do not, and `execute` fails
  regardless.
- **One might expect `dispose` to set the flag after it unregisters; it sets it before.** This cannot be observed, because
  nothing between the two steps can fail.

## Model

| member | source | states |
|---|---|---|
| Dtypes.MapTFDtypeToJSDtype | saved_moddule.ts:290-309 | an unrecognised tag fails with `UnsupportedType` naming that tag |
| Dtypes.TfTagsOf | saved_moddule.ts:291-303 | the table of the `switch`: each host type with the tags whose cases return it, the three integer tags all under `int32` |
| Dtypes.MapTFDtypeMatchesTable | saved_moddule.ts:290-309 | a tag maps to a host type exactly when it is one of that type's tags in the table; it fails exactly when it is in no type's tag set |
| Dtypes.IntegerWidthsCollapse | saved_moddule.ts:294-297 | `DT_INT64`, `DT_INT32` and `DT_UINT8` all map to `int32` |
| Dtypes.GetEnumKeyFromValue | saved_moddule.ts:20-22 | the result is `undefined` exactly when no key has the value; otherwise it is the first key, in key order, whose value it is |
| Dtypes.ResolveDtype | saved_moddule.ts:77-79 | the dtype number resolves exactly when its first enum key maps to a host type; the result carries that key and the mapped type; every failure is `UnsupportedType` |
| OrderedMaps.Keys | saved_moddule.ts:144 | `Object.keys`: one key per entry, in entry order |
| OrderedMaps.Values | saved_moddule.ts:203 | `Object.values`: one value per entry, in entry order |
| OrderedMaps.Lookup | saved_moddule.ts:122 | `undefined` exactly for a missing key; otherwise a value stored under the key |
| OrderedMaps.LookupDistinct | saved_moddule.ts:188 | with distinct keys, looking up an entry's key yields that entry's value |
| OrderedMaps.Put | saved_moddule.ts:82 | assignment grows the object exactly when the key is new |
| OrderedMaps.PutKeys | saved_moddule.ts:82 | assignment keeps the key order when the key exists and appends the key otherwise |
| OrderedMaps.PutLookup | saved_moddule.ts:82 | after assignment the key reads the new value and every other key reads what it read before |
| OrderedMaps.PutDistinct | saved_moddule.ts:105 | assignment keeps keys distinct |
| OrderedMaps.PutMembers | saved_moddule.ts:105 | assignment stores nothing but the new pair and the old entries |
| OrderedMaps.PutAbsent | saved_moddule.ts:102 | assigning a new key appends the pair at the end |
| OrderedMaps.Zip | saved_moddule.ts:237-240 | the object built from keys and values has exactly those keys and values, in order |
| Tags.LessEq | saved_moddule.ts:284 | the order of the default `sort()`: character by character, the first difference decides, and a prefix comes first |
| Tags.LessEqTotal | saved_moddule.ts:284 | the default sort order relates any two strings |
| Tags.LessEqReflexive | saved_moddule.ts:284 | the sort order is reflexive |
| Tags.LessEqAntisymmetric | saved_moddule.ts:284 | the sort order is antisymmetric |
| Tags.LessEqTransitive | saved_moddule.ts:284 | the sort order is transitive |
| Tags.Insert | saved_moddule.ts:284 | insertion adds exactly one occurrence of the element |
| Tags.InsertSorted | saved_moddule.ts:284 | inserting into a sorted list keeps it sorted |
| Tags.Sort | saved_moddule.ts:284 | `array.sort()` yields a sorted permutation of the array |
| Tags.SortedTail | saved_moddule.ts:284 | the tail of a sorted list is sorted |
| Tags.SortedHeadLeast | saved_moddule.ts:284 | the head of a sorted list is below all of its elements |
| Tags.SortedUnique | saved_moddule.ts:284 | two sorted lists with the same multiset are equal |
| Tags.SortOfPermutation | saved_moddule.ts:284 | sorting depends only on the multiset of elements |
| Tags.SortIdempotent | saved_moddule.ts:284 | sorting a sorted array changes nothing |
| Tags.Join | saved_moddule.ts:284 | `join`, as also used at 217 and 271: the elements in order, separated by commas, with `""` for no elements |
| Tags.JoinInjective | saved_moddule.ts:284 | `join()` is injective on equally long comma-free lists |
| Tags.SortCommaFree | saved_moddule.ts:284 | sorting keeps names comma-free |
| Tags.SameElements | saved_moddule.ts:281-288 | the boolean returned: the lengths agree and the two sorted arrays join to the same string |
| Tags.SameElementsIsMultisetEquality | saved_moddule.ts:281-288 | for comma-free names, the comparison is true iff the two arrays hold the same multiset |
| Tags.SameElementsPermutation | saved_moddule.ts:281-288 | reordering either argument does not change the result |
| Tags.SameElementsSortInvariant | saved_moddule.ts:281-288 | the result is the same whether or not an argument was already sorted by an earlier call |
| Tags.DuplicatesMatter | saved_moddule.ts:281-288 | tag lists with the same set but different multiplicities do not compare equal |
| Tags.CommaCollision | saved_moddule.ts:283-284 | `["a,b","c"]` and `["a","b,c"]` compare equal although their multisets differ |
| Tags.SortMembers | saved_moddule.ts:284 | every element of the sorted array comes from the original |
| Tags.SortInPlace | saved_moddule.ts:284 | after `sort()` the array holds the sorted arrangement of its old contents |
| Tags.StringArraysHaveSameElements | saved_moddule.ts:281-288 | the result is the length test and then the equality of the joined sorted arrays; neither array is touched when the lengths differ; otherwise both are left sorted |
| MetaGraphs.TensorInfoOf | saved_moddule.ts:75-81 | one tensor's info: its dtype code resolved through the enum and the tag table, with its name and shape copied; an unmapped code fails as the tag lookup does |
| MetaGraphs.SignatureEntryOf | saved_moddule.ts:65-105 | one signature's entry: its inputs' and its outputs' tensor dictionaries, failing with the first of the two that fails |
| MetaGraphs.MetaGraphOf | saved_moddule.ts:48-108 | one metagraph: the record's tags and its signature dictionary, or that dictionary's error |
| MetaGraphs.DecodedMetaGraphs | saved_moddule.ts:39-112 | the loader's result: `ModelFileNotFound` for a missing file, else the metagraph list built from every record in order |
| MetaGraphs.TensorMapFrom | saved_moddule.ts:68-83 | building a tensor dictionary fails only with `UnsupportedType` |
| MetaGraphs.SignatureDefsFrom | saved_moddule.ts:56-106 | building the signature dictionary fails only with `UnsupportedType` |
| MetaGraphs.MetaGraphsFrom | saved_moddule.ts:47-109 | building the metagraph list fails only with `UnsupportedType` |
| MetaGraphs.TensorMapFromResult | saved_moddule.ts:68-83 | a tensor dictionary is built iff every tensor's dtype maps; the error is the first unmapped tensor's; keys stay distinct |
| MetaGraphs.TensorMapFromEntries | saved_moddule.ts:68-83 | for a protobuf map, each entry becomes one info, in entry order, after what was already built |
| MetaGraphs.DecodedTensorMap | saved_moddule.ts:68-83 | the dictionary has the map's keys in order, each with its tensor's info, and exists iff every dtype maps |
| MetaGraphs.SignatureDefsFromResult | saved_moddule.ts:56-106 | the signature dictionary exists iff every non-init signature decodes; it has no init-op key, has distinct keys, and holds exactly the record's other keys |
| MetaGraphs.MetaGraphsFromResult | saved_moddule.ts:47-109 | one metagraph per record, in record order; it exists iff every record decodes |
| MetaGraphs.DecodedMetaGraphsProperties | saved_moddule.ts:39-112 | a missing file fails with `ModelFileNotFound` naming the path; otherwise decoding succeeds exactly when every non-init signature decodes, giving one metagraph per record as described below the table |
| MetaGraphs.SignatureDefsFromLookup | saved_moddule.ts:56-106 | with distinct record keys, each non-init signature is stored under its key as that signature decoded, and entries already built are kept |
| MetaGraphs.DecodedSignatureEntries | saved_moddule.ts:39-112 | in each decoded metagraph whose record has distinct keys, the entry under every non-init key is the record's signature for that key, decoded |
| MetaGraphs.SignatureEntryWellFormed | saved_moddule.ts:67-105 | a decoded signature's input and output dictionaries have distinct keys |
| MetaGraphs.SignatureDefsWellFormed | saved_moddule.ts:56-106 | every signature in the built dictionary is well formed |
| MetaGraphs.DecodedMetaGraphsWellFormed | saved_moddule.ts:39-112 | every signature of every decoded metagraph has distinct tensor keys |
| MetaGraphs.UnmappedDtypeAborts | saved_moddule.ts:77-98 | one tensor with an unmapped dtype, in any non-init signature, makes the whole decoding fail with `UnsupportedType` |
| MetaGraphs.DecodeTensorMap | saved_moddule.ts:68-83 | the inputs loop computes the tensor dictionary of the protobuf map |
| MetaGraphs.DecodeSignatureDefs | saved_moddule.ts:54-106 | the signature loop computes the signature dictionary, skipping the init op |
| MetaGraphs.GetMetaGraphsFromSavedModel | saved_moddule.ts:39-112 | the metagraph loop computes the decoded metagraph list, or the missing-file error |
| MetaGraphs.OutputsAsWritten | saved_moddule.ts:88-104 | the outputs loop as written never yields a dictionary; when every dtype maps it fails with the TypeError of running past the last key |
| MetaGraphs.DecodeOutputsAsWritten | saved_moddule.ts:88-104 | the loop as written, whose exit test can never hold, always throws |
| MetaGraphs.AsWrittenRejectsEmptyOutputs | saved_moddule.ts:88-104 | a signature with no outputs decodes to an empty dictionary as intended, but throws as written |
| Signatures.GetSignatureDefEntryFromMetaGraphInfo | saved_moddule.ts:116-131 | only two errors: the missing signature or the missing tags |
| Signatures.FirstMatchDecides | saved_moddule.ts:119-127 | the first metagraph whose tags match settles the result, even when a later match has the signature |
| Signatures.TagsNotFoundIffNoMatch | saved_moddule.ts:119-130 | "does not have tags" is raised exactly when no metagraph matches, so it never stands in for a missing signature |
| Signatures.FirstMatchingIndex | saved_moddule.ts:119-121 | the index of the first matching metagraph: it matches and no earlier one does |
| Signatures.ResolvedFromFirstMatch | saved_moddule.ts:119-126 | a resolved entry is the first match's entry for the signature, and that match has as many tags as the request |
| Signatures.ResolvedEntryWellFormed | saved_moddule.ts:126 | the resolved entry keeps distinct tensor keys |
| Signatures.TagOrderIrrelevant | saved_moddule.ts:116-131 | requests whose tags are permutations of each other resolve alike, except for the tags named in the error |
| Sessions.Matches | saved_moddule.ts:264-265 | a record is a match when its path is the path and its tags compare equal to the tags |
| Sessions.LastMatchFrom | saved_moddule.ts:262-268 | the scan over the ids in key order: each matching record overwrites the session found so far |
| Sessions.LastMatchFromResult | saved_moddule.ts:262-268 | the scan finds a session iff some record matches; when it does, the session is a matching record's |
| Sessions.Without | saved_moddule.ts:168 | deleting a key removes exactly that key and keeps the others in order |
| Sessions.SavedModelRegistry.constructor | saved_moddule.ts:15-18 | the registry starts empty with counter 0 and no backend calls |
| Sessions.SavedModelRegistry.FindSession | saved_moddule.ts:262-268 | the scan yields a session iff a record for the path with matching tags exists; that session is the one every matching record uses |
| Sessions.SavedModelRegistry.IsSessionReferenced | saved_moddule.ts:169-174 | true iff some remaining record uses the session |
| Sessions.SavedModelRegistry.Delete | saved_moddule.ts:168 | removes exactly that id and keeps the invariant |
| Sessions.SavedModelRegistry.Register | saved_moddule.ts:274-277 | the new id is the old counter, above every registered id; the counter advances; the record is stored and the invariant kept |
| Model.StripSuffix | saved_moddule.ts:147 | a name ending in `:0` loses exactly that suffix; any other name is unchanged |
| Model.StripSuffixInverse | saved_moddule.ts:147 | stripping undoes appending `:0` |
| Model.StripSuffixNotIdempotent | saved_moddule.ts:146-148 | repeated getter calls strip `a:0:0` to `a:0` and then to `a` |
| Model.StripNames | saved_moddule.ts:142-149 | the getter keeps the keys and renames every info by stripping its name |
| Model.StripEntries | saved_moddule.ts:146-148 | the `forEach` loop computes the stripped dictionary |
| Model.NodeNames | saved_moddule.ts:186-190 | output key to node name, for every output, in order |
| Model.CachedNodeNames | saved_moddule.ts:182-192 | the cached dictionary when there is one, otherwise the key-to-node-name dictionary of the outputs |
| Model.Unwrap | saved_moddule.ts:205 | more than one tensor gives the array; exactly one gives the tensor; none gives `undefined` |
| Model.AfterComparison | saved_moddule.ts:214-217 | what the error message joins: an array the comparison sorted in place when the lengths agreed, otherwise the array as it was |
| Model.CollectFrom | saved_moddule.ts:218-223 | the collection loop from an accumulator: each name's provided tensor appended in order, stopping at the first unprovided name |
| Model.CollectedInputs | saved_moddule.ts:218-223 | the tensors collected for the names, paired with the declared infos for the same names |
| Model.InfosFor | saved_moddule.ts:221-222 | one info per name, each the signature's info for that name |
| Model.CollectFromResult | saved_moddule.ts:219-223 | collection succeeds iff every name was provided, giving the provided tensor for each name in order; otherwise it names an unprovided name |
| Model.NamedDispatch | saved_moddule.ts:211-223 | the named form: a name mismatch carries both arrays as the comparison left them; otherwise the collection over the sorted declared names |
| Model.NamedOutputsOf | saved_moddule.ts:229-240 | the named result: a count mismatch fails, otherwise each output key gets the tensor at its position |
| Model.PredictLive | saved_moddule.ts:198-243 | `predict` on a live handle, by input shape: a single tensor and an array run the backend directly; a map goes through the named dispatch and the named result |
| Model.NamedDispatchPairs | saved_moddule.ts:212-223 | a named prediction goes ahead iff the names compare equal and each was provided; each tensor then goes with its own input's info, in sorted name order; a name mismatch is reported as such exactly when the comparison fails |
| Model.NamedDispatchExact | saved_moddule.ts:212-217 | for comma-free names, the prediction goes ahead iff the provided names are the declared multiset, and every refusal is a name mismatch |
| Model.NamedOutputsMatchNodes | saved_moddule.ts:229-240 | the named result maps every output key, in order, to the backend tensor at its position; a count mismatch is the only failure |
| Model.PositionalPredictNeverFails | saved_moddule.ts:200-210 | the single-tensor and array forms never fail on a live handle and pass the infos and node names in declaration order; the array form returns the backend's array, the single-tensor form its unwrapped result |
| Model.NamedDispatchSameNames | saved_moddule.ts:212-223 | a map with the declared keys is collected in sorted name order |
| Model.SortedDispatchOrder | saved_moddule.ts:212-222 | for inputs declared `b`, `a` the backend receives `a`'s tensor and info first, while the positional forms pass `b`'s info first |
| Model.NamedDispatchAsWritten | saved_moddule.ts:218-223 | as written, the backend's first argument is the sorted input names, not tensors |
| Model.AsWrittenIgnoresTensors | saved_moddule.ts:220 | two maps binding `x` to different tensors dispatch identically as written; the corrected dispatch passes each map's own tensor |
| Model.OutputNodeNameArrayAsWritten | saved_moddule.ts:224-228 | as written, each requested node is `undefined` unless its node name is also an output key |
| Model.AsWrittenLooksUpValues | saved_moddule.ts:224-240 | for output `scores` with node `Identity:0`, the backend is asked for `undefined` and the map is keyed by `Identity:0` as written; corrected, the map is keyed by `scores` |
| Model.TFSavedModel.constructor | saved_moddule.ts:134-139 | a new handle is live, has no cached node names, and holds its session, id, signature and registry |
| Model.TFSavedModel.Inputs | saved_moddule.ts:142-152 | the getter strips the input names in place and returns the input infos in declaration order |
| Model.TFSavedModel.Outputs | saved_moddule.ts:154-162 | the getter strips the output names in place and returns the output infos in declaration order |
| Model.TFSavedModel.OutputNodeNames | saved_moddule.ts:182-192 | returns the cached dictionary if there is one, else computes and caches the key-to-node-name dictionary |
| Model.TFSavedModel.Predict | saved_moddule.ts:194-244 | a disposed handle fails with `AlreadyDisposed`; a live one returns the prediction for its input shape and caches the node names whenever it reads them |
| Model.TFSavedModel.Execute | saved_moddule.ts:245-248 | always fails with `NotSupported` |
| Model.TFSavedModel.Dispose | saved_moddule.ts:164-180 | a second call fails and changes nothing; the first unregisters the handle and releases its session only if no remaining record uses it |
| Model.TFSavedModel.DisposeAsWritten | saved_moddule.ts:164-180 | as written, a live handle is refused with the "already deleted" error and nothing is released |
| Model.TFSavedModel.Release | saved_moddule.ts:168-175 | deletes the handle's record, then releases the session exactly when no record still uses it |
| Model.SessionInUse | saved_moddule.ts:169-174 | some record still held uses the session |
| Model.BuildOutputMap | saved_moddule.ts:237-240 | the `outputMap` loop builds the output keys zipped with the tensors |
| Model.ReduceNodeNames | saved_moddule.ts:186-190 | the `reduce` builds the key-to-node-name dictionary |
| Model.NodeNameArray | saved_moddule.ts:224-228 | the corrected loop yields each output's node name, in key order |
| Model.DispatchNamed | saved_moddule.ts:212-223 | the array comparison and the collection loop compute the named dispatch |
| Model.CollectInputs | saved_moddule.ts:218-223 | the loop collects the provided tensor and the declared info for each name, or fails on the first unprovided name |
| Loader.Resolution | saved_moddule.ts:256-258 | a missing file fails with `ModelFileNotFound`; the only errors are decoding and resolution errors; a resolved entry has distinct tensor keys |
| Loader.ResolutionFromRecord | saved_moddule.ts:256-258 | a resolved entry is the decoded signature named `signature` in a record whose tags match the request |
| Loader.ExistingSession | saved_moddule.ts:262-268 | the session of some record for the path with matching tags, or none; which one does not matter, since matching records share a session |
| Loader.AcquireSession | saved_moddule.ts:260-273 | reuses the session of a record for the path with matching tags; otherwise asks the backend for one with the sorted tags joined by commas |
| Loader.SortedTagsMatchAlike | saved_moddule.ts:264-265 | matching a record against sorted or unsorted requested tags is the same |
| Loader.LoadSavedModel | saved_moddule.ts:249-279 | fails iff decoding or resolution fails, leaving the registry untouched; otherwise returns a fresh live handle and registers it (details below) |
| Loader.GpuServeSorted | saved_moddule.ts:271 | `["serve","gpu"]` sorts to `["gpu","serve"]` and joins to `"gpu,serve"` |
| Loader.LoadFirst | saved_moddule.ts:249-279 | a first load into an empty registry creates one session and registers id 0 |
| Loader.LoadTwice | saved_moddule.ts:262-277 | two loads of one path whose tags differ only in order get ids 0 and 1 and share one session; the backend is called once |
| Loader.ReleaseBoth | saved_moddule.ts:164-180 | disposing the first of two sharing handles keeps the session; disposing the second releases it; disposing again fails |
| Loader.ShareThenRelease | saved_moddule.ts:164-279 | loading twice and disposing both creates one session and releases it once |
| Loader.DisposeRefusedAsWritten | saved_moddule.ts:165-178 | as written, a handle loaded with the default tags and signature cannot be disposed: it stays registered and its session is never released |

`MetaGraphs.DecodedMetaGraphsProperties` states the following in full. Decoding succeeds
exactly when every non-init signature decodes. The result then has one metagraph per
record, in order. Each metagraph has:

- the record's tags;
- no init-op signature;
- distinct signature keys;
- a key for each of the record's other signatures, and no key the record lacks.

`MetaGraphs.DecodedSignatureEntries` adds what is stored under those keys. When a record's
signature keys are distinct, as in a protobuf map, the entry under each non-init key is
that record's signature, decoded. `Loader.ResolutionFromRecord` carries this through
resolution. The entry a load resolves to is the decoded form of the signature with the
requested name, in a record whose tags match the request.

`Loader.LoadSavedModel` states the following in full on success:

- The handle is fresh and live, with no cached names.
- Its id is the old counter, and every registered id is below it.
- Its session is the reused one if a record matches, and otherwise the one the backend
  returned.
- The record `{path, sorted tags, session}` is added under the id.
- The id is appended to the key order.
- A new session is logged exactly when none was reused.

## Left out

- The file system: `readSavedModelProto` (saved_moddule.ts:24-35) is a parameter, the decoded
  message or `None` when the file is unreadable. Only the "no saved_model.pb" error is
  modelled.
- Protobuf decoding (`deserializeBinary`): the model starts from the decoded record tree.
  The `DataType` enum object is a parameter.
- The native backend:
  - `ensureTensorflowBackend`, `nodeBackend` and `getNumOfSavedModels`
    (saved_moddule.ts:252-254, 311-315) are foreign code and are not part of this model;
  - `loadSavedModelMetaGraph` becomes a session id parameter;
  - `runSavedModel` becomes a function parameter;
  - `disposeSession` becomes an entry in a ghost call log.
- `async`/`await`: every step runs to completion in order.
- Tensor contents and shapes: tensors are opaque ids, and shape dimensions are carried
  through unchanged. The `config` argument of `predict` is ignored, as it is in the source.
- Model.CollectInputs: a name that compares equal but is absent from the provided map (only
  possible with commas in names) gives a `MissingInput` error. The source would pass
  `undefined` to the backend instead.
- Model.TFSavedModel.Predict: the `util.assert` message refers to undefined names. The model
  carries only the two counts in `OutputCountMismatch`.
- Tags.LessEq: this compares Unicode scalar values. JavaScript compares UTF-16 code units,
  so the order can differ for characters outside the Basic Multilingual Plane.
- OrderedMaps.Keys: JavaScript lists integer-like keys first, in numeric order. The model
  keeps insertion order, so it assumes tensor and signature keys are not array indices.
- OrderedMaps.Values: `Object.values` follows the same key order, so it makes the same
  assumption.
- OrderedMaps.PutKeys: a new key is appended at the end only under that assumption. A new
  integer-like key would take its numeric place among the other integer-like keys.
- OrderedMaps.PutAbsent: the same assumption as `OrderedMaps.PutKeys`.
- OrderedMaps.Zip: `outputMap` (saved_moddule.ts:237-240) lists its keys in the order
  they were given only under the same assumption.
- OrderedMaps.Lookup: a lookup of a name inherited from `Object.prototype`, such as
  `constructor` or `toString`, is not `undefined` in JavaScript. For such a signature name,
  the test `signatureDefs[signature] == null` at saved_moddule.ts:122 passes, and the
  source returns the inherited value as the entry. The model raises `SignatureNotFound`
  for any name that is not an own key.
- OrderedMaps.Put: in JavaScript, assigning under the key `__proto__` (saved_moddule.ts:82,
  102, 105) replaces the object's prototype instead of adding a key. The model adds an
  ordinary key.
- Model.TFSavedModel.Inputs: the getter at saved_moddule.ts:144-149 returns the signature's
  own info objects, not copies. A later getter call therefore renames objects a caller
  already holds. A caller's write to `info.name` also changes what `predict` sends at 203.
  The model returns the infos as values, so it does not capture this aliasing.
- Model.TFSavedModel.Outputs: the getter at saved_moddule.ts:156-161 shares the signature's
  output info objects in the same way. The model returns values, so it does not capture
  this aliasing.
- Model.TFSavedModel.OutputNodeNames: the getter at saved_moddule.ts:184, 191 returns the
  cached object itself. A caller can therefore change the node names every later `predict`
  requests. The model returns the dictionary as a value, so it does not capture this
  aliasing.
- Loader.LoadSavedModel: after a successful load, the caller's own `tags` array is left
  sorted in place by the comparisons at saved_moddule.ts:121 and 264, which sort through
  284. The model takes `tags` by value. It uses the sorted tags for the registry and the
  backend, but does not capture the change to the caller's array.
- Sessions.SavedModelRegistry.Register: the record at saved_moddule.ts:277 holds the
  caller's `tags` array by reference, so a caller who later mutates that array changes
  the registry. The model stores a copy of the sorted tags as a value, so it does not
  capture this aliasing.
- Sessions.SavedModelRegistry.Register: the counter is an unbounded natural number. The
  source counter is a double that loses precision beyond 2^53.
- Signatures.GetSignatureDefEntryFromMetaGraphInfo: `TagsNotFound` carries the tags as
  passed. The source message shows them after any in-place sort by the comparisons.
- The registry and the backend are module globals in the source. In the model they are one
  `SavedModelRegistry` object that the loader receives and each handle references.
- Sessions.SavedModelRegistry.FindSession: the comparisons in the scan sort the record's and
  the caller's tag arrays in place. The model stores sorted tags and passes sorted tags, so
  both are fixed points of the sort and the in-place effect is not tracked.

## Findings

| source | as written | input that shows it | evidently intended | confidence | as-written member | corrected member |
|---|---|---|---|---|---|---|
| saved_moddule.ts:165-178 | `dispose` proceeds only when `disposed` is already true, and throws "already been deleted" otherwise | any freshly loaded handle: its first `dispose()` throws, so it stays registered and its session is never released | proceed when not yet disposed; throw on a second call | high (not executed) | Model.TFSavedModel.DisposeAsWritten, Loader.DisposeRefusedAsWritten | Model.TFSavedModel.Dispose |
| saved_moddule.ts:90 | the exit test reads `outputsMapKeys.done`, a property the iterator does not have, so the loop never breaks | a signature with an empty outputs map: the first iteration after the keys run out throws a TypeError | test `outputsMapKey.done`, as the inputs loop does at line 72 | high (not executed) | MetaGraphs.DecodeOutputsAsWritten, MetaGraphs.AsWrittenRejectsEmptyOutputs | MetaGraphs.DecodeTensorMap, MetaGraphs.DecodedTensorMap |
| saved_moddule.ts:220 | the named form pushes the input's name where its tensor belongs | inputs `{x}` and the two maps `{x: t1}` and `{x: t2}`: the backend receives `["x"]` for both | push `inputs[inputTensorNames[i]]` | high (not executed) | Model.NamedDispatchAsWritten, Model.AsWrittenIgnoresTensors | Model.DispatchNamed, Model.NamedDispatchPairs |
| saved_moddule.ts:224-227 | the output node names (`Object.values`) are used as output keys and looked up again in the same dictionary | output `scores` bound to node `Identity:0`: the backend is asked for `undefined` and the result is keyed by `Identity:0` | take `Object.keys` as the output names and request their node names | high (not executed) | Model.OutputNodeNameArrayAsWritten, Model.AsWrittenLooksUpValues | Model.NodeNameArray, Model.NamedOutputsMatchNodes |
