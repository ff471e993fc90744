/** `TFSavedModel` (saved_moddule.ts:133-248): the handle `loadSavedModel` returns, bound to a
    backend session and to one signature of the model. */
module Model {
  import opened Wrappers
  import opened OrderedMaps
  import opened Tags
  import opened MetaGraphs
  import opened Sessions

  /** A tensor handed to or returned by the backend; its contents are not modelled. */
  datatype Tensor = Tensor(id: nat)

  /** The three shapes `predict` accepts: one tensor, an array, or a name-to-tensor map. */
  datatype PredictInput =
    | SingleTensor(tensor: Tensor)
    | TensorList(tensors: seq<Tensor>)
    | NamedTensors(named: Entries<Tensor>)

  /** What `predict` returns; `Undefined` is `result[0]` of an empty result array. */
  datatype PredictOutput =
    | Unwrapped(tensor: Tensor)
    | Undefined
    | OutputList(tensors: seq<Tensor>)
    | NamedOutputs(named: Entries<Tensor>)

  /** `backend.runSavedModel(sessionId, inputTensors, inputInfos, outputNodeNames)`, the native
      call whose behaviour is a parameter of the model. */
  type Runner = (nat, seq<Tensor>, seq<ModelTensorInfo>, seq<string>) -> seq<Tensor>

  // ---------------------------------------------------------------------------
  // The `inputs` and `outputs` getters (saved_moddule.ts:142-162).

  predicate EndsWithZero(name: string) {
    |name| >= 2 && name[|name| - 2..] == ":0"
  }

  /** `name.replace(/:0$/, '')`. */
  function StripSuffix(name: string): (r: string)
    ensures EndsWithZero(name) ==> r + ":0" == name
    ensures !EndsWithZero(name) ==> r == name
  {
    if EndsWithZero(name) then name[..|name| - 2] else name
  }

  /** Stripping takes off exactly one trailing `:0`, and never touches another name. */
  lemma StripSuffixInverse(x: string)
    ensures StripSuffix(x + ":0") == x
    ensures !EndsWithZero(x) ==> StripSuffix(x) == x
  {
    assert (x + ":0")[|x + ":0"| - 2..] == ":0";
    assert (x + ":0")[..|x|] == x;
  }

  /** The getters rewrite the names they return, so a second call strips again: a name
      ending in `:0:0` loses one suffix per call. */
  lemma StripSuffixNotIdempotent()
    ensures StripSuffix("a:0:0") == "a:0"
    ensures StripSuffix(StripSuffix("a:0:0")) == "a"
  {
    StripSuffixInverse("a:0");
    StripSuffixInverse("a");
  }

  /** The tensor dictionary after the getter's `forEach` has renamed every info. */
  function StripNames(m: Entries<ModelTensorInfo>): (r: Entries<ModelTensorInfo>)
    ensures |r| == |m| && Keys(r) == Keys(m)
    ensures forall i :: 0 <= i < |m| ==> r[i].1 == m[i].1.(name := StripSuffix(m[i].1.name))
  {
    seq(|m|, i requires 0 <= i < |m| => (m[i].0, m[i].1.(name := StripSuffix(m[i].1.name))))
  }

  /** The `forEach` of a getter, one info at a time. */
  method StripEntries(entries: Entries<ModelTensorInfo>) returns (stripped: Entries<ModelTensorInfo>)
    ensures stripped == StripNames(entries)
  {
    stripped := [];
    var i := 0;
    while i < |entries|
      invariant 0 <= i <= |entries| && |stripped| == i
      invariant forall k :: 0 <= k < i ==> stripped[k] == (entries[k].0, entries[k].1.(name := StripSuffix(entries[k].1.name)))
    {
      var info := entries[i].1;
      stripped := stripped + [(entries[i].0, info.(name := StripSuffix(info.name)))];
      i := i + 1;
    }
  }

  // ---------------------------------------------------------------------------
  // The `outputNodeNames` getter (saved_moddule.ts:182-192).

  /** Output key to node name, in the signature's output order. */
  function NodeNames(outputs: Entries<ModelTensorInfo>): (r: Entries<string>)
    ensures Keys(r) == Keys(outputs)
    ensures forall i :: 0 <= i < |outputs| ==> r[i].1 == outputs[i].1.name
  {
    seq(|outputs|, i requires 0 <= i < |outputs| => (outputs[i].0, outputs[i].1.name))
  }

  /** What the getter returns: the cached dictionary once there is one. */
  function CachedNodeNames(cache: Option<Entries<string>>, outputs: Entries<ModelTensorInfo>): Entries<string> {
    if cache.Some? then cache.value else NodeNames(outputs)
  }

  // ---------------------------------------------------------------------------
  // `predict` (saved_moddule.ts:194-244), as pure functions of the handle's state.

  /** `result.length > 1 ? result : result[0]` (saved_moddule.ts:205). */
  function Unwrap(result: seq<Tensor>): (r: PredictOutput)
    ensures |result| > 1 ==> r == OutputList(result)
    ensures |result| == 1 ==> r == Unwrapped(result[0])
    ensures |result| == 0 ==> r == Undefined
  {
    if |result| > 1 then OutputList(result) else if |result| == 1 then Unwrapped(result[0]) else Undefined
  }

  /** An array after `stringArraysHaveSameElements(a, b)` returned: sorted exactly when the
      lengths agreed. */
  function AfterComparison(a: seq<string>, b: seq<string>): seq<string> {
    if |a| == |b| then Sort(a) else a
  }

  /** The signature's infos for `names`, each looked up by name. */
  function InfosFor(inputs: Entries<ModelTensorInfo>, names: seq<string>): (infos: seq<ModelTensorInfo>)
    requires forall i :: 0 <= i < |names| ==> names[i] in Keys(inputs)
    ensures |infos| == |names|
    ensures forall i :: 0 <= i < |names| ==> Lookup(inputs, names[i]) == Some(infos[i])
  {
    seq(|names|, i requires 0 <= i < |names| => Lookup(inputs, names[i]).value)
  }

  /** The tensors provided for the names in `rest`, appended to `acc` in order; the first
      name with no tensor is reported. */
  function CollectFrom(provided: Entries<Tensor>, acc: seq<Tensor>, rest: seq<string>): Result<seq<Tensor>, Error>
    decreases |rest|
  {
    if rest == [] then Ok(acc)
    else match Lookup(provided, rest[0])
      case None => Err(MissingInput(rest[0]))
      case Some(t) => CollectFrom(provided, acc + [t], rest[1..])
  }

  /** Collecting succeeds iff every name was provided; it then holds, after `acc`, the
      tensor provided for each name; otherwise it names a name that was not provided. */
  lemma {:induction false} CollectFromResult(provided: Entries<Tensor>, acc: seq<Tensor>, rest: seq<string>)
    ensures CollectFrom(provided, acc, rest).Ok? <==> forall i :: 0 <= i < |rest| ==> rest[i] in Keys(provided)
    ensures CollectFrom(provided, acc, rest).Ok? ==>
              var ts := CollectFrom(provided, acc, rest).value;
              |ts| == |acc| + |rest| && ts[..|acc|] == acc &&
              forall i :: 0 <= i < |rest| ==> Lookup(provided, rest[i]) == Some(ts[|acc| + i])
    ensures CollectFrom(provided, acc, rest).Err? ==>
              exists i :: 0 <= i < |rest| && rest[i] !in Keys(provided) && CollectFrom(provided, acc, rest).error == MissingInput(rest[i])
    decreases |rest|
  {
    if rest != [] {
      assert forall i :: 1 <= i < |rest| ==> rest[i] == rest[1..][i - 1];
      match Lookup(provided, rest[0])
      case None =>
      case Some(t) =>
        CollectFromResult(provided, acc + [t], rest[1..]);
        var r := CollectFrom(provided, acc, rest);
        if r.Ok? {
          var ts := r.value;
          assert ts[..|acc| + 1] == acc + [t];
          assert ts[..|acc|] == (acc + [t])[..|acc|];
          assert ts[|acc|] == (acc + [t])[|acc|];
          forall i | 1 <= i < |rest| ensures Lookup(provided, rest[i]) == Some(ts[|acc| + i]) {
            assert |acc| + i == |acc + [t]| + (i - 1);
          }
        } else {
          var i :| 0 <= i < |rest[1..]| && rest[1..][i] !in Keys(provided) && r.error == MissingInput(rest[1..][i]);
          assert rest[i + 1] == rest[1..][i];
        }
    }
  }

  /** The tensors and infos of the inputs named by `names`. */
  function CollectedInputs(inputs: Entries<ModelTensorInfo>, provided: Entries<Tensor>, names: seq<string>)
    : Result<(seq<Tensor>, seq<ModelTensorInfo>), Error>
    requires forall i :: 0 <= i < |names| ==> names[i] in Keys(inputs)
  {
    match CollectFrom(provided, [], names)
    case Err(e) => Err(e)
    case Ok(tensors) => Ok((tensors, InfosFor(inputs, names)))
  }

  /** The input side of a named prediction (saved_moddule.ts:211-223): the provided names
      must compare equal to the signature's, then one tensor and one info per input name,
      in the order the comparison sorted the names into. */
  function NamedDispatch(inputs: Entries<ModelTensorInfo>, provided: Entries<Tensor>)
    : (r: Result<(seq<Tensor>, seq<ModelTensorInfo>), Error>)
  {
    var expected := Keys(inputs);
    var given := Keys(provided);
    if !SameElements(expected, given) then
      Err(InputNameMismatch(AfterComparison(expected, given), AfterComparison(given, expected)))
    else
      var names := Sort(expected);
      SortMembers(expected);
      CollectedInputs(inputs, provided, names)
  }

  /** The output side of a named prediction (saved_moddule.ts:229-240): as many tensors as
      output nodes, then the map from output key to tensor. */
  function NamedOutputsOf(nodeNames: Entries<string>, outputTensors: seq<Tensor>): (r: Result<PredictOutput, Error>) {
    if |outputTensors| != |nodeNames| then Err(OutputCountMismatch(|outputTensors|, |nodeNames|))
    else Ok(NamedOutputs(Zip(Keys(nodeNames), outputTensors)))
  }

  /** `predict` on a live handle, given the output node names it uses. */
  function PredictLive(sessionId: nat, inputs: Entries<ModelTensorInfo>, nodeNames: Entries<string>, input: PredictInput, run: Runner)
    : Result<PredictOutput, Error>
  {
    match input
    case SingleTensor(t) => Ok(Unwrap(run(sessionId, [t], Values(inputs), Values(nodeNames))))
    case TensorList(ts) => Ok(OutputList(run(sessionId, ts, Values(inputs), Values(nodeNames))))
    case NamedTensors(provided) =>
      match NamedDispatch(inputs, provided)
      case Err(e) => Err(e)
      case Ok(args) => NamedOutputsOf(nodeNames, run(sessionId, args.0, args.1, Values(nodeNames)))
  }

  /** Whether `predict` reaches the `outputNodeNames` getter, which fills the cache. */
  predicate ReadsNodeNames(inputs: Entries<ModelTensorInfo>, input: PredictInput) {
    !input.NamedTensors? || NamedDispatch(inputs, input.named).Ok?
  }

  /** A named prediction goes ahead exactly when the provided names compare equal to the
      signature's and every name the dispatch visits was provided; each tensor then goes
      with the info of the input it was provided for, in sorted name order. */
  lemma NamedDispatchPairs(inputs: Entries<ModelTensorInfo>, provided: Entries<Tensor>)
    ensures NamedDispatch(inputs, provided).Ok? <==>
              SameElements(Keys(inputs), Keys(provided)) && forall n :: n in Sort(Keys(inputs)) ==> n in Keys(provided)
    ensures NamedDispatch(inputs, provided).Ok? ==>
              var names := Sort(Keys(inputs));
              var tensors := NamedDispatch(inputs, provided).value.0;
              var infos := NamedDispatch(inputs, provided).value.1;
              |tensors| == |inputs| && |infos| == |inputs| &&
              forall i :: 0 <= i < |names| ==>
                Lookup(provided, names[i]) == Some(tensors[i]) && Lookup(inputs, names[i]) == Some(infos[i])
    ensures NamedDispatch(inputs, provided).Err? ==>
              (NamedDispatch(inputs, provided).error.InputNameMismatch? <==> !SameElements(Keys(inputs), Keys(provided)))
  {
    var names := Sort(Keys(inputs));
    if SameElements(Keys(inputs), Keys(provided)) {
      SortMembers(Keys(inputs));
      var empty: seq<Tensor> := [];
      CollectFromResult(provided, empty, names);
      assert NamedDispatch(inputs, provided) == CollectedInputs(inputs, provided, names);
      assert CollectedInputs(inputs, provided, names).Ok? <==> CollectFrom(provided, empty, names).Ok?;
      assert CollectFrom(provided, empty, names).Ok? <==> forall i :: 0 <= i < |names| ==> names[i] in Keys(provided);
    }
  }

  /** With comma-free input names the comparison is exact: a named prediction goes ahead iff
      the provided names are the signature's input names, and a provided name is never
      missing. */
  lemma NamedDispatchExact(inputs: Entries<ModelTensorInfo>, provided: Entries<Tensor>)
    requires CommaFree(Keys(inputs)) && CommaFree(Keys(provided))
    ensures NamedDispatch(inputs, provided).Ok? <==> multiset(Keys(inputs)) == multiset(Keys(provided))
    ensures NamedDispatch(inputs, provided).Err? ==> NamedDispatch(inputs, provided).error.InputNameMismatch?
  {
    SameElementsIsMultisetEquality(Keys(inputs), Keys(provided));
    var names := Sort(Keys(inputs));
    NamedDispatchPairs(inputs, provided);
    if multiset(Keys(inputs)) == multiset(Keys(provided)) {
      forall i | 0 <= i < |names| ensures names[i] in Keys(provided) {
        assert names[i] in multiset(names);
      }
    }
  }

  /** A named prediction that succeeds maps every output key of the signature, in order, to
      the backend's tensor at the same position; it fails on a count mismatch exactly. */
  lemma NamedOutputsMatchNodes(nodeNames: Entries<string>, outputTensors: seq<Tensor>)
    ensures NamedOutputsOf(nodeNames, outputTensors).Ok? <==> |outputTensors| == |nodeNames|
    ensures NamedOutputsOf(nodeNames, outputTensors).Ok? ==>
              var out := NamedOutputsOf(nodeNames, outputTensors).value.named;
              Keys(out) == Keys(nodeNames) && Values(out) == outputTensors
    ensures NamedOutputsOf(nodeNames, outputTensors).Err? ==>
              NamedOutputsOf(nodeNames, outputTensors).error == OutputCountMismatch(|outputTensors|, |nodeNames|)
  {
  }

  /** The single-tensor and array forms never fail on a live handle and pass the signature's
      infos and the node names in declaration order. */
  lemma PositionalPredictNeverFails(sessionId: nat, inputs: Entries<ModelTensorInfo>, nodeNames: Entries<string>, input: PredictInput, run: Runner)
    requires !input.NamedTensors?
    ensures PredictLive(sessionId, inputs, nodeNames, input, run).Ok?
    ensures input.TensorList? ==>
              PredictLive(sessionId, inputs, nodeNames, input, run).value ==
                OutputList(run(sessionId, input.tensors, Values(inputs), Values(nodeNames)))
    ensures input.SingleTensor? ==>
              PredictLive(sessionId, inputs, nodeNames, input, run).value ==
                Unwrap(run(sessionId, [input.tensor], Values(inputs), Values(nodeNames)))
  {
  }

  /** A map that provides exactly the declared names, in any order of the same list, goes
      straight to collecting the tensors in sorted name order. */
  lemma NamedDispatchSameNames(inputs: Entries<ModelTensorInfo>, provided: Entries<Tensor>)
    requires Keys(inputs) == Keys(provided)
    ensures forall i :: 0 <= i < |Sort(Keys(inputs))| ==> Sort(Keys(inputs))[i] in Keys(inputs)
    ensures NamedDispatch(inputs, provided) == CollectedInputs(inputs, provided, Sort(Keys(inputs)))
  {
    SortMembers(Keys(inputs));
  }

  lemma SortTwoReversed(x: string, y: string)
    requires LessEq(x, y)
    ensures Sort([y, x]) == [x, y]
  {
    SortPair(x, y);
    SortOfPermutation([y, x], [x, y]);
  }

  lemma CollectTwo(provided: Entries<Tensor>, x: string, y: string, tx: Tensor, ty: Tensor)
    requires Lookup(provided, x) == Some(tx) && Lookup(provided, y) == Some(ty)
    ensures CollectFrom(provided, [], [x, y]) == Ok([tx, ty])
  {
    var empty: seq<Tensor> := [];
    assert [x, y][0] == x && [x, y][1..] == [y] && [y][1..] == [];
    assert empty + [tx] == [tx] && [tx] + [ty] == [tx, ty];
    assert CollectFrom(provided, empty, [x, y]) == CollectFrom(provided, [tx], [y]);
    assert CollectFrom(provided, [tx], [y]) == CollectFrom(provided, [tx, ty], []);
  }

  /** A named map is dispatched in sorted name order, not in declaration order: for inputs
      declared as `b` then `a`, the backend receives `a`'s tensor and info first, while the
      positional forms pass the infos as declared. */
  lemma SortedDispatchOrder(infoA: ModelTensorInfo, infoB: ModelTensorInfo, ta: Tensor, tb: Tensor)
    ensures var inputs := [("b", infoB), ("a", infoA)];
            NamedDispatch(inputs, [("b", tb), ("a", ta)]) == Ok(([ta, tb], [infoA, infoB])) &&
            Values(inputs) == [infoB, infoA]
  {
    var inputs := [("b", infoB), ("a", infoA)];
    var provided := [("b", tb), ("a", ta)];
    var names := ["a", "b"];
    assert Keys(inputs) == ["b", "a"] && Keys(provided) == ["b", "a"];
    SortTwoReversed("a", "b");
    NamedDispatchSameNames(inputs, provided);
    CollectTwo(provided, "a", "b", ta, tb);
    assert Lookup(inputs, "a") == Some(infoA) && Lookup(inputs, "b") == Some(infoB);
    assert InfosFor(inputs, names) == [infoA, infoB];
  }

  // ---------------------------------------------------------------------------
  // The defects of `predict` as written.

  /** saved_moddule.ts:220 pushes the input's name where its tensor belongs: the first
      argument of the backend call as written. */
  function NamedDispatchAsWritten(inputs: Entries<ModelTensorInfo>, provided: Entries<Tensor>)
    : (r: Result<(seq<string>, seq<ModelTensorInfo>), Error>)
    ensures r.Ok? ==> r.value.0 == Sort(Keys(inputs))
    ensures r.Ok? <==> SameElements(Keys(inputs), Keys(provided))
  {
    var expected := Keys(inputs);
    var given := Keys(provided);
    if !SameElements(expected, given) then
      Err(InputNameMismatch(AfterComparison(expected, given), AfterComparison(given, expected)))
    else
      var names := Sort(expected);
      SortMembers(expected);
      Ok((names, InfosFor(inputs, names)))
  }

  /** As written the provided tensors never reach the backend: two inputs that bind the same
      name to different tensors are dispatched identically, while the corrected dispatch
      tells them apart. */
  lemma AsWrittenIgnoresTensors(info: ModelTensorInfo)
    ensures var inputs := [("x", info)];
            NamedDispatchAsWritten(inputs, [("x", Tensor(1))]) == NamedDispatchAsWritten(inputs, [("x", Tensor(2))])
    ensures var inputs := [("x", info)];
            NamedDispatch(inputs, [("x", Tensor(1))]) == Ok(([Tensor(1)], [info])) &&
            NamedDispatch(inputs, [("x", Tensor(2))]) == Ok(([Tensor(2)], [info]))
  {
    var inputs := [("x", info)];
    assert Keys(inputs) == ["x"];
    assert Keys([("x", Tensor(1))]) == ["x"] && Keys([("x", Tensor(2))]) == ["x"];
    assert Insert("x", []) == ["x"];
    assert Sort(["x"]) == ["x"];
    assert SameElements(["x"], ["x"]);
    assert InfosFor(inputs, ["x"]) == [info];
    assert ["x"][1..] == [];
    assert Lookup([("x", Tensor(1))], "x") == Some(Tensor(1));
    assert Lookup([("x", Tensor(2))], "x") == Some(Tensor(2));
    var empty: seq<Tensor> := [];
    assert empty + [Tensor(1)] == [Tensor(1)] && empty + [Tensor(2)] == [Tensor(2)];
    assert CollectFrom([("x", Tensor(1))], empty, ["x"]) == CollectFrom([("x", Tensor(1))], [Tensor(1)], []);
    assert CollectFrom([("x", Tensor(2))], empty, ["x"]) == CollectFrom([("x", Tensor(2))], [Tensor(2)], []);
  }

  /** saved_moddule.ts:224-227 takes the node names (`Object.values`) as the output keys and
      looks each one up as a key of the same dictionary. */
  function OutputNodeNameArrayAsWritten(nodeNames: Entries<string>): (r: seq<Option<string>>)
    ensures |r| == |nodeNames|
    ensures forall i :: 0 <= i < |nodeNames| ==> (r[i].None? <==> nodeNames[i].1 !in Keys(nodeNames))
  {
    seq(|nodeNames|, i requires 0 <= i < |nodeNames| => Lookup(nodeNames, nodeNames[i].1))
  }

  /** For a signature whose output `scores` is the node `Identity:0`, the backend is asked
      for `undefined` and the result is keyed by the node name, where the corrected lookup
      asks for `Identity:0` and keys the result by `scores`. */
  lemma AsWrittenLooksUpValues(t: Tensor)
    ensures OutputNodeNameArrayAsWritten([("scores", "Identity:0")]) == [None]
    ensures Values([("scores", "Identity:0")]) == ["Identity:0"]
    ensures Zip(Values([("scores", "Identity:0")]), [t]) == [("Identity:0", t)]
    ensures NamedOutputsOf([("scores", "Identity:0")], [t]) == Ok(NamedOutputs([("scores", t)]))
  {
    var nodeNames := [("scores", "Identity:0")];
    assert Keys(nodeNames) == ["scores"];
    assert Values(nodeNames) == ["Identity:0"];
    assert Zip(["scores"], [t]) == [("scores", t)];
    assert Zip(["Identity:0"], [t]) == [("Identity:0", t)];
  }

  // ---------------------------------------------------------------------------
  // The handle.

  class TFSavedModel {
    const sessionId: nat
    /** The handle's key in the registry. */
    const jsid: nat
    var signature: SignatureDefEntry
    /** `loadedSavedModelPathMap` and the backend, which the source reaches as module globals. */
    const registry: SavedModelRegistry
    var disposed: bool
    /** `outputNodeNames_`, `None` until the getter first runs. */
    var outputNodeNamesCache: Option<Entries<string>>

    ghost predicate Valid()
      reads this
    {
      && WellFormedEntry(signature)
      && (outputNodeNamesCache.Some? ==> Keys(outputNodeNamesCache.value) == Keys(signature.outputs))
    }

    constructor (sessionId: nat, jsid: nat, signature: SignatureDefEntry, registry: SavedModelRegistry)
      requires WellFormedEntry(signature)
      ensures Valid()
      ensures this.sessionId == sessionId && this.jsid == jsid && this.signature == signature && this.registry == registry
      ensures !disposed && outputNodeNamesCache == None
    {
      this.sessionId := sessionId;
      this.jsid := jsid;
      this.signature := signature;
      this.registry := registry;
      disposed := false;
      outputNodeNamesCache := None;
    }

    /** The `inputs` getter: the input infos in declaration order, renamed in place. */
    method Inputs() returns (result: seq<ModelTensorInfo>)
      requires Valid()
      modifies this
      ensures Valid()
      ensures signature == old(signature).(inputs := StripNames(old(signature).inputs))
      ensures result == Values(signature.inputs)
      ensures disposed == old(disposed) && outputNodeNamesCache == old(outputNodeNamesCache)
    {
      var stripped := StripEntries(signature.inputs);
      signature := signature.(inputs := stripped);
      result := Values(stripped);
      assert forall i, j :: 0 <= i < j < |stripped| ==> stripped[i].0 == Keys(stripped)[i] && stripped[j].0 == Keys(stripped)[j];
    }

    /** The `outputs` getter. The cached node names are not renamed with it. */
    method Outputs() returns (result: seq<ModelTensorInfo>)
      requires Valid()
      modifies this
      ensures Valid()
      ensures signature == old(signature).(outputs := StripNames(old(signature).outputs))
      ensures result == Values(signature.outputs)
      ensures disposed == old(disposed) && outputNodeNamesCache == old(outputNodeNamesCache)
    {
      var stripped := StripEntries(signature.outputs);
      signature := signature.(outputs := stripped);
      result := Values(stripped);
      assert forall i, j :: 0 <= i < j < |stripped| ==> stripped[i].0 == Keys(stripped)[i] && stripped[j].0 == Keys(stripped)[j];
    }

    /** The `outputNodeNames` getter: computed once by the `reduce`, then served from the
        cache. */
    method OutputNodeNames() returns (names: Entries<string>)
      requires Valid()
      modifies this
      ensures Valid()
      ensures names == CachedNodeNames(old(outputNodeNamesCache), signature.outputs)
      ensures outputNodeNamesCache == Some(names)
      ensures signature == old(signature) && disposed == old(disposed)
    {
      if outputNodeNamesCache.Some? {
        return outputNodeNamesCache.value;
      }
      names := ReduceNodeNames(signature.outputs);
      outputNodeNamesCache := Some(names);
    }

    /** `predict`. */
    method Predict(input: PredictInput, run: Runner) returns (r: Result<PredictOutput, Error>)
      requires Valid()
      modifies this
      ensures Valid()
      ensures signature == old(signature) && disposed == old(disposed)
      ensures old(disposed) ==> r == Err(AlreadyDisposed) && outputNodeNamesCache == old(outputNodeNamesCache)
      ensures !old(disposed) ==>
                var nodeNames := CachedNodeNames(old(outputNodeNamesCache), signature.outputs);
                r == PredictLive(sessionId, signature.inputs, nodeNames, input, run) &&
                outputNodeNamesCache == if ReadsNodeNames(signature.inputs, input) then Some(nodeNames) else old(outputNodeNamesCache)
    {
      if disposed {
        return Err(AlreadyDisposed);
      }
      match input
      case SingleTensor(t) =>
        var names := OutputNodeNames();
        var result := run(sessionId, [t], Values(signature.inputs), Values(names));
        r := Ok(Unwrap(result));
      case TensorList(ts) =>
        var names := OutputNodeNames();
        r := Ok(OutputList(run(sessionId, ts, Values(signature.inputs), Values(names))));
      case NamedTensors(provided) =>
        var dispatched := DispatchNamed(signature.inputs, provided);
        if dispatched.Err? {
          return Err(dispatched.error);
        }
        var (inputTensors, inputNodeNameArray) := dispatched.value;
        var names := OutputNodeNames();
        var outputTensorNames := Keys(names);
        var outputNodeNameArray := NodeNameArray(names);
        var outputTensors := run(sessionId, inputTensors, inputNodeNameArray, outputNodeNameArray);
        if |outputTensors| != |outputNodeNameArray| {
          return Err(OutputCountMismatch(|outputTensors|, |outputNodeNameArray|));
        }
        var outputMap := BuildOutputMap(outputTensorNames, outputTensors);
        r := Ok(NamedOutputs(outputMap));
    }

    /** `execute`, which is not supported. */
    method Execute(inputs: PredictInput, outputs: seq<string>) returns (r: Result<seq<Tensor>, Error>)
      ensures r == Err(NotSupported)
    {
      return Err(NotSupported);
    }

    /** `dispose` with the guard the error message describes: a live handle is unregistered,
        and its session is released once no other handle uses it; a second call fails. */
    method Dispose() returns (r: Outcome<Error>)
      requires registry.Valid()
      modifies this, registry
      ensures registry.Valid()
      ensures signature == old(signature) && outputNodeNamesCache == old(outputNodeNamesCache) && disposed
      ensures old(disposed) ==> r == Fail(AlreadyDisposed) && unchanged(registry)
      ensures !old(disposed) ==>
                r == Pass &&
                registry.records == old(registry.records) - {jsid} &&
                registry.nextId == old(registry.nextId) &&
                registry.calls == old(registry.calls) + (if SessionInUse(registry.records, sessionId) then [] else [DisposeSession(sessionId)])
    {
      if disposed {
        return Fail(AlreadyDisposed);
      }
      disposed := true;
      Release();
      r := Pass;
    }

    /** `dispose` as written (saved_moddule.ts:165, 178): the guard is inverted, so a live
        handle is refused and nothing is released. */
    method DisposeAsWritten() returns (r: Outcome<Error>)
      requires registry.Valid()
      modifies this, registry
      ensures registry.Valid()
      ensures signature == old(signature) && outputNodeNamesCache == old(outputNodeNamesCache) && disposed == old(disposed)
      ensures !old(disposed) ==> r == Fail(AlreadyDisposed) && unchanged(registry)
      ensures old(disposed) ==>
                r == Pass &&
                registry.records == old(registry.records) - {jsid} &&
                registry.nextId == old(registry.nextId) &&
                registry.calls == old(registry.calls) + (if SessionInUse(registry.records, sessionId) then [] else [DisposeSession(sessionId)])
    {
      if disposed {
        disposed := true;
        Release();
        r := Pass;
      } else {
        r := Fail(AlreadyDisposed);
      }
    }

    /** The body of `dispose` once past its guard (saved_moddule.ts:168-175). */
    method Release()
      requires registry.Valid()
      modifies registry
      ensures registry.Valid()
      ensures registry.records == old(registry.records) - {jsid} && registry.nextId == old(registry.nextId)
      ensures registry.calls == old(registry.calls) + (if SessionInUse(registry.records, sessionId) then [] else [DisposeSession(sessionId)])
    {
      registry.Delete(jsid);
      var referenced := registry.IsSessionReferenced(sessionId);
      if referenced {
        return;
      }
      registry.calls := registry.calls + [DisposeSession(sessionId)];
    }
  }

  /** Some registered model still uses the session. */
  predicate SessionInUse(records: map<nat, Record>, sessionId: nat) {
    exists id :: id in records && records[id].sessionId == sessionId
  }

  /** The `outputMap` loop (saved_moddule.ts:236-239). */
  method BuildOutputMap(keys: seq<string>, outputTensors: seq<Tensor>) returns (outputMap: Entries<Tensor>)
    requires |keys| == |outputTensors|
    requires forall i, j :: 0 <= i < j < |keys| ==> keys[i] != keys[j]
    ensures outputMap == Zip(keys, outputTensors)
  {
    outputMap := [];
    var i := 0;
    while i < |keys|
      invariant 0 <= i <= |keys|
      invariant outputMap == Zip(keys[..i], outputTensors[..i])
    {
      assert keys[i] !in Keys(outputMap) by {
        assert Keys(outputMap) == keys[..i];
      }
      PutAbsent(outputMap, keys[i], outputTensors[i]);
      outputMap := Put(outputMap, keys[i], outputTensors[i]);
      assert keys[..i + 1] == keys[..i] + [keys[i]];
      assert outputTensors[..i + 1] == outputTensors[..i] + [outputTensors[i]];
      i := i + 1;
    }
    assert keys[..i] == keys && outputTensors[..i] == outputTensors;
  }

  /** The `reduce` of the `outputNodeNames` getter. */
  method ReduceNodeNames(outputs: Entries<ModelTensorInfo>) returns (names: Entries<string>)
    requires DistinctKeys(outputs)
    ensures names == NodeNames(outputs)
  {
    var keys := Keys(outputs);
    names := [];
    var i := 0;
    while i < |keys|
      invariant 0 <= i <= |keys| && |names| == i
      invariant forall k :: 0 <= k < i ==> names[k] == (outputs[k].0, outputs[k].1.name)
    {
      LookupDistinct(outputs, i);
      var info := Lookup(outputs, keys[i]).value;
      assert keys[i] !in Keys(names) by {
        forall k | 0 <= k < i ensures Keys(names)[k] != keys[i] {
          assert Keys(names)[k] == outputs[k].0;
        }
      }
      PutAbsent(names, keys[i], info.name);
      names := Put(names, keys[i], info.name);
      i := i + 1;
    }
  }

  /** The `outputNodeNameArray` loop: each output key's node name, in key order. */
  method NodeNameArray(names: Entries<string>) returns (outputNodeNameArray: seq<string>)
    requires DistinctKeys(names)
    ensures outputNodeNameArray == Values(names)
  {
    var outputTensorNames := Keys(names);
    outputNodeNameArray := [];
    var i := 0;
    while i < |outputTensorNames|
      invariant 0 <= i <= |outputTensorNames| && |outputNodeNameArray| == i
      invariant forall k :: 0 <= k < i ==> outputNodeNameArray[k] == names[k].1
    {
      LookupDistinct(names, i);
      assert outputTensorNames[i] == names[i].0;
      var name := Lookup(names, outputTensorNames[i]).value;
      assert name == names[i].1;
      outputNodeNameArray := outputNodeNameArray + [name];
      i := i + 1;
    }
    assert |outputNodeNameArray| == |Values(names)|;
  }

  /** The named-map input side (saved_moddule.ts:211-223): compare the name arrays, then
      collect a tensor and an info per name. */
  method DispatchNamed(inputs: Entries<ModelTensorInfo>, provided: Entries<Tensor>)
    returns (r: Result<(seq<Tensor>, seq<ModelTensorInfo>), Error>)
    ensures r == NamedDispatch(inputs, provided)
  {
    var expectedKeys := Keys(inputs);
    var givenKeys := Keys(provided);
    var inputTensorNames := new string[|expectedKeys|](i requires 0 <= i < |expectedKeys| => expectedKeys[i]);
    var providedInputNames := new string[|givenKeys|](i requires 0 <= i < |givenKeys| => givenKeys[i]);
    assert inputTensorNames[..] == expectedKeys && providedInputNames[..] == givenKeys;
    var same := StringArraysHaveSameElements(inputTensorNames, providedInputNames);
    if !same {
      return Err(InputNameMismatch(inputTensorNames[..], providedInputNames[..]));
    }
    SortMembers(expectedKeys);
    r := CollectInputs(inputs, provided, inputTensorNames[..]);
  }

  /** The loop at saved_moddule.ts:219-223 over the (sorted) input names. */
  method CollectInputs(inputs: Entries<ModelTensorInfo>, provided: Entries<Tensor>, names: seq<string>)
    returns (r: Result<(seq<Tensor>, seq<ModelTensorInfo>), Error>)
    requires forall k :: 0 <= k < |names| ==> names[k] in Keys(inputs)
    ensures r == CollectedInputs(inputs, provided, names)
  {
    var inputTensors: seq<Tensor> := [];
    var inputNodeNameArray: seq<ModelTensorInfo> := [];
    var i := 0;
    while i < |names|
      invariant 0 <= i <= |names|
      invariant CollectFrom(provided, inputTensors, names[i..]) == CollectFrom(provided, [], names)
      invariant |inputNodeNameArray| == i
      invariant forall k :: 0 <= k < i ==> Lookup(inputs, names[k]) == Some(inputNodeNameArray[k])
    {
      var tensor := Lookup(provided, names[i]);
      assert names[i..][0] == names[i] && names[i..][1..] == names[i + 1..];
      if tensor.None? {
        return Err(MissingInput(names[i]));
      }
      inputTensors := inputTensors + [tensor.value];
      inputNodeNameArray := inputNodeNameArray + [Lookup(inputs, names[i]).value];
      i := i + 1;
    }
    assert names[|names|..] == [];
    assert inputNodeNameArray == InfosFor(inputs, names);
    r := Ok((inputTensors, inputNodeNameArray));
  }
}
