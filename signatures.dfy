/** `getSignatureDefEntryFromMetaGraphInfo` (saved_moddule.ts:116-131): the first metagraph
    whose tags match decides the outcome. */
module Signatures {
  import opened Wrappers
  import opened OrderedMaps
  import opened Tags
  import opened MetaGraphs

  /** Scans `savedModelInfo` in order. The comparison also sorts `tags` in place whenever a
      metagraph has as many tags (see `Tags.StringArraysHaveSameElements`); the loader
      accounts for that effect. `signatureDefs[signature] == null` is a missing key. */
  function GetSignatureDefEntryFromMetaGraphInfo(savedModelInfo: seq<MetaGraph>, tags: seq<string>, signature: string)
    : (r: Result<SignatureDefEntry, Error>)
    ensures r.Err? ==> r.error == SignatureNotFound(signature) || r.error == TagsNotFound(tags)
    decreases |savedModelInfo|
  {
    if savedModelInfo == [] then Err(TagsNotFound(tags))
    else if SameElements(tags, savedModelInfo[0].tags) then
      match Lookup(savedModelInfo[0].signatureDefs, signature)
      case None => Err(SignatureNotFound(signature))
      case Some(entry) => Ok(entry)
    else GetSignatureDefEntryFromMetaGraphInfo(savedModelInfo[1..], tags, signature)
  }

  /** The first metagraph whose tags match settles the result: its entry for `signature`,
      or "does not have a signature" when it has none, even if a later metagraph with
      matching tags has one. */
  lemma {:induction false} FirstMatchDecides(savedModelInfo: seq<MetaGraph>, tags: seq<string>, signature: string, i: nat)
    requires i < |savedModelInfo| && SameElements(tags, savedModelInfo[i].tags)
    requires forall j :: 0 <= j < i ==> !SameElements(tags, savedModelInfo[j].tags)
    ensures GetSignatureDefEntryFromMetaGraphInfo(savedModelInfo, tags, signature) ==
              match Lookup(savedModelInfo[i].signatureDefs, signature)
              case None => Err(SignatureNotFound(signature))
              case Some(entry) => Ok(entry)
  {
    if i > 0 {
      assert forall j :: 0 <= j < i - 1 ==> savedModelInfo[1..][j] == savedModelInfo[j + 1];
      FirstMatchDecides(savedModelInfo[1..], tags, signature, i - 1);
    }
  }

  /** "does not have tags" is raised exactly when no metagraph's tags match. */
  lemma {:induction false} TagsNotFoundIffNoMatch(savedModelInfo: seq<MetaGraph>, tags: seq<string>, signature: string)
    ensures GetSignatureDefEntryFromMetaGraphInfo(savedModelInfo, tags, signature) == Err(TagsNotFound(tags)) <==>
              forall j :: 0 <= j < |savedModelInfo| ==> !SameElements(tags, savedModelInfo[j].tags)
    decreases |savedModelInfo|
  {
    if savedModelInfo != [] {
      assert forall j :: 1 <= j < |savedModelInfo| ==> savedModelInfo[j] == savedModelInfo[1..][j - 1];
      TagsNotFoundIffNoMatch(savedModelInfo[1..], tags, signature);
    }
  }

  /** The position of the first metagraph whose tags match, `|savedModelInfo|` if none. */
  function FirstMatchingIndex(savedModelInfo: seq<MetaGraph>, tags: seq<string>): (i: nat)
    ensures i <= |savedModelInfo|
    ensures i < |savedModelInfo| ==> SameElements(tags, savedModelInfo[i].tags)
    ensures forall j :: 0 <= j < i ==> !SameElements(tags, savedModelInfo[j].tags)
    decreases |savedModelInfo|
  {
    if savedModelInfo == [] || SameElements(tags, savedModelInfo[0].tags) then 0
    else
      var k := FirstMatchingIndex(savedModelInfo[1..], tags);
      assert forall j :: 1 <= j < k + 1 ==> savedModelInfo[j] == savedModelInfo[1..][j - 1];
      k + 1
  }

  /** A resolved entry comes from the first metagraph whose tags match. Matching needs
      equal lengths, so the comparison left the caller's tag array sorted. */
  lemma ResolvedFromFirstMatch(savedModelInfo: seq<MetaGraph>, tags: seq<string>, signature: string)
    requires GetSignatureDefEntryFromMetaGraphInfo(savedModelInfo, tags, signature).Ok?
    ensures var i := FirstMatchingIndex(savedModelInfo, tags);
            i < |savedModelInfo| && |savedModelInfo[i].tags| == |tags| &&
            Lookup(savedModelInfo[i].signatureDefs, signature) ==
              Some(GetSignatureDefEntryFromMetaGraphInfo(savedModelInfo, tags, signature).value)
  {
    var i := FirstMatchingIndex(savedModelInfo, tags);
    TagsNotFoundIffNoMatch(savedModelInfo, tags, signature);
    if i < |savedModelInfo| {
      FirstMatchDecides(savedModelInfo, tags, signature, i);
    }
  }

  /** The resolved entry is one of the metagraphs' entries, so it keeps their shape. */
  lemma ResolvedEntryWellFormed(savedModelInfo: seq<MetaGraph>, tags: seq<string>, signature: string)
    requires forall g :: g in savedModelInfo ==> WellFormedDefs(g.signatureDefs)
    requires GetSignatureDefEntryFromMetaGraphInfo(savedModelInfo, tags, signature).Ok?
    ensures WellFormedEntry(GetSignatureDefEntryFromMetaGraphInfo(savedModelInfo, tags, signature).value)
  {
    ResolvedFromFirstMatch(savedModelInfo, tags, signature);
    var i := FirstMatchingIndex(savedModelInfo, tags);
    var entry := GetSignatureDefEntryFromMetaGraphInfo(savedModelInfo, tags, signature).value;
    var j :| 0 <= j < |savedModelInfo[i].signatureDefs| && savedModelInfo[i].signatureDefs[j] == (signature, entry);
    assert savedModelInfo[i] in savedModelInfo;
    assert savedModelInfo[i].signatureDefs[j] in savedModelInfo[i].signatureDefs;
  }

  /** Reordering the requested tags changes nothing but the tags named in the error. */
  lemma {:induction false} TagOrderIrrelevant(savedModelInfo: seq<MetaGraph>, tags: seq<string>, tags': seq<string>, signature: string)
    requires multiset(tags) == multiset(tags')
    ensures GetSignatureDefEntryFromMetaGraphInfo(savedModelInfo, tags', signature) ==
              if GetSignatureDefEntryFromMetaGraphInfo(savedModelInfo, tags, signature) == Err(TagsNotFound(tags))
              then Err(TagsNotFound(tags'))
              else GetSignatureDefEntryFromMetaGraphInfo(savedModelInfo, tags, signature)
    decreases |savedModelInfo|
  {
    if savedModelInfo != [] {
      SameElementsPermutation(tags, tags', savedModelInfo[0].tags);
      TagOrderIrrelevant(savedModelInfo[1..], tags, tags', signature);
    }
  }
}
