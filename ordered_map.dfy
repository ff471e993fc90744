/** String-keyed dictionaries that remember insertion order: the JavaScript objects
    (`{[key: string]: V}`) and the decoded protobuf maps the loader walks. */
module OrderedMaps {
  import opened Wrappers

  type Entries<V> = seq<(string, V)>

  function Keys<V>(m: Entries<V>): (ks: seq<string>)
    ensures |ks| == |m|
    ensures forall i :: 0 <= i < |m| ==> ks[i] == m[i].0
  {
    seq(|m|, i requires 0 <= i < |m| => m[i].0)
  }

  function Values<V>(m: Entries<V>): (vs: seq<V>)
    ensures |vs| == |m|
    ensures forall i :: 0 <= i < |m| ==> vs[i] == m[i].1
  {
    seq(|m|, i requires 0 <= i < |m| => m[i].1)
  }

  /** No key occurs twice, as in any JavaScript object or protobuf map. */
  predicate DistinctKeys<V>(m: Entries<V>) {
    forall i, j :: 0 <= i < j < |m| ==> m[i].0 != m[j].0
  }

  /** `m[k]`, with `None` for `undefined`. */
  function Lookup<V>(m: Entries<V>, k: string): (r: Option<V>)
    ensures r.None? <==> k !in Keys(m)
    ensures r.Some? ==> exists i :: 0 <= i < |m| && m[i] == (k, r.value)
  {
    if m == [] then None
    else if m[0].0 == k then Some(m[0].1)
    else
      var r := Lookup(m[1..], k);
      assert r.Some? ==> exists i :: 0 <= i < |m[1..]| && m[1..][i] == (k, r.value);
      assert Keys(m) == [m[0].0] + Keys(m[1..]);
      r
  }

  lemma LookupDistinct<V>(m: Entries<V>, i: nat)
    requires DistinctKeys(m) && i < |m|
    ensures Lookup(m, m[i].0) == Some(m[i].1)
  {
    var r := Lookup(m, m[i].0);
    var j :| 0 <= j < |m| && m[j] == (m[i].0, r.value);
    assert j == i;
  }

  /** `m[k] = v`: an existing key keeps its position, a new key goes last. */
  function Put<V>(m: Entries<V>, k: string, v: V): (r: Entries<V>)
    ensures |r| == if k in Keys(m) then |m| else |m| + 1
  {
    if m == [] then [(k, v)]
    else if m[0].0 == k then [(k, v)] + m[1..]
    else
      assert Keys(m) == [m[0].0] + Keys(m[1..]);
      [m[0]] + Put(m[1..], k, v)
  }

  lemma {:induction false} PutKeys<V>(m: Entries<V>, k: string, v: V)
    ensures Keys(Put(m, k, v)) == if k in Keys(m) then Keys(m) else Keys(m) + [k]
  {
    if m != [] {
      assert Keys(m) == [m[0].0] + Keys(m[1..]);
      if m[0].0 == k {
        assert Put(m, k, v) == [(k, v)] + m[1..];
        assert Keys([(k, v)] + m[1..]) == [k] + Keys(m[1..]);
      } else {
        PutKeys(m[1..], k, v);
        var t := Put(m[1..], k, v);
        assert Put(m, k, v) == [m[0]] + t;
        assert Keys([m[0]] + t) == [m[0].0] + Keys(t);
        assert (k in Keys(m)) == (k in Keys(m[1..]));
      }
    }
  }

  lemma {:induction false} PutLookup<V>(m: Entries<V>, k: string, v: V, k': string)
    ensures Lookup(Put(m, k, v), k') == if k' == k then Some(v) else Lookup(m, k')
  {
    if m != [] && m[0].0 != k {
      PutLookup(m[1..], k, v, k');
      assert ([m[0]] + Put(m[1..], k, v))[1..] == Put(m[1..], k, v);
    }
  }

  lemma {:induction false} PutDistinct<V>(m: Entries<V>, k: string, v: V)
    requires DistinctKeys(m)
    ensures DistinctKeys(Put(m, k, v))
  {
    PutKeys(m, k, v);
    var r := Put(m, k, v);
    forall i, j | 0 <= i < j < |r| ensures r[i].0 != r[j].0 {
      assert Keys(r)[i] == r[i].0 && Keys(r)[j] == r[j].0;
    }
  }

  /** `m[k] = v` stores nothing but `v` and what `m` already held. */
  lemma {:induction false} PutMembers<V>(m: Entries<V>, k: string, v: V)
    ensures forall e :: e in Put(m, k, v) ==> e == (k, v) || e in m
  {
    if m != [] && m[0].0 != k {
      PutMembers(m[1..], k, v);
      assert forall e :: e in m[1..] ==> e in m;
    }
  }

  lemma PutAbsent<V>(m: Entries<V>, k: string, v: V)
    requires k !in Keys(m)
    ensures Put(m, k, v) == m + [(k, v)]
  {
    if m != [] {
      assert Keys(m) == [m[0].0] + Keys(m[1..]);
      PutAbsent(m[1..], k, v);
      assert m == [m[0]] + m[1..];
    }
  }

  /** The object `{keys[0]: vs[0], keys[1]: vs[1], ...}` built key by key with distinct keys. */
  function Zip<V>(keys: seq<string>, vs: seq<V>): (m: Entries<V>)
    requires |keys| == |vs|
    ensures Keys(m) == keys && Values(m) == vs
  {
    seq(|keys|, i requires 0 <= i < |keys| => (keys[i], vs[i]))
  }
}
