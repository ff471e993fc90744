/** `stringArraysHaveSameElements` (saved_moddule.ts:281-288): the comparison used both to
    match a requested tag list against a metagraph's tags and to check the names of a
    named-tensor input against the signature's input names. It compares lengths, then the
    comma-joined forms of both arrays after sorting them in place with JavaScript's default
    (lexicographic) order. */
module Tags {

  /** JavaScript's default `Array.prototype.sort` order on strings: lexicographic by
      character, a proper prefix first. */
  predicate LessEq(a: string, b: string)
    decreases |a|
  {
    |a| == 0 || (|b| > 0 && (a[0] < b[0] || (a[0] == b[0] && LessEq(a[1..], b[1..]))))
  }

  lemma LessEqTotal(a: string, b: string)
    ensures LessEq(a, b) || LessEq(b, a)
    decreases |a|
  {
    if |a| > 0 && |b| > 0 && a[0] == b[0] { LessEqTotal(a[1..], b[1..]); }
  }

  lemma LessEqReflexive(a: string)
    ensures LessEq(a, a)
    decreases |a|
  {
    if |a| > 0 { LessEqReflexive(a[1..]); }
  }

  lemma LessEqAntisymmetric(a: string, b: string)
    requires LessEq(a, b) && LessEq(b, a)
    ensures a == b
    decreases |a|
  {
    if |a| > 0 {
      LessEqAntisymmetric(a[1..], b[1..]);
      assert a == [a[0]] + a[1..] && b == [b[0]] + b[1..];
    }
  }

  lemma LessEqTransitive(a: string, b: string, c: string)
    requires LessEq(a, b) && LessEq(b, c)
    ensures LessEq(a, c)
    decreases |a|
  {
    if |a| > 0 && a[0] == b[0] && b[0] == c[0] { LessEqTransitive(a[1..], b[1..], c[1..]); }
  }

  predicate Sorted(s: seq<string>) {
    forall i, j :: 0 <= i < j < |s| ==> LessEq(s[i], s[j])
  }

  function Insert(x: string, s: seq<string>): (r: seq<string>)
    ensures |r| == |s| + 1
    ensures multiset(r) == multiset(s) + multiset{x}
  {
    if s == [] then [x]
    else if LessEq(x, s[0]) then [x] + s
    else
      assert s == [s[0]] + s[1..];
      [s[0]] + Insert(x, s[1..])
  }

  lemma {:induction false} InsertSorted(x: string, s: seq<string>)
    requires Sorted(s)
    ensures Sorted(Insert(x, s))
  {
    if s == [] {
    } else if LessEq(x, s[0]) {
      var r := [x] + s;
      forall i, j | 0 <= i < j < |r| ensures LessEq(r[i], r[j]) {
        if i == 0 {
          if j > 1 { LessEqTransitive(x, s[0], s[j - 1]); }
        } else {
          assert r[i] == s[i - 1] && r[j] == s[j - 1];
        }
      }
    } else {
      assert Sorted(s[1..]) by {
        forall i, j | 0 <= i < j < |s[1..]| ensures LessEq(s[1..][i], s[1..][j]) {
          assert s[1..][i] == s[i + 1] && s[1..][j] == s[j + 1];
        }
      }
      InsertSorted(x, s[1..]);
      var t := Insert(x, s[1..]);
      var r := [s[0]] + t;
      LessEqTotal(x, s[0]);
      forall j | 0 < j < |r| ensures LessEq(s[0], r[j]) {
        assert r[j] == t[j - 1];
        assert r[j] in multiset(t);
        assert r[j] in multiset(s[1..]) + multiset{x};
        if r[j] != x {
          assert r[j] in s[1..];
          var k :| 0 <= k < |s[1..]| && s[1..][k] == r[j];
          assert s[k + 1] == r[j];
        }
      }
      forall i, j | 0 <= i < j < |r| ensures LessEq(r[i], r[j]) {
        if i > 0 {
          assert r[i] == t[i - 1] && r[j] == t[j - 1];
        }
      }
    }
  }

  /** The order `Array.prototype.sort()` leaves an array of strings in. */
  function Sort(s: seq<string>): (r: seq<string>)
    ensures |r| == |s|
    ensures multiset(r) == multiset(s)
    ensures Sorted(r)
  {
    if s == [] then []
    else
      assert s == [s[0]] + s[1..];
      InsertSorted(s[0], Sort(s[1..]));
      Insert(s[0], Sort(s[1..]))
  }

  lemma SortedTail(a: seq<string>)
    requires Sorted(a) && a != []
    ensures Sorted(a[1..])
  {
    forall i, j | 0 <= i < j < |a[1..]| ensures LessEq(a[1..][i], a[1..][j]) {
      assert a[1..][i] == a[i + 1] && a[1..][j] == a[j + 1];
    }
  }

  /** The head of a sorted sequence is below every element of it. */
  lemma SortedHeadLeast(a: seq<string>, x: string)
    requires Sorted(a) && x in multiset(a)
    ensures LessEq(a[0], x)
  {
    var j :| 0 <= j < |a| && a[j] == x;
    if j == 0 { LessEqReflexive(x); }
  }

  /** A sorted arrangement of a multiset of strings is unique. */
  lemma {:induction false} SortedUnique(a: seq<string>, b: seq<string>)
    requires Sorted(a) && Sorted(b) && multiset(a) == multiset(b)
    ensures a == b
  {
    assert |a| == |multiset(a)| == |b|;
    if a != [] {
      SortedHeadLeast(a, b[0]);
      SortedHeadLeast(b, a[0]);
      LessEqAntisymmetric(a[0], b[0]);
      assert a == [a[0]] + a[1..] && b == [b[0]] + b[1..];
      assert multiset(a) == multiset{a[0]} + multiset(a[1..]);
      assert multiset(b) == multiset{b[0]} + multiset(b[1..]);
      assert multiset(a[1..]) == multiset(a) - multiset{a[0]};
      assert multiset(b[1..]) == multiset(b) - multiset{b[0]};
      SortedTail(a);
      SortedTail(b);
      SortedUnique(a[1..], b[1..]);
    }
  }

  lemma SortOfPermutation(a: seq<string>, b: seq<string>)
    requires multiset(a) == multiset(b)
    ensures Sort(a) == Sort(b)
  {
    SortedUnique(Sort(a), Sort(b));
  }

  lemma SortIdempotent(s: seq<string>)
    ensures Sort(Sort(s)) == Sort(s)
  {
    SortOfPermutation(Sort(s), s);
  }

  /** `Array.prototype.join()`: the elements separated by commas. */
  function Join(s: seq<string>): string {
    if |s| == 0 then ""
    else if |s| == 1 then s[0]
    else s[0] + "," + Join(s[1..])
  }

  /** The boolean `stringArraysHaveSameElements` returns. */
  predicate SameElements(a: seq<string>, b: seq<string>) {
    |a| == |b| && Join(Sort(a)) == Join(Sort(b))
  }

  predicate CommaFree(s: seq<string>) {
    forall i :: 0 <= i < |s| ==> ',' !in s[i]
  }

  /** In `x + "," + u` with `x` free of commas, the first comma stands right after `x`. */
  lemma FirstComma(x: string, u: string)
    ensures ',' !in x ==> forall k :: 0 <= k < |x| ==> (x + "," + u)[k] != ','
    ensures (x + "," + u)[|x|] == ','
  {
    if ',' !in x {
      forall k | 0 <= k < |x| ensures (x + "," + u)[k] != ',' {
        assert (x + "," + u)[k] == x[k];
      }
    }
  }

  lemma CommaFreeSplit(x: string, u: string, y: string, w: string)
    requires ',' !in x && ',' !in y && x + "," + u == y + "," + w
    ensures x == y && u == w
  {
    var l := x + "," + u;
    FirstComma(x, u);
    FirstComma(y, w);
    assert |x| == |y|;
    assert x == l[..|x|] == y;
    assert u == l[|x| + 1..] == w;
  }

  lemma {:induction false} JoinInjective(a: seq<string>, b: seq<string>)
    requires |a| == |b| && CommaFree(a) && CommaFree(b) && Join(a) == Join(b)
    ensures a == b
  {
    if |a| == 1 {
      assert a == [a[0]] && b == [b[0]];
    } else if |a| > 1 {
      assert ',' !in a[0] && ',' !in b[0];
      CommaFreeSplit(a[0], Join(a[1..]), b[0], Join(b[1..]));
      assert CommaFree(a[1..]) by { forall i | 0 <= i < |a[1..]| ensures ',' !in a[1..][i] { assert a[1..][i] == a[i + 1]; } }
      assert CommaFree(b[1..]) by { forall i | 0 <= i < |b[1..]| ensures ',' !in b[1..][i] { assert b[1..][i] == b[i + 1]; } }
      JoinInjective(a[1..], b[1..]);
      assert a == [a[0]] + a[1..] && b == [b[0]] + b[1..];
    }
  }

  lemma SortCommaFree(s: seq<string>)
    requires CommaFree(s)
    ensures CommaFree(Sort(s))
  {
    var r := Sort(s);
    forall i | 0 <= i < |r| ensures ',' !in r[i] {
      assert r[i] in multiset(s);
      var k :| 0 <= k < |s| && s[k] == r[i];
    }
  }

  /** For names without commas the check is exactly equality of multisets: order does not
      matter and duplicates do. */
  lemma SameElementsIsMultisetEquality(a: seq<string>, b: seq<string>)
    requires CommaFree(a) && CommaFree(b)
    ensures SameElements(a, b) <==> multiset(a) == multiset(b)
  {
    if multiset(a) == multiset(b) {
      SortOfPermutation(a, b);
      assert |a| == |multiset(a)| == |b|;
    }
    if SameElements(a, b) {
      SortCommaFree(a);
      SortCommaFree(b);
      JoinInjective(Sort(a), Sort(b));
    }
  }

  /** The check does not depend on the order of either argument. */
  lemma SameElementsPermutation(a: seq<string>, a': seq<string>, b: seq<string>)
    requires multiset(a) == multiset(a')
    ensures SameElements(a, b) == SameElements(a', b)
    ensures SameElements(b, a) == SameElements(b, a')
  {
    SortOfPermutation(a, a');
    assert |a| == |multiset(a)| == |a'|;
  }

  lemma SameElementsSortInvariant(a: seq<string>, b: seq<string>)
    ensures SameElements(a, b) == SameElements(Sort(a), b)
    ensures SameElements(a, b) == SameElements(a, Sort(b))
  {
    SameElementsPermutation(a, Sort(a), b);
    SameElementsPermutation(b, Sort(b), a);
  }

  /** Duplicates count: the same set of tags with different multiplicities is refused. */
  lemma DuplicatesMatter()
    ensures !SameElements(["serve", "serve", "gpu"], ["serve", "gpu", "gpu"])
  {
    var a, b := ["serve", "serve", "gpu"], ["serve", "gpu", "gpu"];
    assert multiset(a)["serve"] == 2 && multiset(b)["serve"] == 1;
    SameElementsIsMultisetEquality(a, b);
  }

  lemma SortPair(x: string, y: string)
    requires LessEq(x, y)
    ensures Sort([x, y]) == [x, y]
  {
    assert [x, y][1..] == [y] && [y][1..] == [];
    assert Sort([y]) == Insert(y, []) == [y];
  }

  lemma JoinPair(x: string, y: string)
    ensures Join([x, y]) == x + "," + y
  {
    assert [x, y][1..] == [y];
  }

  /** Names that contain commas can collide once joined. */
  lemma CommaCollision()
    ensures SameElements(["a,b", "c"], ["a", "b,c"])
    ensures multiset(["a,b", "c"]) != multiset(["a", "b,c"])
  {
    SortPair("a,b", "c");
    SortPair("a", "b,c");
    JoinPair("a,b", "c");
    JoinPair("a", "b,c");
    assert "a,b" + "," + "c" == "a" + "," + "b,c";
    assert "a" !in multiset(["a,b", "c"]);
  }

  /** `array.sort()`: the array's contents become their sorted arrangement. */
  lemma SortMembers(s: seq<string>)
    ensures forall i :: 0 <= i < |Sort(s)| ==> Sort(s)[i] in s
  {
    var r := Sort(s);
    forall i | 0 <= i < |r| ensures r[i] in s {
      assert r[i] in multiset(r);
    }
  }

  method SortInPlace(a: array<string>)
    modifies a
    ensures a[..] == Sort(old(a[..]))
  {
    var s := Sort(a[..]);
    forall i | 0 <= i < a.Length {
      a[i] := s[i];
    }
    assert a[..] == s;
  }

  /** saved_moddule.ts:281-288. The `&&` short-circuits: when the lengths differ neither
      array is sorted. Otherwise both are left sorted, which is visible to the caller. */
  method StringArraysHaveSameElements(arrayA: array<string>, arrayB: array<string>) returns (same: bool)
    modifies arrayA, arrayB
    ensures same == SameElements(old(arrayA[..]), old(arrayB[..]))
    ensures arrayA.Length != arrayB.Length ==> arrayA[..] == old(arrayA[..]) && arrayB[..] == old(arrayB[..])
    ensures arrayA.Length == arrayB.Length ==>
              arrayA[..] == Sort(old(arrayA[..])) && arrayB[..] == Sort(old(arrayB[..]))
  {
    if arrayA.Length != arrayB.Length {
      return false;
    }
    SortInPlace(arrayA);
    var joinedA := Join(arrayA[..]);
    ghost var beforeB := arrayB[..];
    SortInPlace(arrayB);
    var joinedB := Join(arrayB[..]);
    if arrayA == arrayB {
      SortIdempotent(old(arrayA[..]));
    }
    assert beforeB == old(arrayB[..]) || (arrayA == arrayB && beforeB == Sort(old(arrayB[..])));
    SortIdempotent(old(arrayB[..]));
    same := joinedA == joinedB;
  }
}
