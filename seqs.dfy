/** The array operations the dashboard uses (`filter`, `find`, `findIndex`,
    `reduce` to a sum, `map` with a replacement, `slice`) as functions on
    sequences, with the facts about them that the rest of the model needs. */
module Seqs {
  import opened Types

  // ----- filter -----

  /** The predicate `x => key(x) === k`. */
  function KeyIs<T, K(==)>(key: T -> K, k: K): T -> bool {
    x => key(x) == k
  }

  /** The elements of `s` that satisfy `p`, in their original order. */
  function Filter<T>(s: seq<T>, p: T -> bool): (r: seq<T>)
    ensures |r| <= |s|
  {
    if s == [] then []
    else if p(s[0]) then [s[0]] + Filter(s[1..], p)
    else Filter(s[1..], p)
  }

  /** What `filter` keeps: exactly the elements of `s` that satisfy `p`. */
  lemma {:induction false} FilterMembers<T>(s: seq<T>, p: T -> bool)
    ensures forall x :: x in Filter(s, p) ==> x in s && p(x)
    ensures forall x :: x in s && p(x) ==> x in Filter(s, p)
  {
    if s != [] {
      FilterMembers(s[1..], p);
      assert s == [s[0]] + s[1..];
    }
  }

  /** `r` is obtained from `s` by deleting elements, keeping the order. */
  ghost predicate IsSubsequence<T>(r: seq<T>, s: seq<T>)
    decreases |s|
  {
    r == [] ||
    (s != [] && ((r[0] == s[0] && IsSubsequence(r[1..], s[1..])) || IsSubsequence(r, s[1..])))
  }

  lemma {:induction false} FilterIsSubsequence<T>(s: seq<T>, p: T -> bool)
    ensures IsSubsequence(Filter(s, p), s)
  {
    if s != [] {
      FilterIsSubsequence(s[1..], p);
      var r := Filter(s, p);
      if p(s[0]) {
        assert r[0] == s[0] && r[1..] == Filter(s[1..], p);
      }
    }
  }

  lemma {:induction false} FilterAppend<T>(a: seq<T>, b: seq<T>, p: T -> bool)
    ensures Filter(a + b, p) == Filter(a, p) + Filter(b, p)
  {
    if a != [] {
      assert (a + b)[1..] == a[1..] + b;
      FilterAppend(a[1..], b, p);
    } else {
      assert a + b == b;
    }
  }

  /** Filtering with a predicate every element satisfies changes nothing. */
  lemma {:induction false} FilterKeepsAll<T>(s: seq<T>, p: T -> bool)
    requires forall i :: 0 <= i < |s| ==> p(s[i])
    ensures Filter(s, p) == s
  {
    if s != [] {
      FilterKeepsAll(s[1..], p);
    }
  }

  lemma {:induction false} FilterNone<T>(s: seq<T>, p: T -> bool)
    requires forall i :: 0 <= i < |s| ==> !p(s[i])
    ensures Filter(s, p) == []
  {
    if s != [] {
      FilterNone(s[1..], p);
    }
  }

  /** Filtering keeps everything when every element passes and nothing
      when none does. */
  lemma FilterExtremes<T>(s: seq<T>, p: T -> bool)
    ensures (forall i :: 0 <= i < |s| ==> p(s[i])) ==> Filter(s, p) == s
    ensures (forall i :: 0 <= i < |s| ==> !p(s[i])) ==> Filter(s, p) == []
  {
    if forall i :: 0 <= i < |s| ==> p(s[i]) {
      FilterKeepsAll(s, p);
    }
    if forall i :: 0 <= i < |s| ==> !p(s[i]) {
      FilterNone(s, p);
    }
  }

  /** The predicate `x => key(x) !== k`. */
  function KeyIsNot<T, K(==)>(key: T -> K, k: K): T -> bool {
    x => key(x) != k
  }

  /** The negation `x => !p(x)`. */
  function Not<T>(p: T -> bool): T -> bool {
    x => !p(x)
  }

  /** Both predicates hold. */
  function Both<T>(p: T -> bool, q: T -> bool): T -> bool {
    x => p(x) && q(x)
  }

  /** Filtering twice is filtering once by both predicates. */
  lemma {:induction false} FilterFilter<T>(s: seq<T>, p: T -> bool, q: T -> bool)
    ensures Filter(Filter(s, p), q) == Filter(s, Both(p, q))
  {
    if s != [] {
      FilterFilter(s[1..], p, q);
    }
  }

  lemma {:induction false} SubsequenceOfSelf<T>(s: seq<T>)
    ensures IsSubsequence(s, s)
  {
    if s != [] {
      SubsequenceOfSelf(s[1..]);
    }
  }

  /** Filtering a prefix yields a prefix of the filtered whole. */
  lemma FilterPrefix<T>(s: seq<T>, n: nat, p: T -> bool)
    requires n <= |s|
    ensures Filter(s[..n], p) <= Filter(s, p)
  {
    assert s == s[..n] + s[n..];
    FilterAppend(s[..n], s[n..], p);
  }

  /** Removing one key from a sequence whose keys are unique, and which holds
      that key, shortens it by exactly one. */
  lemma {:induction false} FilterOutUniqueKey<T, K>(s: seq<T>, key: T -> K, k: K)
    requires UniqueKeys(s, key)
    requires exists i :: 0 <= i < |s| && key(s[i]) == k
    ensures |Filter(s, KeyIsNot(key, k))| == |s| - 1
  {
    if key(s[0]) == k {
      FilterKeepsAll(s[1..], KeyIsNot(key, k));
    } else {
      var i :| 0 <= i < |s| && key(s[i]) == k;
      assert key(s[1..][i - 1]) == k;
      FilterOutUniqueKey(s[1..], key, k);
    }
  }

  /** Where keys are unique, replacing an element by one with the same key
      that `p` rejects filters to the old filtered sequence minus that key. */
  lemma {:induction false} FilterUpdateRejected<T, K>(s: seq<T>, i: nat, x: T, p: T -> bool, key: T -> K)
    requires i < |s| && UniqueKeys(s, key)
    requires key(x) == key(s[i]) && !p(x)
    ensures Filter(s[i := x], p) == Filter(Filter(s, p), KeyIsNot(key, key(x)))
  {
    var k := key(x);
    var head := if p(s[0]) then [s[0]] else [];
    assert Filter(s, p) == head + Filter(s[1..], p);
    FilterAppend(head, Filter(s[1..], p), KeyIsNot(key, k));
    if i == 0 {
      assert s[i := x] == [x] + s[1..];
      assert s[i := x][1..] == s[1..];
      forall j | 0 <= j < |Filter(s[1..], p)|
        ensures KeyIsNot(key, k)(Filter(s[1..], p)[j])
      {
        var t := s[1..];
        var y := Filter(t, p)[j];
        FilterMembers(t, p);
        assert y in t;
        var m :| 0 <= m < |t| && t[m] == y;
        assert s[m + 1] == y;
      }
      FilterKeepsAll(Filter(s[1..], p), KeyIsNot(key, k));
    } else {
      assert s[i := x] == [s[0]] + s[1..][i - 1 := x];
      assert s[i := x][1..] == s[1..][i - 1 := x];
      assert key(s[0]) != k;
      assert UniqueKeys(s[1..], key) by {
        forall a, b | 0 <= a < b < |s[1..]| ensures key(s[1..][a]) != key(s[1..][b]) {
          assert s[1..][a] == s[a + 1] && s[1..][b] == s[b + 1];
        }
      }
      FilterUpdateRejected(s[1..], i - 1, x, p, key);
    }
  }

  /** `filter` keeps every copy of an element that passes and no copy of
      one that does not. */
  lemma {:induction false} FilterMultiplicity<T>(s: seq<T>, p: T -> bool)
    ensures forall x :: multiset(Filter(s, p))[x] == if p(x) then multiset(s)[x] else 0
  {
    if s != [] {
      FilterMultiplicity(s[1..], p);
      assert s == [s[0]] + s[1..];
    }
  }

  /** The positions of `s` whose element satisfies `p`. */
  ghost function Positions<T>(s: seq<T>, p: T -> bool): set<int> {
    set i | 0 <= i < |s| && p(s[i])
  }

  /** `filter(p).length` counts the positions that satisfy `p`. */
  lemma {:induction false} FilterLengthIsCount<T>(s: seq<T>, p: T -> bool)
    ensures |Filter(s, p)| == |Positions(s, p)|
    decreases |s|
  {
    if s != [] {
      var n := |s| - 1;
      FilterLengthIsCount(s[..n], p);
      assert s == s[..n] + [s[n]];
      FilterAppend(s[..n], [s[n]], p);
      var before := Positions(s[..n], p);
      assert before == set i | 0 <= i < n && p(s[i]);
      if p(s[n]) {
        assert Positions(s, p) == before + {n};
      } else {
        assert Positions(s, p) == before;
      }
    }
  }

  /** Two predicates no element satisfies at once select at most |s|
      elements between them. */
  lemma {:induction false} FilterDisjointCount<T>(s: seq<T>, p: T -> bool, q: T -> bool)
    requires forall i :: 0 <= i < |s| ==> !(p(s[i]) && q(s[i]))
    ensures |Filter(s, p)| + |Filter(s, q)| <= |s|
  {
    if s != [] {
      FilterDisjointCount(s[1..], p, q);
    }
  }

  // ----- reduce to a sum -----

  /** `s.reduce((sum, x) => sum + w(x), 0)`. */
  function SumOf<T>(s: seq<T>, w: T -> int): (r: int)
    ensures s == [] ==> r == 0
    ensures (forall i :: 0 <= i < |s| ==> w(s[i]) >= 0) ==> r >= 0
  {
    if s == [] then 0 else w(s[0]) + SumOf(s[1..], w)
  }

  lemma {:induction false} SumOfAppend<T>(a: seq<T>, b: seq<T>, w: T -> int)
    ensures SumOf(a + b, w) == SumOf(a, w) + SumOf(b, w)
  {
    if a != [] {
      assert (a + b)[1..] == a[1..] + b;
      SumOfAppend(a[1..], b, w);
    } else {
      assert a + b == b;
    }
  }

  /** Filtering and summing a list is filtering and summing all but its
      last element, plus the last weight when the last element passes. */
  lemma FilterSumSnoc<T>(s: seq<T>, p: T -> bool, w: T -> int)
    requires s != []
    ensures SumOf(Filter(s, p), w) ==
              SumOf(Filter(s[..|s| - 1], p), w) + (if p(s[|s| - 1]) then w(s[|s| - 1]) else 0)
  {
    var n := |s| - 1;
    assert s == s[..n] + [s[n]];
    FilterAppend(s[..n], [s[n]], p);
    SumOfAppend(Filter(s[..n], p), Filter([s[n]], p), w);
    if p(s[n]) {
      assert Filter([s[n]], p) == [s[n]];
    }
  }

  /** Replacing one element changes the sum by the difference of weights. */
  lemma {:induction false} SumOfUpdate<T>(s: seq<T>, i: nat, x: T, w: T -> int)
    requires i < |s|
    ensures SumOf(s[i := x], w) == SumOf(s, w) - w(s[i]) + w(x)
  {
    if i > 0 {
      assert s[i := x][1..] == s[1..][i - 1 := x];
      SumOfUpdate(s[1..], i - 1, x, w);
    } else {
      assert s[i := x][1..] == s[1..];
    }
  }

  /** Splitting by a predicate conserves the sum. */
  lemma {:induction false} SumOfPartition<T>(s: seq<T>, p: T -> bool, w: T -> int)
    ensures SumOf(Filter(s, p), w) + SumOf(Filter(s, Not(p)), w) == SumOf(s, w)
  {
    if s != [] {
      SumOfPartition(s[1..], p, w);
    }
  }

  /** With non-negative weights, the sum over a filtered part lies between
      zero and the sum over the whole. */
  lemma {:induction false} SumOfFilterBounded<T>(s: seq<T>, p: T -> bool, w: T -> int)
    requires forall i :: 0 <= i < |s| ==> w(s[i]) >= 0
    ensures 0 <= SumOf(Filter(s, p), w) <= SumOf(s, w)
  {
    if s != [] {
      SumOfFilterBounded(s[1..], p, w);
    }
  }

  /** A lower bound on every weight bounds the sum by that many times the
      length. */
  lemma {:induction false} SumOfAtLeast<T>(s: seq<T>, w: T -> int, b: int)
    ensures (forall i :: 0 <= i < |s| ==> w(s[i]) >= b) ==> SumOf(s, w) >= b * |s|
  {
    if s != [] {
      SumOfAtLeast(s[1..], w, b);
      assert b * |s| == b + b * |s[1..]|;
      assert (forall i :: 0 <= i < |s| ==> w(s[i]) >= b) ==> forall i :: 0 <= i < |s[1..]| ==> w(s[1..][i]) >= b;
    }
  }

  /** With unit weights the sum is the length. */
  lemma {:induction false} SumOfOnes<T>(s: seq<T>, w: T -> int)
    requires forall i :: 0 <= i < |s| ==> w(s[i]) == 1
    ensures SumOf(s, w) == |s|
  {
    if s != [] {
      SumOfOnes(s[1..], w);
    }
  }

  // ----- find / findIndex -----

  /** `s.findIndex(x => key(x) === k)`: the first position whose key is `k`,
      or -1. */
  function FindIndex<T, K(==)>(s: seq<T>, key: T -> K, k: K): (r: int)
    ensures -1 <= r < |s|
    ensures r >= 0 ==> key(s[r]) == k && forall j :: 0 <= j < r ==> key(s[j]) != k
    ensures r < 0 ==> forall j :: 0 <= j < |s| ==> key(s[j]) != k
  {
    if s == [] then -1
    else if key(s[0]) == k then 0
    else
      var i := FindIndex(s[1..], key, k);
      if i < 0 then -1 else i + 1
  }

  /** `s.find(x => key(x) === k)`: the first element whose key is `k`. */
  function Find<T, K(==)>(s: seq<T>, key: T -> K, k: K): (r: Option<T>)
    ensures r.Some? <==> exists i :: 0 <= i < |s| && key(s[i]) == k
    ensures r.Some? ==> key(r.value) == k
    ensures r.Some? ==>
              exists i :: 0 <= i < |s| && s[i] == r.value && forall j :: 0 <= j < i ==> key(s[j]) != k
  {
    var i := FindIndex(s, key, k);
    if i >= 0 then Some(s[i]) else None
  }

  /** Sequences with the same keys position by position have the same
      first match for every key. */
  lemma FindIndexSameKeys<T, K>(a: seq<T>, b: seq<T>, key: T -> K, k: K)
    requires |a| == |b|
    requires forall i :: 0 <= i < |a| ==> key(a[i]) == key(b[i])
    ensures FindIndex(a, key, k) == FindIndex(b, key, k)
  {
    var ia, ib := FindIndex(a, key, k), FindIndex(b, key, k);
    assert ia >= 0 ==> key(b[ia]) == k;
    assert ib >= 0 ==> key(a[ib]) == k;
  }

  /** Appending behind a match does not change what is found. */
  lemma FindAppendFound<T, K>(s: seq<T>, x: T, key: T -> K, k: K)
    requires Find(s, key, k).Some?
    ensures FindIndex(s + [x], key, k) == FindIndex(s, key, k)
    ensures Find(s + [x], key, k) == Find(s, key, k)
  {
    var i := FindIndex(s, key, k);
    var j := FindIndex(s + [x], key, k);
    assert (s + [x])[i] == s[i];
    assert forall m :: 0 <= m < |s| ==> (s + [x])[m] == s[m];
  }

  /** Appending an element with another key does not change what a lookup
      finds. */
  lemma FindAppendOther<T, K>(s: seq<T>, x: T, key: T -> K, k: K)
    requires key(x) != k
    ensures FindIndex(s + [x], key, k) == FindIndex(s, key, k)
  {
    var i := FindIndex(s, key, k);
    var j := FindIndex(s + [x], key, k);
    assert forall m :: 0 <= m < |s| ==> (s + [x])[m] == s[m];
    assert j < |s|;
  }

  /** Keys are pairwise distinct. */
  ghost predicate UniqueKeys<T, K>(s: seq<T>, key: T -> K) {
    forall i, j :: 0 <= i < j < |s| ==> key(s[i]) != key(s[j])
  }

  // ----- upsert (`findIndex`, then replace in place or `push`) -----

  /** Replaces the first element with the key of `x` by `x`, or appends `x`
      when no element has that key. */
  function Upsert<T, K(==)>(s: seq<T>, x: T, key: T -> K): (r: seq<T>)
    ensures FindIndex(s, key, key(x)) >= 0 ==>
              var i := FindIndex(s, key, key(x));
              |r| == |s| && r[i] == x && forall j :: 0 <= j < |s| && j != i ==> r[j] == s[j]
    ensures FindIndex(s, key, key(x)) < 0 ==> |r| == |s| + 1 && r[..|s|] == s && r[|s|] == x
  {
    var i := FindIndex(s, key, key(x));
    if i >= 0 then s[i := x] else s + [x]
  }

  /** Round trip: looking up the key of an upserted element finds it. */
  lemma UpsertThenFind<T, K>(s: seq<T>, x: T, key: T -> K)
    ensures FindIndex(Upsert(s, x, key), key, key(x)) == (if FindIndex(s, key, key(x)) >= 0 then FindIndex(s, key, key(x)) else |s|)
    ensures Find(Upsert(s, x, key), key, key(x)) == Some(x)
  {
    var r := Upsert(s, x, key);
    var i := FindIndex(s, key, key(x));
    var j := FindIndex(r, key, key(x));
    if i >= 0 {
      assert key(r[i]) == key(x);
    } else {
      assert key(r[|s|]) == key(x);
    }
  }

  /** An upsert does not change what a lookup under the same key function
      finds for any other key. */
  lemma UpsertKeepsOtherKeys<T, K>(s: seq<T>, x: T, key: T -> K, k: K)
    requires k != key(x)
    ensures Find(Upsert(s, x, key), key, k) == Find(s, key, k)
  {
    var r := Upsert(s, x, key);
    var i := FindIndex(s, key, key(x));
    if i >= 0 {
      FindIndexSameKeys(r, s, key, k);
    } else {
      assert forall m :: 0 <= m < |s| ==> r[m] == s[m];
    }
  }

  /** Upserting the same element twice is the same as once. */
  lemma UpsertIdempotent<T, K>(s: seq<T>, x: T, key: T -> K)
    ensures Upsert(Upsert(s, x, key), x, key) == Upsert(s, x, key)
  {
    UpsertThenFind(s, x, key);
    var r := Upsert(s, x, key);
    var i := FindIndex(r, key, key(x));
    assert r[i := x] == r;
  }

  // ----- map with replacement -----

  /** `s.map(y => key(y) === k ? x : y)`: every element with key `k` becomes `x`. */
  function ReplaceWhere<T, K(==)>(s: seq<T>, key: T -> K, k: K, x: T): (r: seq<T>)
    ensures |r| == |s|
    ensures forall i :: 0 <= i < |s| ==> r[i] == (if key(s[i]) == k then x else s[i])
  {
    seq(|s|, i requires 0 <= i < |s| => if key(s[i]) == k then x else s[i])
  }

  /** When keys are unique and `x` keeps the key `k`, replacing by key is the
      same as the store's upsert: the local list and the stored one agree. */
  lemma ReplaceWhereIsUpsert<T, K>(s: seq<T>, key: T -> K, k: K, x: T)
    requires UniqueKeys(s, key) && key(x) == k
    requires FindIndex(s, key, k) >= 0
    ensures ReplaceWhere(s, key, k, x) == Upsert(s, x, key)
  {
    var i := FindIndex(s, key, k);
    var r := ReplaceWhere(s, key, k, x);
    forall j | 0 <= j < |s|
      ensures r[j] == s[i := x][j]
    {
      assert j != i ==> key(s[i]) != key(s[j]);
    }
  }

  // ----- slice -----

  /** `s.slice(0, n)`. */
  function Take<T>(s: seq<T>, n: nat): (r: seq<T>)
    ensures |r| == if |s| <= n then |s| else n
    ensures r == s[..|r|]
  {
    if |s| <= n then s else s[..n]
  }
}
