/** Group-by sums: the `reduce((acc, x) => { acc[k] = (acc[k] || 0) + w; return acc }, {})`
    folds that build a `Record<K, number>`. The record is modelled as an
    association list whose entries appear in the order their keys were first
    met, which is the order `Object.entries` hands them to the charts. */
module Grouping {
  import opened Types
  import opened Seqs

  type Groups<K> = seq<(K, int)>

  function EntryKey<K>(e: (K, int)): K { e.0 }

  function EntryValue<K>(e: (K, int)): int { e.1 }

  /** No key occurs twice, as in a JavaScript object. */
  ghost predicate DistinctKeys<K>(g: Groups<K>) {
    UniqueKeys(g, EntryKey)
  }

  /** Sum of all values of the record. */
  function ValueSum<K>(g: Groups<K>): int {
    SumOf(g, EntryValue)
  }

  ghost function KeySet<K>(g: Groups<K>): set<K> {
    set e | e in g :: e.0
  }

  /** `acc[k] || 0`: the value stored under `k`, or 0 when there is none. */
  function Lookup<K(==)>(g: Groups<K>, k: K): int {
    var i := FindIndex(g, EntryKey, k);
    if i >= 0 then g[i].1 else 0
  }

  /** What `acc[k] || 0` reads: 0 for an absent key, otherwise the value of
      an entry with key `k`, which is the only one when keys are distinct. */
  lemma LookupMeaning<K>(g: Groups<K>, k: K)
    ensures (forall i :: 0 <= i < |g| ==> g[i].0 != k) ==> Lookup(g, k) == 0
    ensures (exists i :: 0 <= i < |g| && g[i].0 == k) ==> (k, Lookup(g, k)) in g
    ensures DistinctKeys(g) ==> forall i :: 0 <= i < |g| && g[i].0 == k ==> Lookup(g, k) == g[i].1
  {
    var i := FindIndex(g, EntryKey, k);
    if i >= 0 {
      assert g[i] == (k, Lookup(g, k));
    }
  }

  /** One step of the fold: `acc[k] = (acc[k] || 0) + v`. */
  function Accumulate<K(==,!new)>(g: Groups<K>, k: K, v: int): (r: Groups<K>)
    ensures DistinctKeys(g) ==> DistinctKeys(r)
    ensures ValueSum(r) == ValueSum(g) + v
    ensures Lookup(r, k) == Lookup(g, k) + v
    ensures forall k' :: k' != k ==> Lookup(r, k') == Lookup(g, k')
    ensures KeySet(r) == KeySet(g) + {k}
    ensures FindIndex(g, EntryKey, k) >= 0 ==> |r| == |g| && forall j :: 0 <= j < |g| ==> r[j].0 == g[j].0
    ensures FindIndex(g, EntryKey, k) < 0 ==> r == g + [(k, v)]
  {
    var i := FindIndex(g, EntryKey, k);
    if i >= 0 then
      AccumulateExisting(g, k, v, i);
      g[i := (k, g[i].1 + v)]
    else
      AccumulateNew(g, k, v);
      g + [(k, v)]
  }

  /** What one step of the fold promises about its result `r`. */
  ghost predicate AccumulatedFrom<K(!new)>(r: Groups<K>, g: Groups<K>, k: K, v: int) {
    KeysAccumulated(r, g, k) && ValuesAccumulated(r, g, k, v)
  }

  /** The keys after one step: `k` joins them, and they stay distinct. */
  ghost predicate KeysAccumulated<K(!new)>(r: Groups<K>, g: Groups<K>, k: K) {
    && (DistinctKeys(g) ==> DistinctKeys(r))
    && KeySet(r) == KeySet(g) + {k}
  }

  /** The values after one step: `v` is added under `k` and nowhere else. */
  ghost predicate ValuesAccumulated<K(!new)>(r: Groups<K>, g: Groups<K>, k: K, v: int) {
    && ValueSum(r) == ValueSum(g) + v
    && Lookup(r, k) == Lookup(g, k) + v
    && (forall k' :: k' != k ==> Lookup(r, k') == Lookup(g, k'))
  }

  /** A key already present is updated in place. */
  lemma AccumulateExisting<K(!new)>(g: Groups<K>, k: K, v: int, i: int)
    requires i == FindIndex(g, EntryKey, k) && i >= 0
    ensures AccumulatedFrom(g[i := (k, g[i].1 + v)], g, k, v)
    ensures forall j :: 0 <= j < |g| ==> g[i := (k, g[i].1 + v)][j].0 == g[j].0
  {
    ExistingKeys(g, k, v, i);
    ExistingValues(g, k, v, i);
  }

  /** Updating the entry of `k` in place keeps every key where it was. */
  lemma ExistingKeys<K(!new)>(g: Groups<K>, k: K, v: int, i: int)
    requires 0 <= i < |g| && g[i].0 == k
    ensures KeysAccumulated(g[i := (k, g[i].1 + v)], g, k)
    ensures forall j :: 0 <= j < |g| ==> g[i := (k, g[i].1 + v)][j].0 == g[j].0
  {
    assert g[i] in g;
    SameKeysAfterUpdate(g, i, (k, g[i].1 + v));
  }

  /** Updating the first entry of `k` in place adds `v` to what `k` reads
      and to the total. */
  lemma ExistingValues<K(!new)>(g: Groups<K>, k: K, v: int, i: int)
    requires i == FindIndex(g, EntryKey, k) && i >= 0
    ensures ValuesAccumulated(g[i := (k, g[i].1 + v)], g, k, v)
  {
    var e := (k, g[i].1 + v);
    assert EntryKey(g[i]) == k;
    assert EntryValue(e) == EntryValue(g[i]) + v;
    SumOfUpdate(g, i, e, EntryValue);
    LookupAfterUpdate(g, i, e);
  }

  /** Replacing the first entry with key `e.0` by `e` changes what that key
      reads, and no other. */
  lemma LookupAfterUpdate<K>(g: Groups<K>, i: int, e: (K, int))
    requires 0 <= i < |g| && i == FindIndex(g, EntryKey, e.0)
    ensures Lookup(g[i := e], e.0) == e.1
    ensures forall k' :: k' != e.0 ==> Lookup(g[i := e], k') == Lookup(g, k')
  {
    var r := g[i := e];
    assert forall j :: 0 <= j < |g| ==> EntryKey(r[j]) == EntryKey(g[j]);
    FindIndexSameKeys(r, g, EntryKey, e.0);
    forall k' | k' != e.0 ensures Lookup(r, k') == Lookup(g, k') {
      FindIndexSameKeys(r, g, EntryKey, k');
      var j := FindIndex(g, EntryKey, k');
      assert j >= 0 ==> j != i;
    }
  }

  /** Replacing an entry by one with the same key changes no key. */
  lemma SameKeysAfterUpdate<K(!new)>(g: Groups<K>, i: int, e: (K, int))
    requires 0 <= i < |g| && e.0 == g[i].0
    ensures forall j :: 0 <= j < |g| ==> g[i := e][j].0 == g[j].0
    ensures KeySet(g[i := e]) == KeySet(g)
    ensures DistinctKeys(g) ==> DistinctKeys(g[i := e])
  {
    var r := g[i := e];
    assert KeySet(r) == KeySet(g) by {
      forall x | x in KeySet(g) ensures x in KeySet(r) {
        var f :| f in g && f.0 == x;
        var j :| 0 <= j < |g| && g[j] == f;
        assert r[j].0 == x;
      }
      forall x | x in KeySet(r) ensures x in KeySet(g) {
        var f :| f in r && f.0 == x;
        var j :| 0 <= j < |r| && r[j] == f;
        assert g[j].0 == x;
      }
    }
  }

  /** A new key is appended with the value `v`. */
  lemma AccumulateNew<K(!new)>(g: Groups<K>, k: K, v: int)
    requires FindIndex(g, EntryKey, k) < 0
    ensures AccumulatedFrom(g + [(k, v)], g, k, v)
  {
    var r := g + [(k, v)];
    SumOfAppend(g, [(k, v)], EntryValue);
    assert forall j :: 0 <= j < |g| ==> r[j] == g[j];
    assert EntryKey(r[|g|]) == k;
    assert FindIndex(r, EntryKey, k) == |g|;
    forall k' | k' != k ensures FindIndex(r, EntryKey, k') == FindIndex(g, EntryKey, k') {
      FindAppendOther(g, (k, v), EntryKey, k');
    }
  }

  /** The keys of `g` come in the order in which `s` first meets them. */
  ghost predicate InFirstSeenOrder<T, K>(g: Groups<K>, s: seq<T>, key: T -> K) {
    forall i, j :: 0 <= i < j < |g| ==> FindIndex(s, key, g[i].0) < FindIndex(s, key, g[j].0)
  }

  /** What the fold promises about the groups `g` of `s`. */
  ghost predicate GroupsOf<T, K(!new)>(g: Groups<K>, s: seq<T>, key: T -> K, w: T -> int) {
    && DistinctKeys(g)
    && ValueSum(g) == SumOf(s, w)
    && KeySet(g) == (set x | x in s :: key(x))
    && InFirstSeenOrder(g, s, key)
  }

  /** Left fold of `Accumulate` over `s`: group the weights `w` by `key`. */
  function GroupSum<T, K(==,!new)>(s: seq<T>, key: T -> K, w: T -> int): (g: Groups<K>)
    ensures DistinctKeys(g)
    ensures ValueSum(g) == SumOf(s, w)
    ensures KeySet(g) == set x | x in s :: key(x)
    ensures InFirstSeenOrder(g, s, key)
    decreases |s|
  {
    if s == [] then []
    else
      var n := |s| - 1;
      var g0 := GroupSum(s[..n], key, w);
      GroupSumStep(s, key, w, g0);
      Accumulate(g0, key(s[n]), w(s[n]))
  }

  /** Folding one more element into the groups of a prefix gives the groups
      of the whole. */
  lemma GroupSumStep<T, K(!new)>(s: seq<T>, key: T -> K, w: T -> int, g0: Groups<K>)
    requires s != []
    requires DistinctKeys(g0) && ValueSum(g0) == SumOf(s[..|s| - 1], w)
    requires KeySet(g0) == set x | x in s[..|s| - 1] :: key(x)
    requires InFirstSeenOrder(g0, s[..|s| - 1], key)
    ensures GroupsOf(Accumulate(g0, key(s[|s| - 1]), w(s[|s| - 1])), s, key, w)
  {
    var n := |s| - 1;
    assert s == s[..n] + [s[n]];
    SumOfAppend(s[..n], [s[n]], w);
    FirstSeenOrderStep(s, key, g0, w(s[n]));
  }

  /** One step of the fold keeps the keys in first-seen order: a key met
      before keeps its place, and a new key goes last. */
  lemma FirstSeenOrderStep<T, K(!new)>(s: seq<T>, key: T -> K, g0: Groups<K>, v: int)
    requires s != []
    requires KeySet(g0) == set x | x in s[..|s| - 1] :: key(x)
    requires InFirstSeenOrder(g0, s[..|s| - 1], key)
    ensures InFirstSeenOrder(Accumulate(g0, key(s[|s| - 1]), v), s, key)
  {
    var n := |s| - 1;
    var p, k := s[..n], key(s[n]);
    assert s == p + [s[n]];
    forall i | 0 <= i < |g0|
      ensures 0 <= FindIndex(s, key, g0[i].0) == FindIndex(p, key, g0[i].0) < n
    {
      assert g0[i] in g0;
      assert g0[i].0 in KeySet(g0);
      var x :| x in p && key(x) == g0[i].0;
      var m :| 0 <= m < |p| && p[m] == x;
      FindAppendFound(p, s[n], key, g0[i].0);
    }
    var g := Accumulate(g0, k, v);
    if FindIndex(g0, EntryKey, k) < 0 {
      assert k !in KeySet(g0) by {
        forall e | e in g0 ensures e.0 != k {
          var m :| 0 <= m < |g0| && g0[m] == e;
          assert EntryKey(g0[m]) != k;
        }
      }
      assert forall m :: 0 <= m < |p| ==> key(p[m]) != k by {
        forall m | 0 <= m < |p| ensures key(p[m]) != k {
          assert p[m] in p;
        }
      }
      assert FindIndex(s, key, k) == n by {
        assert key(s[n]) == k;
        assert forall m :: 0 <= m < n ==> s[m] == p[m];
      }
    }
  }

  /** Dropping entries keeps the remaining keys in first-seen order. */
  lemma {:induction false} FilterKeepsFirstSeenOrder<T, K>(g: Groups<K>, s: seq<T>, key: T -> K, q: ((K, int)) -> bool)
    requires InFirstSeenOrder(g, s, key)
    ensures InFirstSeenOrder(Filter(g, q), s, key)
  {
    if g != [] {
      FirstSeenOrderTail(g, s, key);
      FilterKeepsFirstSeenOrder(g[1..], s, key, q);
      if q(g[0]) {
        var t := Filter(g[1..], q);
        FilterMembers(g[1..], q);
        FirstSeenOrderCons(g[0], t, s, key);
        assert Filter(g, q) == [g[0]] + t;
      }
    }
  }

  /** The entries after the first of a record in first-seen order are in
      first-seen order, and all come after the first. */
  lemma FirstSeenOrderTail<T, K>(g: Groups<K>, s: seq<T>, key: T -> K)
    requires g != [] && InFirstSeenOrder(g, s, key)
    ensures InFirstSeenOrder(g[1..], s, key)
    ensures forall e :: e in g[1..] ==> FindIndex(s, key, g[0].0) < FindIndex(s, key, e.0)
  {
    forall i, j | 0 <= i < j < |g[1..]|
      ensures FindIndex(s, key, g[1..][i].0) < FindIndex(s, key, g[1..][j].0)
    {
      assert g[1..][i] == g[i + 1] && g[1..][j] == g[j + 1];
    }
    forall e | e in g[1..] ensures FindIndex(s, key, g[0].0) < FindIndex(s, key, e.0) {
      var m :| 0 <= m < |g[1..]| && g[1..][m] == e;
      assert g[m + 1] == e;
    }
  }

  /** An entry met before every entry of `t` can go in front of it. */
  lemma FirstSeenOrderCons<T, K>(x: (K, int), t: Groups<K>, s: seq<T>, key: T -> K)
    requires InFirstSeenOrder(t, s, key)
    requires forall e :: e in t ==> FindIndex(s, key, x.0) < FindIndex(s, key, e.0)
    ensures InFirstSeenOrder([x] + t, s, key)
  {
    var g := [x] + t;
    forall i, j | 0 <= i < j < |g| ensures FindIndex(s, key, g[i].0) < FindIndex(s, key, g[j].0) {
      assert g[j] == t[j - 1] && t[j - 1] in t;
      if i > 0 {
        assert g[i] == t[i - 1];
      }
    }
  }

  /** Every key's value is the sum of the weights of exactly the elements
      with that key; absent keys read as 0. */
  lemma {:induction false} GroupSumLookup<T, K(!new)>(s: seq<T>, key: T -> K, w: T -> int, k: K)
    ensures Lookup(GroupSum(s, key, w), k) == SumOf(Filter(s, KeyIs(key, k)), w)
    decreases |s|
  {
    if s != [] {
      var n := |s| - 1;
      var g0 := GroupSum(s[..n], key, w);
      GroupSumLookup(s[..n], key, w, k);
      FilterSumSnoc(s, KeyIs(key, k), w);
      assert GroupSum(s, key, w) == Accumulate(g0, key(s[n]), w(s[n]));
      assert KeyIs(key, k)(s[n]) == (key(s[n]) == k);
    }
  }
}
