/** `Object.entries(record).sort(([, a], [, b]) => b - a)`: entries ordered
    by value from largest to smallest. `Array.prototype.sort` is stable, so
    entries with equal values keep the order they had. The model is the
    insertion sort that places each entry behind every earlier entry whose
    value is at least as large. */
module Ranking {
  import opened Seqs
  import opened Grouping

  ghost predicate NonIncreasing<K>(g: Groups<K>) {
    forall i, j :: 0 <= i < j < |g| ==> g[i].1 >= g[j].1
  }

  /** Inserts `x` behind every entry of `t` whose value is at least `x`'s. */
  function InsertDesc<K>(x: (K, int), t: Groups<K>): (r: Groups<K>)
    ensures |r| == |t| + 1
    ensures multiset(r) == multiset(t) + multiset{x}
  {
    if t == [] then [x]
    else if t[0].1 >= x.1 then
      assert t == [t[0]] + t[1..];
      [t[0]] + InsertDesc(x, t[1..])
    else
      [x] + t
  }

  /** An upper bound of `x` and of every entry of `t` bounds the result. */
  lemma {:induction false} InsertDescBounded<K>(x: (K, int), t: Groups<K>, b: int)
    requires x.1 <= b && forall i :: 0 <= i < |t| ==> t[i].1 <= b
    ensures forall i :: 0 <= i < |InsertDesc(x, t)| ==> InsertDesc(x, t)[i].1 <= b
  {
    if t != [] && t[0].1 >= x.1 {
      InsertDescBounded(x, t[1..], b);
    }
  }

  lemma {:induction false} InsertDescSorted<K>(x: (K, int), t: Groups<K>)
    requires NonIncreasing(t)
    ensures NonIncreasing(InsertDesc(x, t))
  {
    if t != [] && t[0].1 >= x.1 {
      InsertDescSorted(x, t[1..]);
      InsertDescBounded(x, t[1..], t[0].1);
    }
  }

  /** Stable sort by value, largest first. */
  function SortDesc<K>(s: Groups<K>): (r: Groups<K>)
    ensures |r| == |s|
    ensures multiset(r) == multiset(s)
    ensures NonIncreasing(r)
    decreases |s|
  {
    if s == [] then []
    else
      var n := |s| - 1;
      assert s == s[..n] + [s[n]];
      InsertDescSorted(s[n], SortDesc(s[..n]));
      InsertDesc(s[n], SortDesc(s[..n]))
  }

  /** The predicate "this entry has value v". */
  function ValueIs<K>(v: int): ((K, int)) -> bool {
    (e: (K, int)) => e.1 == v
  }

  lemma {:induction false} InsertDescStable<K>(x: (K, int), t: Groups<K>, v: int)
    requires NonIncreasing(t)
    ensures Filter(InsertDesc(x, t), ValueIs(v)) == Filter(t, ValueIs(v)) + Filter([x], ValueIs(v))
  {
    if t == [] {
    } else if t[0].1 >= x.1 {
      NonIncreasingTail(t);
      InsertDescStable(x, t[1..], v);
      assert InsertDesc(x, t) == [t[0]] + InsertDesc(x, t[1..]);
      assert t == [t[0]] + t[1..];
      FilterConsBoth(t[0], InsertDesc(x, t[1..]), t[1..], Filter([x], ValueIs(v)), ValueIs(v));
    } else {
      assert InsertDesc(x, t) == [x] + t;
      FilterAhead(x, t, v);
    }
  }

  /** An element put in front of two sequences whose filtered parts differ
      by a suffix keeps them differing by that suffix. */
  lemma FilterConsBoth<T>(h: T, a: seq<T>, b: seq<T>, c: seq<T>, p: T -> bool)
    requires Filter(a, p) == Filter(b, p) + c
    ensures Filter([h] + a, p) == Filter([h] + b, p) + c
  {
    assert ([h] + a)[0] == h && ([h] + a)[1..] == a;
    assert ([h] + b)[0] == h && ([h] + b)[1..] == b;
    if p(h) {
      assert [h] + (Filter(b, p) + c) == ([h] + Filter(b, p)) + c;
    }
  }

  /** An entry larger than every entry of a non-increasing `t` goes in front;
      among entries of one value it still comes last, as no entry of `t` has
      its value. */
  lemma FilterAhead<K>(x: (K, int), t: Groups<K>, v: int)
    requires t != [] && NonIncreasing(t) && t[0].1 < x.1
    ensures Filter([x] + t, ValueIs(v)) == Filter(t, ValueIs(v)) + Filter([x], ValueIs(v))
  {
    FilterAppend([x], t, ValueIs(v));
    if x.1 == v {
      forall i | 0 <= i < |t| ensures !ValueIs(v)(t[i]) {
        assert t[i].1 <= t[0].1;
      }
      FilterNone(t, ValueIs(v));
    }
  }

  lemma NonIncreasingTail<K>(t: Groups<K>)
    requires t != [] && NonIncreasing(t)
    ensures NonIncreasing(t[1..])
  {
    forall i, j | 0 <= i < j < |t[1..]| ensures t[1..][i].1 >= t[1..][j].1 {
      assert t[1..][i] == t[i + 1] && t[1..][j] == t[j + 1];
    }
  }

  /** Stability: the entries with any one value come out of the sort in the
      order they went in. */
  lemma {:induction false} SortDescStable<K>(s: Groups<K>, v: int)
    ensures Filter(SortDesc(s), ValueIs(v)) == Filter(s, ValueIs(v))
    decreases |s|
  {
    if s != [] {
      var n := |s| - 1;
      SortDescStable(s[..n], v);
      InsertDescStable(s[n], SortDesc(s[..n]), v);
      assert s == s[..n] + [s[n]];
      FilterSnocStep(SortDesc(s[..n]), s[..n], s[n], SortDesc(s), ValueIs(v));
    }
  }

  /** If `sorted` and `prefix` filter alike, and `inserted` filters as
      `sorted` followed by `x`, then `inserted` filters as `prefix + [x]`. */
  lemma FilterSnocStep<T>(sorted: seq<T>, prefix: seq<T>, x: T, inserted: seq<T>, p: T -> bool)
    requires Filter(sorted, p) == Filter(prefix, p)
    requires Filter(inserted, p) == Filter(sorted, p) + Filter([x], p)
    ensures Filter(inserted, p) == Filter(prefix + [x], p)
  {
    FilterAppend(prefix, [x], p);
  }
}
