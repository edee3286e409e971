/** The reports tab shared by all three dashboards: a date-window and
    waste-type filter over the collections it is given, the statistics of
    the filtered list, and the chart series derived from them. */
module ReportsDashboard {
  import opened Types
  import opened Seqs
  import opened Grouping
  import opened Ranking
  import opened Text
  import opened Rounding
  import opened Completion

  // ----- filters -----

  /** The two selects. `since` is the start of the chosen window ("week",
      "month", "quarter", "year"), already computed from the clock; `None`
      is "all". `wasteType` is `None` for "all". */
  datatype Filters = Filters(since: Option<Time>, wasteType: Option<WasteType>)

  /** The predicate `c => new Date(c.scheduledDate) >= since`. */
  function ScheduledFrom(since: Time): Collection -> bool {
    (c: Collection) => c.scheduledDate >= since
  }

  /** The predicate `c => c.type === wasteType`. */
  function OfType(t: WasteType): Collection -> bool {
    (c: Collection) => c.wasteType == t
  }

  /** The date filter, when one is chosen. */
  function ByDate(cs: seq<Collection>, since: Option<Time>): seq<Collection> {
    if since.Some? then Filter(cs, ScheduledFrom(since.value)) else cs
  }

  /** A collection passes both selects. */
  predicate Selected(f: Filters, c: Collection) {
    && (f.since.Some? ==> c.scheduledDate >= f.since.value)
    && (f.wasteType.Some? ==> c.wasteType == f.wasteType.value)
  }

  /** `filteredCollections`: the date filter, then the type filter; every
      selected collection is kept as many times as it occurs. */
  function FilteredCollections(cs: seq<Collection>, f: Filters): (r: seq<Collection>)
    ensures f.since.None? && f.wasteType.None? ==> r == cs
    ensures forall c :: c in r <==>
              && c in cs
              && (f.since.Some? ==> c.scheduledDate >= f.since.value)
              && (f.wasteType.Some? ==> c.wasteType == f.wasteType.value)
    ensures forall c :: multiset(r)[c] ==
              if Selected(f, c) then multiset(cs)[c] else 0
    ensures IsSubsequence(r, cs)
    ensures |r| <= |cs|
  {
    var dated := ByDate(cs, f.since);
    ByDateKeeps(cs, f.since);
    if f.wasteType.Some? then
      FilterMembers(dated, OfType(f.wasteType.value));
      FilterMultiplicity(dated, OfType(f.wasteType.value));
      FilteredSubsequence(cs, f);
      Filter(dated, OfType(f.wasteType.value))
    else
      dated
  }

  /** The date filter keeps exactly the collections from `since` on, in
      order. */
  lemma ByDateKeeps(cs: seq<Collection>, since: Option<Time>)
    ensures forall c :: c in ByDate(cs, since) <==> c in cs && (since.Some? ==> c.scheduledDate >= since.value)
    ensures forall c :: multiset(ByDate(cs, since))[c] ==
              if since.Some? ==> c.scheduledDate >= since.value then multiset(cs)[c] else 0
    ensures IsSubsequence(ByDate(cs, since), cs)
  {
    if since.Some? {
      FilterMembers(cs, ScheduledFrom(since.value));
      FilterMultiplicity(cs, ScheduledFrom(since.value));
      FilterIsSubsequence(cs, ScheduledFrom(since.value));
    } else {
      SubsequenceOfSelf(cs);
    }
  }

  /** Both filters together keep an order-preserving subsequence. */
  lemma FilteredSubsequence(cs: seq<Collection>, f: Filters)
    requires f.wasteType.Some?
    ensures IsSubsequence(Filter(ByDate(cs, f.since), OfType(f.wasteType.value)), cs)
  {
    var q := OfType(f.wasteType.value);
    if f.since.Some? {
      FilterFilter(cs, ScheduledFrom(f.since.value), q);
      FilterIsSubsequence(cs, Both(ScheduledFrom(f.since.value), q));
    } else {
      FilterIsSubsequence(cs, q);
    }
  }

  // ----- statistics -----

  /** `c.address.split(",")[0]`: the location key of an address. */
  function LocationKey(address: string): (r: string)
    ensures r <= address && ',' !in r
    ensures r == address || address[|r|] == ','
  {
    BeforeFirst(address, ',')
  }

  function LocationOf(c: Collection): string { LocationKey(c.address) }

  /** The weight of `(acc[c.status] || 0) + 1`. */
  function One(c: Collection): int { 1 }

  datatype ReportStats = ReportStats(
    totalCollections: nat,
    completedCollections: nat,
    totalQuantity: int,
    averageQuantity: int,
    byType: Groups<WasteType>,
    byMonth: Groups<string>,
    byLocation: Groups<string>,
    byStatus: Groups<Status>,
    completionRate: int)

  /** `stats`: counts, completed kilograms and their rounded mean, the
      completion percentage, and four group-by sums. `monthOf` is the month
      label of a date (`toLocaleDateString` with month and year). */
  function Stats(fc: seq<Collection>, monthOf: Time -> string): (r: ReportStats)
    ensures r.totalCollections == |fc|
    ensures r.completedCollections == |InStatus(fc, Completada)|
    ensures r.totalQuantity == SumOf(Filter(fc, IsCompleted), Quantity)
    ensures r.averageQuantity == Average(r.totalQuantity, r.completedCollections)
    ensures r.completionRate == CompletionRate(fc) && 0 <= r.completionRate <= 100
    ensures r.byType == GroupSum(fc, WasteTypeOf, Quantity)
    ensures r.byMonth == GroupSum(fc, MonthKey(monthOf), Quantity)
    ensures r.byLocation == GroupSum(fc, LocationOf, Quantity)
    ensures r.byStatus == GroupSum(fc, StatusOf, One)
  {
    var completed := Filter(fc, IsCompleted);
    var totalQuantity := SumOf(completed, Quantity);
    assert |completed| == CompletedCount(fc);
    ReportStats(
      |fc|,
      |completed|,
      totalQuantity,
      Average(totalQuantity, |completed|),
      GroupSum(fc, WasteTypeOf, Quantity),
      GroupSum(fc, MonthKey(monthOf), Quantity),
      GroupSum(fc, LocationOf, Quantity),
      GroupSum(fc, StatusOf, One),
      CompletionRate(fc))
  }

  /** The four group-by sums of `stats`: no key twice, keys in the order the
      filtered list first meets them, each key holding the total of exactly
      its collections (kilograms, or a count for `byStatus`), and location
      keys free of commas. */
  lemma StatsGroups(fc: seq<Collection>, monthOf: Time -> string)
    ensures var r := Stats(fc, monthOf);
            && DistinctKeys(r.byType) && DistinctKeys(r.byMonth)
            && DistinctKeys(r.byLocation) && DistinctKeys(r.byStatus)
            && InFirstSeenOrder(r.byType, fc, WasteTypeOf)
            && InFirstSeenOrder(r.byMonth, fc, MonthKey(monthOf))
            && InFirstSeenOrder(r.byLocation, fc, LocationOf)
            && InFirstSeenOrder(r.byStatus, fc, StatusOf)
            && ValueSum(r.byType) == TotalQuantity(fc)
            && ValueSum(r.byMonth) == TotalQuantity(fc)
            && ValueSum(r.byLocation) == TotalQuantity(fc)
            && ValueSum(r.byStatus) == |fc|
            && (fc == [] ==> r.byType == [] && r.byStatus == [])
            && forall i :: 0 <= i < |r.byLocation| ==> ',' !in r.byLocation[i].0
  {
    var r := Stats(fc, monthOf);
    SumOfOnes(fc, One);
    LocationKeysHaveNoComma(fc, r.byLocation);
  }

  /** No location key holds a comma. */
  lemma LocationKeysHaveNoComma(fc: seq<Collection>, g: Groups<string>)
    requires g == GroupSum(fc, LocationOf, Quantity)
    ensures forall i :: 0 <= i < |g| ==> ',' !in g[i].0
  {
    forall i | 0 <= i < |g| ensures ',' !in g[i].0 {
      assert g[i].0 in KeySet(g);
      var c :| c in fc && LocationOf(c) == g[i].0;
    }
  }

  /** Every group of `byType`, `byMonth` and `byLocation` holds the
      kilograms of exactly the collections with its key, and every group of
      `byStatus` the number of collections in its status. */
  lemma StatsLookups(fc: seq<Collection>, monthOf: Time -> string, t: WasteType, m: string, loc: string, s: Status)
    ensures Lookup(Stats(fc, monthOf).byType, t) == SumOf(Filter(fc, KeyIs(WasteTypeOf, t)), Quantity)
    ensures Lookup(Stats(fc, monthOf).byMonth, m) == SumOf(Filter(fc, KeyIs(MonthKey(monthOf), m)), Quantity)
    ensures Lookup(Stats(fc, monthOf).byLocation, loc) == SumOf(Filter(fc, KeyIs(LocationOf, loc)), Quantity)
    ensures Lookup(Stats(fc, monthOf).byStatus, s) == |InStatus(fc, s)|
  {
    GroupSumLookup(fc, WasteTypeOf, Quantity, t);
    GroupSumLookup(fc, MonthKey(monthOf), Quantity, m);
    GroupSumLookup(fc, LocationOf, Quantity, loc);
    GroupSumLookup(fc, StatusOf, One, s);
    SumOfOnes(Filter(fc, KeyIs(StatusOf, s)), One);
    StatusCount(fc, s);
  }

  // ----- chart series -----

  /** `Object.entries(byLocation).sort((a, b) => b - a).slice(0, 10)`: the
      ten largest locations, largest first. */
  function TopLocations(byLocation: Groups<string>): (r: Groups<string>)
    ensures |r| == if |byLocation| <= 10 then |byLocation| else 10
    ensures NonIncreasing(r)
    ensures multiset(r) <= multiset(byLocation)
    ensures r != [] ==> forall e :: e in byLocation && e.1 > r[|r| - 1].1 ==> e in r
  {
    var sorted := SortDesc(byLocation);
    var r := Take(sorted, 10);
    PrefixOfSorted(sorted, |r|);
    assert forall e :: e in byLocation ==> e in multiset(sorted);
    r
  }

  /** A prefix of a non-increasing sequence is non-increasing and holds
      every entry larger than the last one it keeps. */
  lemma PrefixOfSorted<K>(t: Groups<K>, n: nat)
    requires n <= |t| && NonIncreasing(t)
    ensures NonIncreasing(t[..n])
    ensures multiset(t[..n]) <= multiset(t)
    ensures n > 0 ==> forall e :: e in t && e.1 > t[n - 1].1 ==> e in t[..n]
  {
    assert t == t[..n] + t[n..];
    assert multiset(t) == multiset(t[..n]) + multiset(t[n..]);
    if n > 0 {
      forall e | e in t && e.1 > t[n - 1].1 ensures e in t[..n] {
        var j :| 0 <= j < |t| && t[j] == e;
        assert t[n - 1].1 >= t[j].1 || j < n;
        assert t[..n][j] == e;
      }
    }
  }

  /** Ties are kept in first-seen order: the kept locations with any one
      total are the first locations with that total in `byLocation`, and
      they come in the order the filtered list first meets them. */
  lemma {:induction false} TopLocationsTies(fc: seq<Collection>, v: int)
    ensures var byLocation := GroupSum(fc, LocationOf, Quantity);
            Filter(TopLocations(byLocation), ValueIs(v)) <= Filter(byLocation, ValueIs(v))
    ensures InFirstSeenOrder(Filter(TopLocations(GroupSum(fc, LocationOf, Quantity)), ValueIs(v)), fc, LocationOf)
  {
    var byLocation := GroupSum(fc, LocationOf, Quantity);
    var sorted := SortDesc(byLocation);
    var n := |TopLocations(byLocation)|;
    assert TopLocations(byLocation) == sorted[..n];
    FilterPrefix(sorted, n, ValueIs(v));
    SortDescStable(byLocation, v);
    var ties := Filter(byLocation, ValueIs(v));
    var kept := Filter(TopLocations(byLocation), ValueIs(v));
    FilterKeepsFirstSeenOrder(byLocation, fc, LocationOf, ValueIs(v));
    assert forall i :: 0 <= i < |kept| ==> kept[i] == ties[i];
  }

  /** `locationChartData`: the top locations with labels longer than 15
      characters cut to 15 plus "...". */
  function LocationChartData(byLocation: Groups<string>): (r: seq<(string, int)>)
    ensures |r| == |TopLocations(byLocation)|
    ensures |r| <= 10 && |r| <= |byLocation|
    ensures forall i :: 0 <= i < |r| ==> |r[i].0| <= 18
    ensures forall i, j :: 0 <= i < j < |r| ==> r[i].1 >= r[j].1
    ensures forall i :: 0 <= i < |r| ==>
              var e := TopLocations(byLocation)[i];
              r[i].1 == e.1 && (|e.0| <= 15 ==> r[i].0 == e.0) &&
              (|e.0| > 15 ==> r[i].0 == e.0[..15] + "...")
  {
    var top := TopLocations(byLocation);
    seq(|top|, i requires 0 <= i < |top| => (Truncate(top[i].0, 15), top[i].1))
  }

  /** `charAt(0).toUpperCase() + slice(1)` on each key of `byType`. */
  function TypeChartData(byType: Groups<WasteType>): (r: seq<(string, int)>)
    ensures |r| == |byType|
    ensures forall i :: 0 <= i < |r| ==> r[i].0 == Capitalize(WasteTypeKey(byType[i].0)) && r[i].1 == byType[i].1
    ensures DistinctKeys(byType) ==> forall i, j :: 0 <= i < j < |r| ==> r[i].0 != r[j].0
  {
    forall i, j | 0 <= i < j < |byType| {
      ChartLabelsDistinct(byType[i].0, byType[j].0, Programada, Programada);
    }
    seq(|byType|, i requires 0 <= i < |byType| => (Capitalize(WasteTypeKey(byType[i].0)), byType[i].1))
  }

  /** The same on each key of `byStatus`. */
  function StatusChartData(byStatus: Groups<Status>): (r: seq<(string, int)>)
    ensures |r| == |byStatus|
    ensures forall i :: 0 <= i < |r| ==> r[i].0 == Capitalize(StatusKey(byStatus[i].0)) && r[i].1 == byStatus[i].1
    ensures DistinctKeys(byStatus) ==> forall i, j :: 0 <= i < j < |r| ==> r[i].0 != r[j].0
  {
    forall i, j | 0 <= i < j < |byStatus| {
      ChartLabelsDistinct(Organicos, Organicos, byStatus[i].0, byStatus[j].0);
    }
    seq(|byStatus|, i requires 0 <= i < |byStatus| => (Capitalize(StatusKey(byStatus[i].0)), byStatus[i].1))
  }

  /** Distinct waste types and distinct statuses get distinct chart labels. */
  lemma ChartLabelsDistinct(t: WasteType, t': WasteType, s: Status, s': Status)
    ensures t != t' ==> Capitalize(WasteTypeKey(t)) != Capitalize(WasteTypeKey(t'))
    ensures s != s' ==> Capitalize(StatusKey(s)) != Capitalize(StatusKey(s'))
  {
    if t != t' {
      assert Capitalize(WasteTypeKey(t))[0] != Capitalize(WasteTypeKey(t'))[0];
    }
    if s != s' {
      assert Capitalize(StatusKey(s))[0] != Capitalize(StatusKey(s'))[0] || |StatusKey(s)| != |StatusKey(s')|;
    }
  }
}
