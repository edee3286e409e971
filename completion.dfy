/** The figures every dashboard derives from a list of collections: how many
    are `completada`, the rounded completion percentage, and the kilograms
    summed over the list. */
module Completion {
  import opened Types
  import opened Seqs
  import opened Rounding

  /** `cs.filter(c => c.status === "completada").length`. */
  function CompletedCount(cs: seq<Collection>): (r: nat)
    ensures r == |InStatus(cs, Completada)|
    ensures r <= |cs|
    ensures (forall i :: 0 <= i < |cs| ==> cs[i].status == Completada) ==> r == |cs|
    ensures (forall i :: 0 <= i < |cs| ==> cs[i].status != Completada) ==> r == 0
  {
    FilterExtremes(cs, IsCompleted);
    StatusCount(cs, Completada);
    |Filter(cs, IsCompleted)|
  }

  /** The positions of `cs` holding a collection in status `s`. */
  ghost function InStatus(cs: seq<Collection>, s: Status): set<int> {
    set i | 0 <= i < |cs| && cs[i].status == s
  }

  /** `cs.filter(c => c.status === s).length` is the number of positions
      holding a collection in status `s`. */
  lemma StatusCount(cs: seq<Collection>, s: Status)
    ensures |Filter(cs, KeyIs(StatusOf, s))| == |InStatus(cs, s)|
    ensures s == Completada ==> |Filter(cs, IsCompleted)| == |InStatus(cs, s)|
    ensures s == Programada ==> |Filter(cs, IsScheduled)| == |InStatus(cs, s)|
  {
    forall p: Collection -> bool | forall c :: p(c) == (c.status == s)
      ensures |Filter(cs, p)| == |InStatus(cs, s)|
    {
      FilterLengthIsCount(cs, p);
      assert Positions(cs, p) == InStatus(cs, s);
    }
    forall c ensures KeyIs(StatusOf, s)(c) == (c.status == s) {
      assert StatusOf(c) == c.status;
    }
  }

  /** `cs.length > 0 ? Math.round((completed / cs.length) * 100) : 0`. */
  function CompletionRate(cs: seq<Collection>): (r: int)
    ensures 0 <= r <= 100
    ensures cs == [] ==> r == 0
    ensures cs != [] ==> 2 * |cs| * r <= 200 * CompletedCount(cs) + |cs| < 2 * |cs| * (r + 1)
    ensures cs != [] && (forall i :: 0 <= i < |cs| ==> cs[i].status == Completada) ==> r == 100
    ensures (forall i :: 0 <= i < |cs| ==> cs[i].status != Completada) ==> r == 0
  {
    Percent(CompletedCount(cs), |cs|)
  }

  /** `cs.reduce((sum, c) => sum + c.quantity, 0)`: every collection counts,
      whatever its status. */
  function TotalQuantity(cs: seq<Collection>): (r: int)
    ensures cs == [] ==> r == 0
    ensures (forall i :: 0 <= i < |cs| ==> cs[i].quantity >= 0) ==> r >= 0
    ensures (forall i :: 0 <= i < |cs| ==> cs[i].quantity >= 1) ==> r >= |cs|
  {
    SumOfAtLeast(cs, Quantity, 1);
    SumOf(cs, Quantity)
  }

  /** The kilograms of completed collections and of the others add up to the
      total; with non-negative quantities the completed part is bounded by
      it. */
  lemma TotalCoversCompleted(cs: seq<Collection>)
    ensures SumOf(Filter(cs, IsCompleted), Quantity) + SumOf(Filter(cs, Not(IsCompleted)), Quantity)
            == TotalQuantity(cs)
    ensures (forall i :: 0 <= i < |cs| ==> cs[i].quantity >= 0) ==>
              0 <= SumOf(Filter(cs, IsCompleted), Quantity) <= TotalQuantity(cs)
  {
    SumOfPartition(cs, IsCompleted, Quantity);
    if forall i :: 0 <= i < |cs| ==> cs[i].quantity >= 0 {
      SumOfFilterBounded(cs, IsCompleted, Quantity);
    }
  }
}
