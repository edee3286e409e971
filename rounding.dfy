/** `Math.round` of a ratio, computed exactly on integers. */
module Rounding {

  /** `Math.round(num / den)` for a positive `den`: the integer nearest to
      the ratio, halves rounded up, i.e. floor(num / den + 1/2). */
  function RoundRatio(num: int, den: int): (r: int)
    requires den > 0
    ensures 2 * den * r <= 2 * num + den < 2 * den * (r + 1)
  {
    (2 * num + den) / (2 * den)
  }

  /** `total > 0 ? Math.round((part / total) * 100) : 0`: a percentage. */
  function Percent(part: nat, total: nat): (r: int)
    ensures total == 0 ==> r == 0
    ensures total > 0 ==> 2 * total * r <= 200 * part + total < 2 * total * (r + 1)
    ensures 0 <= r
    ensures part <= total ==> r <= 100
    ensures 0 < total == part ==> r == 100
  {
    if total > 0 then
      var r := RoundRatio(100 * part, total);
      PercentBounds(part, total, r);
      r
    else 0
  }

  lemma PercentBounds(part: nat, total: nat, r: int)
    requires total > 0
    requires 2 * total * r <= 200 * part + total < 2 * total * (r + 1)
    ensures 0 <= r
    ensures part <= total ==> r <= 100
    ensures part == total ==> r == 100
  {
    var d := 2 * total;
    CancelFactor(d, 0, r + 1);
    if part <= total {
      assert d * r < d * 101;
      CancelFactor(d, r, 101);
    }
    if part == total {
      assert d * 100 < d * (r + 1);
      CancelFactor(d, 100, r + 1);
    }
  }

  /** Cancelling a positive factor from a strict inequality. */
  lemma CancelFactor(a: int, b: int, c: int)
    requires a > 0 && a * b < a * c
    ensures b < c
  {
  }

  /** `count > 0 ? Math.round(sum / count) : 0`: a rounded mean. */
  function Average(sum: int, count: nat): (r: int)
    ensures count == 0 ==> r == 0
    ensures count > 0 ==> 2 * count * r <= 2 * sum + count < 2 * count * (r + 1)
    ensures sum >= 0 ==> r >= 0
  {
    if count > 0 then RoundRatio(sum, count) else 0
  }
}
