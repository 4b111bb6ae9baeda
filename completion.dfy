/** Completion arithmetic of one game: `SteamAchiever.calcAchieved`. */
module Completion {
  import opened Wrappers
  import opened Records

  /** The number of records whose `achieved` flag is set. */
  function CountAchieved(records: seq<Achievement>): (n: nat)
    ensures n <= |records|
    ensures n == 0 <==> forall i :: 0 <= i < |records| ==> !records[i].achieved
    ensures n == |records| <==> forall i :: 0 <= i < |records| ==> records[i].achieved
    decreases |records|
  {
    if records == [] then 0
    else
      var prefix := records[..|records| - 1];
      assert forall i :: 0 <= i < |prefix| ==> prefix[i] == records[i];
      CountAchieved(prefix) + if records[|records| - 1].achieved then 1 else 0
  }

  /** The positions of the achieved records: an independent description of the count. */
  ghost function AchievedPositions(records: seq<Achievement>): set<nat>
  {
    set i: nat | i < |records| && records[i].achieved
  }

  lemma {:induction false} CountIsAchievedPositions(records: seq<Achievement>)
    ensures CountAchieved(records) == |AchievedPositions(records)|
    decreases |records|
  {
    if records != [] {
      var n := |records| - 1;
      var prefix := records[..n];
      CountIsAchievedPositions(prefix);
      var before := AchievedPositions(prefix);
      assert n !in before;
      if records[n].achieved {
        assert AchievedPositions(records) == before + {n};
      } else {
        assert AchievedPositions(records) == before;
      }
    }
  }

  /** From a * d <= b * d with d positive, a <= b. */
  lemma CancelFactor(a: int, b: int, d: int)
    requires d > 0 && a * d <= b * d
    ensures a <= b
  {
    assert (b - a) * d == b * d - a * d;
  }

  /** n / d rounded to the nearest integer, ties to the even neighbour: the
      rounding mode ROUND_HALF_EVEN of Decimal.to_integral_value under the
      default context. */
  function RoundHalfEven(n: nat, d: nat): (r: nat)
    requires d > 0
    ensures 2 * n <= (2 * r + 1) * d
    ensures (2 * r - 1) * d <= 2 * n
    ensures 2 * n == (2 * r + 1) * d || 2 * n == (2 * r - 1) * d ==> r % 2 == 0
  {
    var q, m := n / d, n % d;
    assert n == q * d + m;
    assert (2 * q + 1) * d == 2 * (q * d) + d;
    assert (2 * q - 1) * d == 2 * (q * d) - d;
    assert (2 * q + 3) * d == 2 * (q * d) + 3 * d;
    if 2 * m < d then q
    else if 2 * m > d then q + 1
    else if q % 2 == 0 then q else q + 1
  }

  /** The rounding is the only integer with the properties RoundHalfEven promises. */
  lemma RoundHalfEvenUnique(n: nat, d: nat, r: nat)
    requires d > 0
    requires 2 * n <= (2 * r + 1) * d && (2 * r - 1) * d <= 2 * n
    requires 2 * n == (2 * r + 1) * d || 2 * n == (2 * r - 1) * d ==> r % 2 == 0
    ensures r == RoundHalfEven(n, d)
  {
    var s: int := RoundHalfEven(n, d);
    CancelFactor(2 * r - 1, 2 * s + 1, d);
    CancelFactor(2 * s - 1, 2 * r + 1, d);
  }

  /** Decimal(count) / Decimal(total) * 100, rounded half to even. */
  function Percent(count: nat, total: nat): (p: nat)
    requires 0 < total && count <= total
    ensures 200 * count <= (2 * p + 1) * total
    ensures (2 * p - 1) * total <= 200 * count
    ensures 200 * count == (2 * p + 1) * total || 200 * count == (2 * p - 1) * total ==> p % 2 == 0
    ensures p <= 100
    ensures count == 0 ==> p == 0
    ensures count == total ==> p == 100
  {
    var p := RoundHalfEven(100 * count, total);
    RoundedShareBounds(count, total, p);
    p
  }

  /** A share rounded to the nearest percent lies in [0, 100] and is exact at its ends. */
  lemma RoundedShareBounds(count: nat, total: nat, p: nat)
    requires 0 < total && count <= total
    requires 200 * count <= (2 * p + 1) * total && (2 * p - 1) * total <= 200 * count
    ensures p <= 100
    ensures count == 0 ==> p == 0
    ensures count == total ==> p == 100
  {
    CancelFactor(2 * p - 1, 200, total);
    if count == 0 {
      CancelFactor(2 * p - 1, 0, total);
    }
    if count == total {
      CancelFactor(200, 2 * p + 1, total);
    }
  }

  /** What calcAchieved returns, or None where Decimal(0) / Decimal(0) raises. */
  function CompletionOf(records: seq<Achievement>): (r: Option<Figures>)
    ensures r.None? <==> records == []
    ensures r.Some? ==> r.value.total == |records|
    ensures r.Some? ==> r.value.count == CountAchieved(records)
    ensures r.Some? ==> r.value.count + r.value.remaining == r.value.total
    ensures r.Some? ==> r.value.percent == Percent(r.value.count, r.value.total)
  {
    if records == [] then None
    else
      var count := CountAchieved(records);
      Some(Figures(count, |records|, Percent(count, |records|), |records| - count))
  }

  /** The completion figures: the count is the number of achieved records,
      the remaining count is total - count, and the percentage lies in
      [0, 100]; it is 0 when no record is achieved and 100 when all are. */
  lemma CompletionFigures(records: seq<Achievement>)
    requires records != []
    ensures var c := CompletionOf(records).value;
      && c.count == |AchievedPositions(records)|
      && c.remaining == c.total - c.count
      && 0 <= c.percent <= 100
      && (c.percent == 0 <== forall i :: 0 <= i < |records| ==> !records[i].achieved)
      && (c.percent == 100 <== forall i :: 0 <= i < |records| ==> records[i].achieved)
  {
    CountIsAchievedPositions(records);
  }

  /** SteamAchiever.calcAchieved: counts the achieved records in a loop. */
  method CalcAchieved(achievements: seq<Achievement>) returns (s: Option<Figures>)
    ensures s == CompletionOf(achievements)
  {
    var count := 0;
    for i := 0 to |achievements|
      invariant count == CountAchieved(achievements[..i])
    {
      assert achievements[..i + 1][..i] == achievements[..i];
      if achievements[i].achieved {
        count := count + 1;
      }
    }
    assert achievements[..|achievements|] == achievements;
    var total := |achievements|;
    if total == 0 {
      return None;
    }
    return Some(Figures(count, total, Percent(count, total), total - count));
  }
}
