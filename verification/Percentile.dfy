/** The nearest-rank percentile of a list. */
module Percentile {
  import opened Wrappers

  ghost predicate Ascending(list: seq<real>) {
    forall i, j :: 0 <= i < j < |list| ==> list[i] <= list[j]
  }

  /** How many values pass `x`: those at most `x`, or only those below it. */
  function Passed(values: seq<real>, x: real, strictly: bool): nat {
    if values == [] then 0
    else
      (if values[0] < x || (!strictly && values[0] == x) then 1 else 0) + Passed(values[1..], x, strictly)
  }

  function Insert(x: real, list: seq<real>): seq<real> {
    if list == [] || x <= list[0] then [x] + list else [list[0]] + Insert(x, list[1..])
  }

  function Sorted(values: seq<real>): seq<real> {
    if values == [] then [] else Insert(values[0], Sorted(values[1..]))
  }

  /** The smallest whole number that is at least `x`. */
  function Ceil(x: real): int {
    -((-x).Floor)
  }

  /** The element of an ordered list that a share of its elements reaches. */
  function AtShare(ordered: seq<real>, share: real): real
    requires ordered != []
  {
    var rank := Ceil(share) - 1;
    var least := if rank < 0 then 0 else rank;
    ordered[if least < |ordered| then least else |ordered| - 1]
  }

  /** The percentile, where `round` rounds the floating-point product. */
  function Of(values: seq<real>, q: real, round: real -> real): Option<real> {
    if values == [] then None
    else
      SortedIsSorted(values);
      Some(AtShare(Sorted(values), round(Share(q, |values|))))
  }

  function Share(q: real, n: nat): real {
    q * n as real
  }

  /** Whole numbers up to here are floating-point numbers. */
  const EXACT: nat := 0x20_0000_0000_0000

  function Whole(n: nat): real {
    n as real
  }

  /** What is used of the rounding: it keeps the order, and the whole numbers up to `EXACT`. */
  ghost predicate Rounding(round: real -> real) {
    && (forall x, y :: x <= y ==> round(x) <= round(y))
    && (forall n: nat :: n <= EXACT ==> round(Whole(n)) == Whole(n))
  }

  /** The product rounds down to the rank below its own, if there is one. */
  predicate LosesARank(share: real, rounded: real) {
    1 < Ceil(share) && Ceil(rounded) < Ceil(share)
  }

  /** At least `share` values are at most the answer, and fewer are below it. */
  ghost predicate Nearest(values: seq<real>, share: real, answer: real) {
    Passed(values, answer, true) as real < share <= Passed(values, answer, false) as real
  }

  lemma {:induction false} InsertKeepsOrder(x: real, list: seq<real>)
    requires Ascending(list)
    ensures Ascending(Insert(x, list)) && |Insert(x, list)| == |list| + 1
    ensures forall y :: y in Insert(x, list) ==> y == x || y in list
  {
    if list != [] && x > list[0] {
      var rest := Insert(x, list[1..]);
      InsertKeepsOrder(x, list[1..]);
      assert forall y :: y in list[1..] ==> list[0] <= y;
      assert forall i :: 0 <= i < |rest| ==> rest[i] in rest;
    }
  }

  lemma {:induction false} InsertCounts(x: real, list: seq<real>, y: real, strictly: bool)
    ensures Passed(Insert(x, list), y, strictly) == Passed([x] + list, y, strictly)
  {
    assert ([x] + list)[1..] == list;
    if list != [] && x > list[0] {
      InsertCounts(x, list[1..], y, strictly);
      assert ([x] + list[1..])[1..] == list[1..];
      assert ([list[0]] + Insert(x, list[1..]))[1..] == Insert(x, list[1..]);
    }
  }

  lemma {:induction false} SortedIsSorted(values: seq<real>)
    ensures Ascending(Sorted(values)) && |Sorted(values)| == |values|
  {
    if values != [] {
      SortedIsSorted(values[1..]);
      InsertKeepsOrder(values[0], Sorted(values[1..]));
    }
  }

  lemma {:induction false} SortedCounts(values: seq<real>, x: real, strictly: bool)
    ensures Passed(Sorted(values), x, strictly) == Passed(values, x, strictly)
  {
    if values != [] {
      SortedCounts(values[1..], x, strictly);
      InsertCounts(values[0], Sorted(values[1..]), x, strictly);
      assert ([values[0]] + Sorted(values[1..]))[1..] == Sorted(values[1..]);
    }
  }

  lemma {:induction false} PassedAppend(a: seq<real>, b: seq<real>, x: real, strictly: bool)
    ensures Passed(a + b, x, strictly) == Passed(a, x, strictly) + Passed(b, x, strictly)
  {
    if a == [] {
      assert a + b == b;
    } else {
      assert (a + b)[1..] == a[1..] + b;
      PassedAppend(a[1..], b, x, strictly);
    }
  }

  lemma {:induction false} AllPass(list: seq<real>, x: real)
    requires forall i :: 0 <= i < |list| ==> list[i] <= x
    ensures Passed(list, x, false) == |list|
  {
    if list != [] {
      AllPass(list[1..], x);
    }
  }

  lemma {:induction false} NonePasses(list: seq<real>, x: real)
    requires forall i :: 0 <= i < |list| ==> x <= list[i]
    ensures Passed(list, x, true) == 0
  {
    if list != [] {
      NonePasses(list[1..], x);
    }
  }

  lemma {:induction false} PassedAtMost(list: seq<real>, x: real, strictly: bool)
    ensures Passed(list, x, strictly) <= |list|
  {
    if list != [] {
      PassedAtMost(list[1..], x, strictly);
    }
  }

  /** In order, at most `k` elements are below the one at `k`, and more than `k` are at most it. */
  lemma RankCounts(list: seq<real>, k: nat)
    requires Ascending(list) && k < |list|
    ensures Passed(list, list[k], true) <= k < Passed(list, list[k], false)
  {
    var x := list[k];
    assert list == list[..k] + list[k..];
    PassedAppend(list[..k], list[k..], x, true);
    PassedAtMost(list[..k], x, true);
    NonePasses(list[k..], x);
    assert list == list[..k + 1] + list[k + 1..];
    PassedAppend(list[..k + 1], list[k + 1..], x, false);
    AllPass(list[..k + 1], x);
  }

  lemma SortingKeepsNearest(values: seq<real>, share: real, answer: real)
    ensures Nearest(Sorted(values), share, answer) == Nearest(values, share, answer)
  {
    SortedCounts(values, answer, true);
    SortedCounts(values, answer, false);
  }

  lemma ShareIsInRange(q: real, n: nat)
    requires 0.0 < q <= 1.0 && n > 0
    ensures 0.0 < Share(q, n) <= n as real
  {
  }

  lemma {:induction false} PassedGrows(values: seq<real>, x: real, y: real)
    requires x < y
    ensures Passed(values, x, false) <= Passed(values, y, true)
  {
    if values != [] {
      PassedGrows(values[1..], x, y);
    }
  }

  lemma CeilOf(x: real, k: int)
    requires k as real < x <= (k + 1) as real
    ensures Ceil(x) == k + 1
  {
  }

  /** Rounding keeps a share between the whole numbers around it, so it loses one rank at most. */
  lemma RoundedRank(share: real, k: nat, round: real -> real)
    requires Rounding(round) && k < EXACT && k as real < share <= (k + 1) as real
    ensures Ceil(round(share)) == k || Ceil(round(share)) == k + 1
  {
    assert round(Whole(k)) == Whole(k) && round(Whole(k + 1)) == Whole(k + 1);
    assert Whole(k) <= round(share) <= Whole(k + 1);
    if round(share) == k as real {
      CeilOf(round(share), k - 1);
    } else {
      CeilOf(round(share), k);
    }
  }

  /** One rank below that of a share is its nearest rank too exactly when the two values there are equal. */
  lemma RankBelow(ordered: seq<real>, share: real, k: nat)
    requires Ascending(ordered) && 1 <= k < |ordered| && k as real < share <= (k + 1) as real
    ensures Nearest(ordered, share, ordered[k - 1]) <==> ordered[k - 1] == ordered[k]
  {
    RankCounts(ordered, k - 1);
    RankCounts(ordered, k);
    if ordered[k - 1] < ordered[k] {
      PassedGrows(ordered, ordered[k - 1], ordered[k]);
    }
  }

  /** The rank that the percentile answers with. */
  lemma RoundedShare(ordered: seq<real>, share: real, k: nat, round: real -> real)
    requires Ascending(ordered) && k < |ordered| <= EXACT && k as real < share <= (k + 1) as real && Rounding(round)
    ensures AtShare(ordered, round(share)) == ordered[if LosesARank(share, round(share)) then k - 1 else k]
    ensures Nearest(ordered, share, AtShare(ordered, round(share))) <==>
            LosesARank(share, round(share)) ==> ordered[k - 1] == ordered[k]
  {
    CeilOf(share, k);
    RoundedRank(share, k, round);
    if LosesARank(share, round(share)) {
      RankBelow(ordered, share, k);
    } else {
      RankCounts(ordered, k);
    }
  }

  /**
   The percentile for a share above 0 and up to 1, whatever the order of the values: it is the nearest
   rank unless the product of share and length loses a rank by rounding, and then exactly if the values
   at that rank and below it are equal.
   */
  lemma IsNearestRank(values: seq<real>, q: real, round: real -> real)
    requires values != [] && 0.0 < q <= 1.0 && |values| <= EXACT && Rounding(round)
    ensures var share, ordered := Share(q, |values|), Sorted(values);
            var rank := Ceil(share) - 1;
            && 0 <= rank < |ordered|
            && (Nearest(values, share, Of(values, q, round).value) <==>
                  LosesARank(share, round(share)) ==> ordered[rank - 1] == ordered[rank])
  {
    var share, ordered := Share(q, |values|), Sorted(values);
    SortedIsSorted(values);
    ShareIsInRange(q, |values|);
    RoundedShare(ordered, share, Ceil(share) - 1, round);
    SortingKeepsNearest(values, share, Of(values, q, round).value);
  }

  /** No other value is. */
  lemma NearestRankIsUnique(values: seq<real>, share: real, x: real, y: real)
    requires Nearest(values, share, x) && Nearest(values, share, y)
    ensures x == y
  {
    if x < y {
      PassedGrows(values, x, y);
    } else if y < x {
      PassedGrows(values, y, x);
    }
  }
}
