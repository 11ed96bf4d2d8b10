/** The median shared by packages/calculations/theme_metrics.py:110-119 and turnover.py:50-57. */
module Medians {
  import opened Results
  import opened Sorting

  predicate RealLe(a: real, b: real) { a <= b }

  function Median(values: seq<real>): Option<real> {
    var ordered := Sort(values, RealLe);
    var middle := |ordered| / 2;
    if ordered == [] then None
    else if |ordered| % 2 == 1 then Some(ordered[middle])
    else Some((ordered[middle - 1] + ordered[middle]) / 2.0)
  }

  lemma SortReals(values: seq<real>)
    ensures SortedBy(Sort(values, RealLe), RealLe)
    ensures multiset(Sort(values, RealLe)) == multiset(values) && |Sort(values, RealLe)| == |values|
    ensures forall x :: x in Sort(values, RealLe) <==> x in values
  {
    assert TotalPreorder(RealLe);
    SortCorrect(values, RealLe);
  }

  /** A median exists exactly for a non-empty list, and it depends on the values alone, not on their order. */
  lemma MedianOfPermutation(a: seq<real>, b: seq<real>)
    requires multiset(a) == multiset(b)
    ensures Median(a) == Median(b) && (Median(a).Some? <==> a != [])
  {
    SortReals(a);
    SortReals(b);
    hide Sort;
    SortedUnique(Sort(a, RealLe), Sort(b, RealLe), RealLe);
  }

  /** Any bound on the values bounds the median. */
  lemma MedianBetween(values: seq<real>, lo: real, hi: real)
    requires values != [] && forall v | v in values :: lo <= v <= hi
    ensures Median(values).Some? && lo <= Median(values).value <= hi
  {
    hide Sort;
    SortReals(values);
    var ordered := Sort(values, RealLe);
    assert forall i | 0 <= i < |ordered| :: ordered[i] in ordered;
  }

  /** At least half of the values are at or below the median, and at least half at or above it. */
  lemma MedianSplits(values: seq<real>)
    requires values != []
    ensures Median(values).Some?
    ensures var ordered := Sort(values, RealLe);
            && multiset(ordered) == multiset(values) && |ordered| == |values|
            && (forall i | 0 <= i < (|values| + 1) / 2 :: ordered[i] <= Median(values).value)
            && (forall i | |values| / 2 <= i < |values| :: Median(values).value <= ordered[i])
  {
    hide Sort, SortedBy;
    SortReals(values);
    var ordered, n := Sort(values, RealLe), |values|;
    forall i, j | 0 <= i <= j < n ensures ordered[i] <= ordered[j] { InOrderAt(ordered, i, j); }
  }

  lemma InOrderAt(ordered: seq<real>, i: nat, j: nat)
    requires SortedBy(ordered, RealLe) && i <= j < |ordered|
    ensures ordered[i] <= ordered[j]
  {
    assert i < j ==> RealLe(ordered[i], ordered[j]);
  }
}
