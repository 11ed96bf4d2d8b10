/** packages/domain/coverage.py, and the rounded sums of packages/calculations/theme_metrics.py:271-298. */
module CoverageRatios {
  import opened Results

  // Rounding of one decimal operation in a fixed context.
  type Rounding = real -> real

  /** All the ratio needs of a rounding: order is kept, representable values are fixed, 0 and 1 are representable. */
  ghost predicate Sound(rnd: Rounding) {
    && (forall a, b | a <= b :: rnd(a) <= rnd(b))
    && (forall a :: rnd(rnd(a)) == rnd(a))
    && rnd(0.0) == 0.0 && rnd(1.0) == 1.0
  }

  // Left-to-right addition, each partial sum rounded.
  function RoundedSum(xs: seq<real>, rnd: Rounding): real {
    if xs == [] then 0.0 else rnd(RoundedSum(xs[..|xs| - 1], rnd) + xs[|xs| - 1])
  }

  function Kept(xs: seq<real>, keep: seq<bool>): seq<real>
    requires |xs| == |keep|
  {
    if xs == [] then [] else
    var n := |xs| - 1;
    Kept(xs[..n], keep[..n]) + if keep[n] then [xs[n]] else []
  }

  /** Leaving terms out never makes a sequentially rounded sum larger. */
  lemma {:induction false} PartNeverExceedsWhole(xs: seq<real>, keep: seq<bool>, rnd: Rounding)
    requires Sound(rnd) && |xs| == |keep| && forall i | 0 <= i < |xs| :: xs[i] >= 0.0
    ensures 0.0 <= RoundedSum(Kept(xs, keep), rnd) <= RoundedSum(xs, rnd)
    ensures rnd(RoundedSum(xs, rnd)) == RoundedSum(xs, rnd)
  {
    if xs != [] {
      var n := |xs| - 1;
      PartNeverExceedsWhole(xs[..n], keep[..n], rnd);
      var part, whole := Kept(xs[..n], keep[..n]), RoundedSum(xs[..n], rnd);
      assert whole <= whole + xs[n];
      if keep[n] {
        assert (part + [xs[n]])[..|part|] == part;
        assert RoundedSum(part, rnd) + xs[n] >= 0.0;
      } else {
        assert Kept(xs, keep) == part;
      }
    }
  }

  /** So the rounded ratio of a part to the whole is a ratio, whatever the rounding. */
  lemma RatioIsARatio(xs: seq<real>, keep: seq<bool>, rnd: Rounding)
    requires Sound(rnd) && |xs| == |keep| && forall i | 0 <= i < |xs| :: xs[i] >= 0.0
    requires RoundedSum(xs, rnd) > 0.0
    ensures 0.0 <= rnd(RoundedSum(Kept(xs, keep), rnd) / RoundedSum(xs, rnd)) <= 1.0
  {
    PartNeverExceedsWhole(xs, keep, rnd);
    Quotient(RoundedSum(Kept(xs, keep), rnd), RoundedSum(xs, rnd));
  }

  lemma Quotient(a: real, b: real)
    requires 0.0 <= a <= b && b > 0.0
    ensures 0.0 <= a / b <= 1.0
  {
  }

  function Exactly(x: real): real { x }

  /** Numerator and denominator must share the rounding: were they rounded differently, the ratio of a fully observed theme
      would exceed 1 exactly when the denominator's rounding loses more. */
  lemma MixedPrecisionBreaksTheBound(xs: seq<real>, fine: Rounding, coarse: Rounding)
    requires RoundedSum(xs, coarse) > 0.0
    ensures RoundedSum(xs, fine) / RoundedSum(xs, coarse) > 1.0 <==> RoundedSum(xs, coarse) < RoundedSum(xs, fine)
  {
    hide RoundedSum;
    AboveOne(RoundedSum(xs, fine), RoundedSum(xs, coarse));
  }

  /** One stock whose capitalisation the rounding lowers is enough. */
  lemma MixedPrecisionWitness(x: real, rnd: Rounding)
    requires 0.0 < rnd(x) < x
    ensures RoundedSum([x], rnd) > 0.0
    ensures RoundedSum([x], Exactly) / RoundedSum([x], rnd) > 1.0
  {
    SingleSum(x, Exactly);
    SingleSum(x, rnd);
    hide RoundedSum;
    assert Exactly(x) == x;
    MixedPrecisionBreaksTheBound([x], Exactly, rnd);
  }

  lemma AboveOne(a: real, b: real)
    requires b > 0.0
    ensures a / b > 1.0 <==> a > b
  {
    var q := a / b;
    assert q * b == a;
    if q > 1.0 { assert q * b > 1.0 * b; } else { assert q * b <= 1.0 * b; }
  }

  lemma SingleSum(x: real, rnd: Rounding)
    ensures RoundedSum([x], rnd) == rnd(x)
  {
    assert [x][..0] == [];
    assert RoundedSum([x], rnd) == rnd(0.0 + x);
  }

  // ----- CoveragePart -----

  datatype CoveragePart = CoveragePart(observed: int, total: int, countRatio: Option<real>, weightRatio: Option<real>)

  datatype CoverageError = NegativeCount | ObservedExceedsTotal | CountRatioMismatch | WeightRatioOutOfRange

  function CountRatio(observed: int, total: int): Option<real> {
    if total == 0 then None else Some(observed as real / total as real)
  }

  function Checked(p: CoveragePart): Result<CoveragePart, CoverageError> {
    if p.observed < 0 || p.total < 0 then Failure(NegativeCount)
    else if p.observed > p.total then Failure(ObservedExceedsTotal)
    else if p.countRatio != CountRatio(p.observed, p.total) then Failure(CountRatioMismatch)
    else if p.weightRatio.Some? && !(0.0 <= p.weightRatio.value <= 1.0) then Failure(WeightRatioOutOfRange)
    else Success(p)
  }

  /** Building a part from counts fails exactly for counts that do not nest or a weight ratio outside [0, 1]. */
  function FromCounts(observed: int, total: int, weightRatio: Option<real>): (r: Result<CoveragePart, CoverageError>)
    ensures r.Success? <==> 0 <= observed <= total && (weightRatio.Some? ==> 0.0 <= weightRatio.value <= 1.0)
    ensures r.Success? && total > 0 ==> r.value.countRatio.Some? && 0.0 <= r.value.countRatio.value <= 1.0
  {
    Checked(CoveragePart(observed, total, CountRatio(observed, total), weightRatio))
  }
}
