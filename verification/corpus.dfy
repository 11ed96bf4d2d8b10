/** packages/historical_data/corpus.py: adjusted prices from the base prices the exchange implies.
    Fractions are exact reals; a row is one (stock, trade date) of the daily price table. */
module Corpus {
  import opened Results

  datatype Row = Row(
    stockId: string, tradeDate: int, open: Option<int>, high: Option<int>, low: Option<int>, close: int, change: Option<int>)

  datatype Factor = Factor(date: int, ratio: real)

  datatype BreakReason = NoChangeField | NonPositiveBase | FactorOutOfRange

  // What the step from the previous close to this row's base price means.
  datatype Link = Unchanged | Scaled(ratio: real) | Broken(reason: BreakReason)

  const FACTOR_MIN: real := 1.0 / 1000.0
  const FACTOR_MAX: real := 1000.0

  function LinkOf(previousClose: int, row: Row): Link
    requires previousClose > 0
  {
    if row.change.None? then Broken(NoChangeField) else
    var base := row.close - row.change.value;
    if base <= 0 then Broken(NonPositiveBase)
    else if base == previousClose then Unchanged
    else if FACTOR_MIN <= base as real / previousClose as real <= FACTOR_MAX then Scaled(base as real / previousClose as real)
    else Broken(FactorOutOfRange)
  }

  // ----- One stock's series -----

  // The rows of one stock in date order, each with a positive close.
  ghost predicate IsSeries(rows: seq<Row>) {
    && (forall i | 0 <= i < |rows| :: rows[i].close > 0)
    && (forall i, j | 0 <= i < j < |rows| :: rows[i].tradeDate < rows[j].tradeDate)
  }

  function LinkAt(rows: seq<Row>, t: nat): Link
    requires 0 < t < |rows| && rows[t - 1].close > 0
  {
    LinkOf(rows[t - 1].close, rows[t])
  }

  function FactorsOf(rows: seq<Row>): seq<Factor>
    requires forall i | 0 <= i < |rows| :: rows[i].close > 0
  {
    if |rows| <= 1 then [] else
    var n := |rows| - 1;
    FactorsOf(rows[..n]) + match LinkAt(rows, n) case Scaled(ratio) => [Factor(rows[n].tradeDate, ratio)] case _ => []
  }

  function LatestBreak(rows: seq<Row>): Option<int>
    requires forall i | 0 <= i < |rows| :: rows[i].close > 0
  {
    if |rows| <= 1 then None else
    var n := |rows| - 1;
    if LinkAt(rows, n).Broken? then Some(rows[n].tradeDate) else LatestBreak(rows[..n])
  }

  /** The naive definition: the product of every factor dated after `date`. */
  function ProductAfter(factors: seq<Factor>, date: int): real {
    if factors == [] then 1.0
    else (if factors[0].date > date then factors[0].ratio else 1.0) * ProductAfter(factors[1..], date)
  }

  function ExactClose(rows: seq<Row>, t: nat): real
    requires IsSeries(rows) && t < |rows|
  {
    rows[t].close as real * ProductAfter(FactorsOf(rows), rows[t].tradeDate)
  }

  ghost predicate AtOrAfterBreak(rows: seq<Row>, t: nat)
    requires IsSeries(rows) && t < |rows|
  {
    LatestBreak(rows).Some? ==> LatestBreak(rows).value <= rows[t].tradeDate
  }

  lemma {:induction false} FactorDates(rows: seq<Row>)
    requires IsSeries(rows)
    ensures forall i | 0 <= i < |FactorsOf(rows)| :: FactorsOf(rows)[i].date <= rows[|rows| - 1].tradeDate
    ensures forall i | 0 <= i < |FactorsOf(rows)| :: FactorsOf(rows)[i].ratio > 0.0
    ensures forall i, j | 0 <= i < j < |FactorsOf(rows)| :: FactorsOf(rows)[i].date < FactorsOf(rows)[j].date
    ensures FactorsOf(rows) != [] ==> rows != []
  {
    if |rows| > 1 {
      FactorDates(rows[..|rows| - 1]);
    }
  }

  lemma {:induction false} ProductAppend(a: seq<Factor>, b: seq<Factor>, date: int)
    ensures ProductAfter(a + b, date) == ProductAfter(a, date) * ProductAfter(b, date)
  {
    if a == [] {
      assert a + b == b;
    } else {
      assert (a + b)[0] == a[0] && (a + b)[1..] == a[1..] + b;
      ProductAppend(a[1..], b, date);
    }
  }

  lemma {:induction false} ProductOfPast(a: seq<Factor>, date: int)
    requires forall i | 0 <= i < |a| :: a[i].date <= date
    ensures ProductAfter(a, date) == 1.0
  {
    if a != [] { ProductOfPast(a[1..], date); }
  }

  lemma {:induction false} ProductPositive(a: seq<Factor>, date: int)
    requires forall i | 0 <= i < |a| :: a[i].ratio > 0.0
    ensures ProductAfter(a, date) > 0.0
  {
    if a != [] { ProductPositive(a[1..], date); }
  }

  // The factor the step into row t contributes.
  function RatioAt(rows: seq<Row>, t: nat): real
    requires 0 < t < |rows| && rows[t - 1].close > 0
  {
    match LinkAt(rows, t) case Scaled(ratio) => ratio case _ => 1.0
  }

  // The last row's factor is the last one in the list.
  lemma LastFactor(rows: seq<Row>, date: int)
    requires IsSeries(rows) && |rows| > 1
    ensures var n := |rows| - 1;
            ProductAfter(FactorsOf(rows), date)
              == ProductAfter(FactorsOf(rows[..n]), date) * (if rows[n].tradeDate > date then RatioAt(rows, n) else 1.0)
  {
    var n := |rows| - 1;
    match LinkAt(rows, n)
    case Scaled(ratio) =>
      var own := [Factor(rows[n].tradeDate, ratio)];
      ProductAppend(FactorsOf(rows[..n]), own, date);
      assert own[1..] == [];
    case _ => assert FactorsOf(rows) == FactorsOf(rows[..n]);
  }

  lemma PastProduct(rows: seq<Row>, date: int)
    requires IsSeries(rows) && rows != [] && rows[|rows| - 1].tradeDate <= date
    ensures ProductAfter(FactorsOf(rows), date) == 1.0
  {
    FactorDates(rows);
    ProductOfPast(FactorsOf(rows), date);
  }

  /** Stepping back one row multiplies the naive product by that row's own factor and nothing else. */
  lemma {:induction false} ProductStepsBack(rows: seq<Row>, t: nat)
    requires IsSeries(rows) && 0 < t < |rows|
    ensures ProductAfter(FactorsOf(rows), rows[t - 1].tradeDate)
         == RatioAt(rows, t) * ProductAfter(FactorsOf(rows), rows[t].tradeDate)
    decreases |rows|
  {
    hide ProductAfter, FactorsOf, LinkAt;
    var n := |rows| - 1;
    LastFactor(rows, rows[t - 1].tradeDate);
    LastFactor(rows, rows[t].tradeDate);
    if t == n {
      PastProduct(rows[..n], rows[t - 1].tradeDate);
      PastProduct(rows[..n], rows[t].tradeDate);
    } else {
      ProductStepsBack(rows[..n], t);
      RatioOfFront(rows, t);
      Regroup(RatioAt(rows, t), ProductAfter(FactorsOf(rows[..n]), rows[t].tradeDate), RatioAt(rows, n));
    }
  }

  lemma Regroup(a: real, b: real, c: real)
    ensures a * b * c == a * (b * c)
  {
  }

  lemma RatioOfFront(rows: seq<Row>, t: nat)
    requires IsSeries(rows) && 0 < t < |rows| - 1
    ensures RatioAt(rows[..|rows| - 1], t) == RatioAt(rows, t)
  {
  }

  lemma {:induction false} NoBreakLater(rows: seq<Row>, t: nat)
    requires IsSeries(rows) && 0 < t < |rows| && AtOrAfterBreak(rows, t - 1)
    ensures !LinkAt(rows, t).Broken?
    decreases |rows|
  {
    var n := |rows| - 1;
    if t < n {
      if !LinkAt(rows, n).Broken? {
        NoBreakLater(rows[..n], t);
      }
    }
  }

  lemma Chain(previous: real, ratio: real, p: real, base: real, q: real, exact: real)
    requires exact == previous * q && q == ratio * p && previous * ratio == base
    ensures exact == base * p
  {
  }

  lemma PreviousClose(rows: seq<Row>, t: nat)
    requires IsSeries(rows) && 0 < t < |rows| && !LinkAt(rows, t).Broken?
    ensures rows[t].change.Some? && rows[t].close - rows[t].change.value > 0
    ensures ExactClose(rows, t - 1)
         == (rows[t].close - rows[t].change.value) as real * ProductAfter(FactorsOf(rows), rows[t].tradeDate)
  {
    hide LinkAt, FactorsOf, ProductAfter, RatioAt;
    ProductStepsBack(rows, t);
    RatioIsBaseOverPrevious(rows, t);
    Chain(rows[t - 1].close as real, RatioAt(rows, t), ProductAfter(FactorsOf(rows), rows[t].tradeDate),
          (rows[t].close - rows[t].change.value) as real, ProductAfter(FactorsOf(rows), rows[t - 1].tradeDate),
          ExactClose(rows, t - 1));
  }

  /** Adjustment preserves the official daily return of every step after the latest break. */
  lemma DailyReturnPreserved(rows: seq<Row>, t: nat)
    requires IsSeries(rows) && 0 < t < |rows| && AtOrAfterBreak(rows, t - 1)
    ensures rows[t].change.Some? && rows[t].close - rows[t].change.value > 0
    ensures ExactClose(rows, t - 1) > 0.0
    ensures ExactClose(rows, t) / ExactClose(rows, t - 1)
         == rows[t].close as real / (rows[t].close - rows[t].change.value) as real
  {
    hide LinkAt, FactorsOf, ProductAfter, LatestBreak;
    NoBreakLater(rows, t);
    PreviousClose(rows, t);
    FactorDates(rows);
    ProductPositive(FactorsOf(rows), rows[t].tradeDate);
    CommonFactor(rows[t].close as real, (rows[t].close - rows[t].change.value) as real,
                 ProductAfter(FactorsOf(rows), rows[t].tradeDate), ExactClose(rows, t), ExactClose(rows, t - 1));
  }

  lemma RatioIsBaseOverPrevious(rows: seq<Row>, t: nat)
    requires IsSeries(rows) && 0 < t < |rows| && !LinkAt(rows, t).Broken?
    ensures rows[t].change.Some? && rows[t].close - rows[t].change.value > 0
    ensures rows[t - 1].close as real * RatioAt(rows, t) == (rows[t].close - rows[t].change.value) as real
  {
  }

  lemma CommonFactor(a: real, b: real, p: real, after: real, before: real)
    requires b > 0.0 && p > 0.0 && after == a * p && before == b * p
    ensures before > 0.0 && after / before == a / b
  {
    assert a / b * before == after;
  }

  // The gross return the exchange reported over the days after s up to t.
  function GrossReturn(rows: seq<Row>, s: nat, t: nat): real
    requires s <= t < |rows|
    requires forall i | s < i <= t :: rows[i].change.Some? && rows[i].close - rows[i].change.value > 0
  {
    if s == t then 1.0
    else GrossReturn(rows, s, t - 1) * (rows[t].close as real / (rows[t].close - rows[t].change.value) as real)
  }

  /** So the adjusted series compounds exactly the reported returns over any window after the latest break. */
  lemma {:induction false} ReturnsCompound(rows: seq<Row>, s: nat, t: nat)
    requires IsSeries(rows) && s <= t < |rows| && AtOrAfterBreak(rows, s)
    ensures forall i | s < i <= t :: rows[i].change.Some? && rows[i].close - rows[i].change.value > 0
    ensures ExactClose(rows, t) == ExactClose(rows, s) * GrossReturn(rows, s, t)
    decreases t
  {
    hide IsSeries, AtOrAfterBreak, ExactClose;
    if s < t {
      ReturnsCompound(rows, s, t - 1);
      StillAfterBreak(rows, s, t - 1);
      DailyReturnPreserved(rows, t);
      Compounds(ExactClose(rows, s), GrossReturn(rows, s, t - 1), ExactClose(rows, t - 1), ExactClose(rows, t),
                rows[t].close as real / (rows[t].close - rows[t].change.value) as real);
    }
  }

  lemma StillAfterBreak(rows: seq<Row>, s: nat, t: nat)
    requires IsSeries(rows) && s <= t < |rows| && AtOrAfterBreak(rows, s)
    ensures AtOrAfterBreak(rows, t)
  {
    hide LinkAt, LatestBreak;
  }

  lemma Compounds(start: real, gross: real, before: real, after: real, daily: real)
    requires before > 0.0 && before == start * gross && after / before == daily
    ensures after == start * (gross * daily)
  {
    assert after == before * daily;
  }

  // ----- Adjusted prices -----

  datatype AdjustedPrices = AdjustedPrices(open: Option<real>, high: Option<real>, low: Option<real>, close: Option<real>)

  const NO_PRICES: AdjustedPrices := AdjustedPrices(None, None, None, None)

  // Scaling a raw price by a cumulative factor and rounding the quotient.
  type Adjust = (int, real) -> real

  /** What the rounding may do: it keeps the order of prices, and a factor of 1 leaves a price alone. */
  ghost predicate SoundRounding(adjust: Adjust) {
    && (forall v, w, c | v <= w && c > 0.0 :: adjust(v, c) <= adjust(w, c))
    && (forall v :: adjust(v, 1.0) == v as real)
  }

  function AdjustOptional(value: Option<int>, c: real, adjust: Adjust): Option<real> {
    if value.None? then None else Some(adjust(value.value, c))
  }

  function AdjustRow(row: Row, c: real, adjust: Adjust): AdjustedPrices {
    AdjustedPrices(AdjustOptional(row.open, c, adjust), AdjustOptional(row.high, c, adjust),
                   AdjustOptional(row.low, c, adjust), Some(adjust(row.close, c)))
  }

  function Widened(value: Option<int>): Option<real> { if value.None? then None else Some(value.value as real) }

  // The bulk update that first copies every raw price.
  function RawPrices(row: Row): AdjustedPrices {
    AdjustedPrices(Widened(row.open), Widened(row.high), Widened(row.low), Some(row.close as real))
  }

  ghost predicate BeforeBreak(row: Row, latestBreak: Option<int>) {
    latestBreak.Some? && row.tradeDate < latestBreak.value
  }

  /** The definition: nothing before the latest break, otherwise raw times every later factor. */
  ghost function NaivePrices(row: Row, factors: seq<Factor>, latestBreak: Option<int>, adjust: Adjust): AdjustedPrices {
    if BeforeBreak(row, latestBreak) then NO_PRICES else AdjustRow(row, ProductAfter(factors, row.tradeDate), adjust)
  }

  /** Rounding never turns the day's price range inside out. */
  lemma RangeSurvives(row: Row, c: real, adjust: Adjust)
    requires SoundRounding(adjust) && c > 0.0
    requires row.low.Some? ==> row.low.value <= row.close
    requires row.high.Some? ==> row.close <= row.high.value
    ensures var a := AdjustRow(row, c, adjust);
            && (a.low.Some? ==> a.low.value <= a.close.value)
            && (a.high.Some? ==> a.close.value <= a.high.value)
  {
  }

  function Product(factors: seq<Factor>): real {
    if factors == [] then 1.0 else factors[0].ratio * Product(factors[1..])
  }

  /** The cursor's suffix product is the naive product: it stands between past and future factors. */
  lemma {:induction false} CursorProduct(factors: seq<Factor>, k: nat, date: int)
    requires k <= |factors|
    requires forall m | 0 <= m < k :: factors[m].date <= date
    requires forall m | k <= m < |factors| :: factors[m].date > date
    ensures ProductAfter(factors, date) == Product(factors[k..])
    decreases |factors|
  {
    if factors != [] {
      if k == 0 {
        CursorProduct(factors[1..], 0, date);
        assert factors[0..] == factors && factors[1..][0..] == factors[1..];
      } else {
        CursorProduct(factors[1..], k - 1, date);
        assert factors[1..][k - 1..] == factors[k..];
      }
    }
  }

  lemma SuffixStep(factors: seq<Factor>, index: nat)
    requires index < |factors|
    ensures Product(factors[index..]) == factors[index].ratio * Product(factors[index + 1..])
  {
    assert factors[index..][1..] == factors[index + 1..];
  }

  // From index on, each entry is the product of the factors from its own place to the end.
  ghost predicate SuffixesFrom(suffix: seq<real>, factors: seq<Factor>, index: nat) {
    |suffix| == |factors| + 1 && forall k | index <= k <= |factors| :: suffix[k] == Product(factors[k..])
  }

  lemma LastSuffix(suffix: seq<real>, factors: seq<Factor>)
    requires |suffix| == |factors| + 1 && suffix[|factors|] == 1.0
    ensures SuffixesFrom(suffix, factors, |factors|)
  {
    assert factors[|factors|..] == [];
  }

  lemma OneMoreSuffix(suffix: seq<real>, factors: seq<Factor>, index: nat, product: real)
    requires index < |factors| && SuffixesFrom(suffix, factors, index + 1) && product == factors[index].ratio * suffix[index + 1]
    ensures SuffixesFrom(suffix[index := product], factors, index)
  {
    SuffixStep(factors, index);
    hide Product;
  }

  method SuffixProducts(factors: seq<Factor>) returns (suffix: array<real>)
    ensures fresh(suffix) && suffix.Length == |factors| + 1 && SuffixesFrom(suffix[..], factors, 0)
  {
    hide SuffixesFrom;
    suffix := new real[|factors| + 1](_ => 1.0);
    var index := |factors|;
    LastSuffix(suffix[..], factors);
    while index > 0
      invariant 0 <= index <= |factors| && SuffixesFrom(suffix[..], factors, index)
    {
      index := index - 1;
      var product := factors[index].ratio * suffix[index + 1];
      OneMoreSuffix(suffix[..], factors, index, product);
      ghost var before := suffix[..];
      suffix[index] := product;
      assert suffix[..] == before[index := product];
    }
  }

  ghost function CountBefore(rows: seq<Row>, latestBreak: Option<int>): nat {
    if rows == [] then 0
    else CountBefore(rows[..|rows| - 1], latestBreak) + if BeforeBreak(rows[|rows| - 1], latestBreak) then 1 else 0
  }

  /** One pass over a stock: what it overwrites, on top of the raw prices, is the naive definition. */
  method AdjustStock(rows: seq<Row>, factors: seq<Factor>, latestBreak: Option<int>, adjust: Adjust)
    returns (updates: map<int, AdjustedPrices>, withoutAdjusted: int)
    requires IsSeries(rows) && SoundRounding(adjust)
    requires forall i, j | 0 <= i < j < |factors| :: factors[i].date < factors[j].date
    ensures forall i | 0 <= i < |rows| ::
              (if rows[i].tradeDate in updates then updates[rows[i].tradeDate] else RawPrices(rows[i]))
              == NaivePrices(rows[i], factors, latestBreak, adjust)
    ensures withoutAdjusted == CountBefore(rows, latestBreak)
    ensures forall d | d in updates :: exists i :: 0 <= i < |rows| && rows[i].tradeDate == d
  {
    var suffix := SuffixProducts(factors);
    updates, withoutAdjusted := map[], 0;
    var cursor := 0;
    hide Product, ProductAfter, NaivePrices, RawPrices, AdjustRow, SoundRounding, AdjustedUpTo, IsSeries;
    NothingAdjusted(rows, factors, latestBreak, adjust);
    for t := 0 to |rows|
      invariant 0 <= cursor <= |factors|
      invariant forall m | 0 <= m < cursor :: t > 0 && factors[m].date <= rows[t - 1].tradeDate
      invariant suffix.Length == |factors| + 1 && SuffixesFrom(suffix[..], factors, 0)
      invariant withoutAdjusted == CountBefore(rows[..t], latestBreak)
      invariant AdjustedUpTo(rows, t, updates, factors, latestBreak, adjust)
    {
      var row := rows[t];
      ghost var before := updates;
      assert rows[..t + 1][..t] == rows[..t];
      LaterRow(rows, t);
      if latestBreak.Some? && row.tradeDate < latestBreak.value {
        updates := updates[row.tradeDate := NO_PRICES];
        withoutAdjusted := withoutAdjusted + 1;
        WithheldPrices(row, factors, latestBreak, adjust);
      } else {
        cursor := MoveCursor(factors, cursor, row.tradeDate);
        var cumulative := suffix[cursor];
        CursorPrices(row, factors, latestBreak, adjust, cursor);
        if cumulative != 1.0 { updates := updates[row.tradeDate := AdjustRow(row, cumulative, adjust)]; }
      }
      OneMoreDay(rows, t, before, updates, factors, latestBreak, adjust);
    }
    assert rows[..|rows|] == rows;
    AllAdjusted(rows, updates, factors, latestBreak, adjust);
  }

  method MoveCursor(factors: seq<Factor>, start: nat, date: int) returns (cursor: nat)
    requires start <= |factors| && forall m | 0 <= m < start :: factors[m].date <= date
    requires forall i, j | 0 <= i < j < |factors| :: factors[i].date < factors[j].date
    ensures cursor <= |factors| && (forall m | 0 <= m < cursor :: factors[m].date <= date)
    ensures forall m | cursor <= m < |factors| :: factors[m].date > date
  {
    cursor := start;
    while cursor < |factors| && factors[cursor].date <= date
      invariant cursor <= |factors| && forall m | 0 <= m < cursor :: factors[m].date <= date
    {
      cursor := cursor + 1;
    }
  }

  // The updates made so far, laid over the raw prices of the rows seen so far.
  ghost predicate AdjustedUpTo(rows: seq<Row>, t: nat, updates: map<int, AdjustedPrices>, factors: seq<Factor>, latestBreak: Option<int>,
                               adjust: Adjust)
  {
    && t <= |rows|
    && (forall d | d in updates :: exists i :: 0 <= i < t && rows[i].tradeDate == d)
    && forall i | 0 <= i < t ::
         (if rows[i].tradeDate in updates then updates[rows[i].tradeDate] else RawPrices(rows[i]))
         == NaivePrices(rows[i], factors, latestBreak, adjust)
  }

  lemma NothingAdjusted(rows: seq<Row>, factors: seq<Factor>, latestBreak: Option<int>, adjust: Adjust)
    ensures AdjustedUpTo(rows, 0, map[], factors, latestBreak, adjust)
  {
  }

  lemma AllAdjusted(rows: seq<Row>, updates: map<int, AdjustedPrices>, factors: seq<Factor>, latestBreak: Option<int>, adjust: Adjust)
    requires AdjustedUpTo(rows, |rows|, updates, factors, latestBreak, adjust)
    ensures forall i | 0 <= i < |rows| ::
              (if rows[i].tradeDate in updates then updates[rows[i].tradeDate] else RawPrices(rows[i]))
              == NaivePrices(rows[i], factors, latestBreak, adjust)
    ensures forall d | d in updates :: exists i :: 0 <= i < |rows| && rows[i].tradeDate == d
  {
    hide RawPrices, NaivePrices;
  }

  lemma LaterRow(rows: seq<Row>, t: nat)
    requires IsSeries(rows) && t < |rows|
    ensures t > 0 ==> rows[t - 1].tradeDate < rows[t].tradeDate
  {
  }

  lemma WithheldPrices(row: Row, factors: seq<Factor>, latestBreak: Option<int>, adjust: Adjust)
    requires BeforeBreak(row, latestBreak)
    ensures NaivePrices(row, factors, latestBreak, adjust) == NO_PRICES
  {
  }

  lemma CursorPrices(row: Row, factors: seq<Factor>, latestBreak: Option<int>, adjust: Adjust, cursor: nat)
    requires !BeforeBreak(row, latestBreak) && SoundRounding(adjust)
    requires cursor <= |factors| && forall m | 0 <= m < cursor :: factors[m].date <= row.tradeDate
    requires forall m | cursor <= m < |factors| :: factors[m].date > row.tradeDate
    ensures NaivePrices(row, factors, latestBreak, adjust) == AdjustRow(row, Product(factors[cursor..]), adjust)
    ensures Product(factors[cursor..]) == 1.0 ==> NaivePrices(row, factors, latestBreak, adjust) == RawPrices(row)
  {
    hide Product, ProductAfter;
    CursorProduct(factors, cursor, row.tradeDate);
  }

  lemma OneMoreDay(rows: seq<Row>, t: nat, before: map<int, AdjustedPrices>, updates: map<int, AdjustedPrices>, factors: seq<Factor>,
                   latestBreak: Option<int>, adjust: Adjust)
    requires IsSeries(rows) && t < |rows| && AdjustedUpTo(rows, t, before, factors, latestBreak, adjust)
    requires updates == before[rows[t].tradeDate := NaivePrices(rows[t], factors, latestBreak, adjust)]
             || (updates == before && NaivePrices(rows[t], factors, latestBreak, adjust) == RawPrices(rows[t]))
    ensures AdjustedUpTo(rows, t + 1, updates, factors, latestBreak, adjust)
  {
    hide NaivePrices, RawPrices;
    assert forall i | 0 <= i < t :: rows[i].tradeDate < rows[t].tradeDate;
  }

  // ----- The whole table -----

  // The price table in (stock, date) order: unique keys, positive closes, each stock's rows together.
  ghost predicate IsTable(rows: seq<Row>) {
    && (forall i | 0 <= i < |rows| :: rows[i].close > 0)
    && (forall i, j | 0 <= i < j < |rows| && rows[i].stockId == rows[j].stockId :: rows[i].tradeDate < rows[j].tradeDate)
    && (forall i, j, k | 0 <= i < j < k < |rows| && rows[i].stockId == rows[k].stockId :: rows[j].stockId == rows[i].stockId)
  }

  function SeriesOf(rows: seq<Row>, stock: string): seq<Row> {
    if rows == [] then [] else
    var last := rows[|rows| - 1];
    SeriesOf(rows[..|rows| - 1], stock) + (if last.stockId == stock then [last] else [])
  }

  lemma {:induction false} SeriesMembers(rows: seq<Row>, stock: string)
    ensures forall r | r in SeriesOf(rows, stock) :: r in rows && r.stockId == stock
    ensures forall i | 0 <= i < |rows| && rows[i].stockId == stock :: rows[i] in SeriesOf(rows, stock)
  {
    if rows != [] {
      var front := rows[..|rows| - 1];
      SeriesMembers(front, stock);
      assert forall i | 0 <= i < |front| :: rows[i] == front[i];
    }
  }

  lemma EarlierInSeries(rows: seq<Row>, n: nat, r: Row)
    requires IsTable(rows) && n < |rows| && r in SeriesOf(rows[..n], rows[n].stockId)
    ensures r.tradeDate < rows[n].tradeDate && r.close > 0
  {
    SeriesMembers(rows[..n], rows[n].stockId);
    var m :| 0 <= m < n && rows[..n][m] == r;
    assert rows[m] == r;
  }

  lemma {:induction false} SeriesIsSeries(rows: seq<Row>, stock: string)
    requires IsTable(rows)
    ensures IsSeries(SeriesOf(rows, stock))
  {
    if rows != [] {
      var n := |rows| - 1;
      SeriesIsSeries(rows[..n], stock);
      if rows[n].stockId == stock {
        var s := SeriesOf(rows[..n], stock);
        forall i | 0 <= i < |s| ensures s[i].tradeDate < rows[n].tradeDate { EarlierInSeries(rows, n, s[i]); }
      }
    }
  }

  lemma {:induction false} NoRows(rows: seq<Row>, stock: string)
    requires forall i | 0 <= i < |rows| :: rows[i].stockId != stock
    ensures SeriesOf(rows, stock) == []
  {
    if rows != [] { NoRows(rows[..|rows| - 1], stock); }
  }

  // In a table the row just before continues the series, or the series is only beginning.
  lemma PreviousRow(rows: seq<Row>, i: nat)
    requires IsTable(rows) && i < |rows|
    ensures var s := SeriesOf(rows[..i], rows[i].stockId);
            if i > 0 && rows[i - 1].stockId == rows[i].stockId then s != [] && s[|s| - 1] == rows[i - 1] else s == []
  {
    if i > 0 && rows[i - 1].stockId == rows[i].stockId {
      assert rows[..i][..i - 1] == rows[..i - 1];
    } else {
      forall m | 0 <= m < i ensures rows[m].stockId != rows[i].stockId {}
      NoRows(rows[..i], rows[i].stockId);
    }
  }

  function FactorsFor(factors: map<string, seq<Factor>>, stock: string): seq<Factor> {
    if stock in factors then factors[stock] else []
  }

  function BreakFor(breaks: map<string, int>, stock: string): Option<int> {
    if stock in breaks then Some(breaks[stock]) else None
  }

  ghost function SeriesIn(rows: seq<Row>, stock: string): (s: seq<Row>)
    requires IsTable(rows)
    ensures IsSeries(s)
  {
    SeriesIsSeries(rows, stock);
    SeriesOf(rows, stock)
  }

  function WithFactor(factors: map<string, seq<Factor>>, row: Row, link: Link): map<string, seq<Factor>> {
    if link.Scaled? then factors[row.stockId := FactorsFor(factors, row.stockId) + [Factor(row.tradeDate, link.ratio)]] else factors
  }

  function WithBreak(breaks: map<string, int>, row: Row, link: Link): map<string, int> {
    if link.Broken? then breaks[row.stockId := row.tradeDate] else breaks
  }

  // The maps hold what each stock's own series implies.
  ghost predicate Explains(rows: seq<Row>, factors: map<string, seq<Factor>>, breaks: map<string, int>)
    requires IsTable(rows)
  {
    forall stock :: ExplainsStock(rows, factors, breaks, stock)
  }

  ghost predicate ExplainsStock(rows: seq<Row>, factors: map<string, seq<Factor>>, breaks: map<string, int>, stock: string)
    requires IsTable(rows)
  {
    && FactorsFor(factors, stock) == FactorsOf(SeriesIn(rows, stock))
    && BreakFor(breaks, stock) == LatestBreak(SeriesIn(rows, stock))
  }

  lemma PrefixIsTable(rows: seq<Row>, n: nat)
    requires IsTable(rows) && n <= |rows|
    ensures IsTable(rows[..n])
  {
  }

  // What one more row does to its stock's factors and break, and to no other stock's.
  lemma OneMoreRow(rows: seq<Row>, i: nat, stock: string)
    requires IsTable(rows) && i < |rows|
    ensures IsTable(rows[..i]) && IsTable(rows[..i + 1])
    ensures stock != rows[i].stockId ==> SeriesOf(rows[..i + 1], stock) == SeriesOf(rows[..i], stock)
    ensures stock == rows[i].stockId ==> SeriesOf(rows[..i + 1], stock) == SeriesOf(rows[..i], stock) + [rows[i]]
  {
    PrefixIsTable(rows, i);
    PrefixIsTable(rows, i + 1);
    assert rows[..i + 1][..i] == rows[..i];
  }

  lemma SeriesGrows(series: seq<Row>, row: Row)
    requires IsSeries(series) && IsSeries(series + [row])
    ensures series == [] ==> FactorsOf(series + [row]) == [] && LatestBreak(series + [row]) == None
    ensures series != [] ==>
              var link := LinkOf(series[|series| - 1].close, row);
              && FactorsOf(series + [row]) == FactorsOf(series) + (if link.Scaled? then [Factor(row.tradeDate, link.ratio)] else [])
              && LatestBreak(series + [row]) == (if link.Broken? then Some(row.tradeDate) else LatestBreak(series))
  {
    assert (series + [row])[..|series|] == series;
  }

  /** The single ordered pass finds exactly each stock's factors and latest break. */
  method ScanLinks(rows: seq<Row>) returns (factors: map<string, seq<Factor>>, breaks: map<string, int>)
    requires IsTable(rows)
    ensures Explains(rows, factors, breaks)
    ensures forall stock | stock in factors || stock in breaks :: exists i :: 0 <= i < |rows| && rows[i].stockId == stock
  {
    factors, breaks := map[], map[];
    var previous: Option<(string, int)> := None;
    NothingScanned(rows);
    hide IsTable, Explains, LinkOf, WithFactor, WithBreak;
    for i := 0 to |rows|
      invariant IsTable(rows[..i]) && Explains(rows[..i], factors, breaks)
      invariant previous == if i == 0 then None else Some((rows[i - 1].stockId, rows[i - 1].close))
      invariant forall stock | stock in factors || stock in breaks :: exists k :: 0 <= k < i && rows[k].stockId == stock
    {
      var row := rows[i];
      ghost var before := (factors, breaks);
      if previous.Some? && previous.value.0 == row.stockId {
        PositiveClose(rows, i - 1);
        var link := LinkOf(previous.value.1, row);
        factors := WithFactor(factors, row, link);
        breaks := WithBreak(breaks, row, link);
      }
      previous := Some((row.stockId, row.close));
      WhoIsLinked(row, before.0, before.1, factors, breaks);
      LinkFound(rows, i, before.0, before.1, factors, breaks);
    }
    assert rows[..|rows|] == rows;
  }

  lemma NothingScanned(rows: seq<Row>)
    ensures IsTable(rows[..0]) && Explains(rows[..0], map[], map[])
  {
    assert rows[..0] == [];
  }

  // A row gives factors and breaks to its own stock only.
  lemma WhoIsLinked(row: Row, factors: map<string, seq<Factor>>, breaks: map<string, int>,
                    factors': map<string, seq<Factor>>, breaks': map<string, int>)
    requires (factors' == factors && breaks' == breaks)
             || exists link :: factors' == WithFactor(factors, row, link) && breaks' == WithBreak(breaks, row, link)
    ensures factors'.Keys <= factors.Keys + {row.stockId} && breaks'.Keys <= breaks.Keys + {row.stockId}
  {
  }

  // What the row at i does to the maps, and so to each stock.
  ghost predicate Links(rows: seq<Row>, i: nat, factors: map<string, seq<Factor>>, breaks: map<string, int>,
                        factors': map<string, seq<Factor>>, breaks': map<string, int>)
    requires IsTable(rows) && i < |rows|
  {
    if i > 0 && rows[i - 1].stockId == rows[i].stockId then
      var link := LinkOf(rows[i - 1].close, rows[i]);
      factors' == WithFactor(factors, rows[i], link) && breaks' == WithBreak(breaks, rows[i], link)
    else factors' == factors && breaks' == breaks
  }

  lemma LinkForSeries(series: seq<Row>, row: Row, factors: map<string, seq<Factor>>, breaks: map<string, int>,
                      factors': map<string, seq<Factor>>, breaks': map<string, int>)
    requires IsSeries(series) && IsSeries(series + [row])
    requires FactorsFor(factors, row.stockId) == FactorsOf(series) && BreakFor(breaks, row.stockId) == LatestBreak(series)
    requires if series == [] then factors' == factors && breaks' == breaks
             else var link := LinkOf(series[|series| - 1].close, row);
                  factors' == WithFactor(factors, row, link) && breaks' == WithBreak(breaks, row, link)
    ensures FactorsFor(factors', row.stockId) == FactorsOf(series + [row])
    ensures BreakFor(breaks', row.stockId) == LatestBreak(series + [row])
  {
    hide FactorsOf, LatestBreak, LinkOf;
    SeriesGrows(series, row);
    assert series == [] ==> FactorsFor(factors, row.stockId) == [] && BreakFor(breaks, row.stockId) == None by {
      EmptySeries();
    }
  }

  lemma EmptySeries()
    ensures FactorsOf([]) == [] && LatestBreak([]) == None
  {
  }

  lemma OtherStocks(row: Row, link: Link, factors: map<string, seq<Factor>>, breaks: map<string, int>, stock: string)
    requires stock != row.stockId
    ensures FactorsFor(WithFactor(factors, row, link), stock) == FactorsFor(factors, stock)
    ensures BreakFor(WithBreak(breaks, row, link), stock) == BreakFor(breaks, stock)
  {
  }

  lemma LinkFoundFor(rows: seq<Row>, i: nat, factors: map<string, seq<Factor>>, breaks: map<string, int>,
                     factors': map<string, seq<Factor>>, breaks': map<string, int>, stock: string)
    requires IsTable(rows) && i < |rows| && IsTable(rows[..i]) && ExplainsStock(rows[..i], factors, breaks, stock)
    requires Links(rows, i, factors, breaks, factors', breaks')
    ensures IsTable(rows[..i + 1]) && ExplainsStock(rows[..i + 1], factors', breaks', stock)
  {
    hide IsTable, IsSeries, SeriesOf, FactorsOf, LatestBreak, WithFactor, WithBreak, FactorsFor, BreakFor;
    PrefixIsTable(rows, i + 1);
    OneMoreRow(rows, i, stock);
    PreviousRow(rows, i);
    SeriesIsSeries(rows[..i], stock);
    SeriesIsSeries(rows[..i + 1], stock);
    if stock == rows[i].stockId {
      LinkForSeries(SeriesOf(rows[..i], stock), rows[i], factors, breaks, factors', breaks');
    } else if i > 0 && rows[i - 1].stockId == rows[i].stockId {
      PositiveClose(rows, i - 1);
      OtherStocks(rows[i], LinkOf(rows[i - 1].close, rows[i]), factors, breaks, stock);
    }
  }

  lemma PositiveClose(rows: seq<Row>, i: nat)
    requires IsTable(rows) && i < |rows|
    ensures rows[i].close > 0
  {
  }

  lemma LinkFound(rows: seq<Row>, i: nat, factors: map<string, seq<Factor>>, breaks: map<string, int>,
                  factors': map<string, seq<Factor>>, breaks': map<string, int>)
    requires IsTable(rows) && i < |rows| && IsTable(rows[..i]) && Explains(rows[..i], factors, breaks)
    requires Links(rows, i, factors, breaks, factors', breaks')
    ensures IsTable(rows[..i + 1]) && Explains(rows[..i + 1], factors', breaks')
  {
    hide IsTable, Links, ExplainsStock;
    PrefixIsTable(rows, i + 1);
    var rows' := rows[..i + 1];
    forall stock ensures ExplainsStock(rows', factors', breaks', stock) {
      assert ExplainsStock(rows[..i], factors, breaks, stock);
      LinkFoundFor(rows, i, factors, breaks, factors', breaks', stock);
    }
  }

  // ----- The adjusted table -----

  type Prices = map<(string, int), AdjustedPrices>

  ghost function Adjusted(rows: seq<Row>, row: Row, adjust: Adjust): AdjustedPrices
    requires IsTable(rows)
  {
    var series := SeriesIn(rows, row.stockId);
    NaivePrices(row, FactorsOf(series), LatestBreak(series), adjust)
  }

  // The rows whose stock is done and whose prices are withheld.
  ghost function Withheld(rows: seq<Row>, breaks: map<string, int>, done: set<string>): nat {
    if rows == [] then 0
    else Withheld(rows[..|rows| - 1], breaks, done)
         + if rows[|rows| - 1].stockId in done && BeforeBreak(rows[|rows| - 1], BreakFor(breaks, rows[|rows| - 1].stockId)) then 1 else 0
  }

  lemma {:induction false} WithheldGrows(rows: seq<Row>, breaks: map<string, int>, done: set<string>, stock: string)
    requires stock !in done
    ensures Withheld(rows, breaks, done + {stock})
         == Withheld(rows, breaks, done) + CountBefore(SeriesOf(rows, stock), BreakFor(breaks, stock))
  {
    hide BeforeBreak, BreakFor;
    if rows == [] {
      assert SeriesOf(rows, stock) == [];
    } else {
      var front, last := rows[..|rows| - 1], rows[|rows| - 1];
      WithheldGrows(front, breaks, done, stock);
      CountAppend(SeriesOf(front, stock), last, BreakFor(breaks, stock));
      hide CountBefore;
      assert SeriesOf(rows, stock) == if last.stockId == stock then SeriesOf(front, stock) + [last] else SeriesOf(front, stock);
      hide SeriesOf;
    }
  }

  lemma CountAppend(s: seq<Row>, row: Row, latestBreak: Option<int>)
    ensures CountBefore(s + [row], latestBreak) == CountBefore(s, latestBreak) + if BeforeBreak(row, latestBreak) then 1 else 0
  {
    assert (s + [row])[..|s|] == s;
  }

  lemma {:induction false} NothingWithheld(rows: seq<Row>, breaks: map<string, int>)
    ensures Withheld(rows, breaks, {}) == 0
  {
    if rows != [] { NothingWithheld(rows[..|rows| - 1], breaks); }
  }

  lemma {:induction false} WithheldByBreaks(rows: seq<Row>, breaks: map<string, int>, done: set<string>, all: set<string>)
    requires done <= all && breaks.Keys <= done
    ensures Withheld(rows, breaks, done) == Withheld(rows, breaks, all)
  {
    if rows != [] { WithheldByBreaks(rows[..|rows| - 1], breaks, done, all); }
  }

  // The stocks done have their final prices, the others still their raw ones.
  ghost predicate PricedSoFar(rows: seq<Row>, done: set<string>, prices: Prices, adjust: Adjust)
    requires IsTable(rows)
  {
    forall i | 0 <= i < |rows| ::
      && (rows[i].stockId, rows[i].tradeDate) in prices
      && prices[(rows[i].stockId, rows[i].tradeDate)]
         == if rows[i].stockId in done then Adjusted(rows, rows[i], adjust) else RawPrices(rows[i])
  }

  // The UPDATE of one stock's rows.
  function Overwritten(prices: Prices, stock: string, updates: map<int, AdjustedPrices>): Prices {
    map k | k in prices :: if k.0 == stock && k.1 in updates then updates[k.1] else prices[k]
  }

  method CopyRawPrices(rows: seq<Row>) returns (prices: Prices)
    requires IsTable(rows)
    ensures forall i | 0 <= i < |rows| ::
              (rows[i].stockId, rows[i].tradeDate) in prices && prices[(rows[i].stockId, rows[i].tradeDate)] == RawPrices(rows[i])
  {
    prices := map[];
    for i := 0 to |rows|
      invariant forall k | 0 <= k < i ::
          (rows[k].stockId, rows[k].tradeDate) in prices && prices[(rows[k].stockId, rows[k].tradeDate)] == RawPrices(rows[k])
    {
      prices := prices[(rows[i].stockId, rows[i].tradeDate) := RawPrices(rows[i])];
    }
  }

  lemma OneMoreStock(rows: seq<Row>, done: set<string>, prices: Prices, adjust: Adjust, stock: string,
                     updates: map<int, AdjustedPrices>)
    requires IsTable(rows) && PricedSoFar(rows, done, prices, adjust) && stock !in done
    requires forall r | r in SeriesOf(rows, stock) ::
               (if r.tradeDate in updates then updates[r.tradeDate] else RawPrices(r)) == Adjusted(rows, r, adjust)
    ensures PricedSoFar(rows, done + {stock}, Overwritten(prices, stock, updates), adjust)
  {
    hide IsTable, Adjusted, RawPrices;
    SeriesMembers(rows, stock);
  }

  lemma UntouchedStock(rows: seq<Row>, factors: map<string, seq<Factor>>, breaks: map<string, int>, row: Row, adjust: Adjust)
    requires IsTable(rows) && Explains(rows, factors, breaks) && SoundRounding(adjust)
    requires row.stockId !in factors && row.stockId !in breaks
    ensures Adjusted(rows, row, adjust) == RawPrices(row)
  {
    assert ExplainsStock(rows, factors, breaks, row.stockId);
    assert ProductAfter([], row.tradeDate) == 1.0;
  }

  /** The whole build: every row gets the naive adjusted prices of its own stock, and exactly the withheld rows are counted. */
  method BuildAdjustedPrices(rows: seq<Row>, adjust: Adjust) returns (prices: Prices, rowsWithoutAdjusted: int)
    requires IsTable(rows) && SoundRounding(adjust)
    ensures forall i | 0 <= i < |rows| ::
              (rows[i].stockId, rows[i].tradeDate) in prices
              && prices[(rows[i].stockId, rows[i].tradeDate)] == Adjusted(rows, rows[i], adjust)
    ensures exists factors, breaks :: Explains(rows, factors, breaks)
              && rowsWithoutAdjusted == Withheld(rows, breaks, set i | 0 <= i < |rows| :: rows[i].stockId)
  {
    var factors, breaks := ScanLinks(rows);
    prices := CopyRawPrices(rows);
    rowsWithoutAdjusted := 0;
    var affected := factors.Keys + breaks.Keys;
    ghost var done: set<string> := {};
    NothingWithheld(rows, breaks);
    RawIsPriced(rows, prices, adjust);
    hide PricedSoFar, IsTable, Explains, SoundRounding, Overwritten, Adjusted, RawPrices, SeriesOf, Withheld;
    while affected != {}
      invariant affected !! done && affected + done == factors.Keys + breaks.Keys
      invariant PricedSoFar(rows, done, prices, adjust)
      invariant rowsWithoutAdjusted == Withheld(rows, breaks, done)
      decreases affected
    {
      var stock :| stock in affected;
      var withheld;
      prices, withheld := RewriteStock(rows, factors, breaks, stock, adjust, prices, done);
      rowsWithoutAdjusted := rowsWithoutAdjusted + withheld;
      affected, done := affected - {stock}, done + {stock};
    }
    AllPriced(rows, factors, breaks, done, prices, adjust);
    AllWithheld(rows, factors, breaks, done);
  }

  lemma AllWithheld(rows: seq<Row>, factors: map<string, seq<Factor>>, breaks: map<string, int>, done: set<string>)
    requires done == factors.Keys + breaks.Keys
    requires forall stock | stock in factors || stock in breaks :: exists i :: 0 <= i < |rows| && rows[i].stockId == stock
    ensures Withheld(rows, breaks, done) == Withheld(rows, breaks, set i | 0 <= i < |rows| :: rows[i].stockId)
  {
    WithheldByBreaks(rows, breaks, done, set i | 0 <= i < |rows| :: rows[i].stockId);
  }

  lemma RawIsPriced(rows: seq<Row>, prices: Prices, adjust: Adjust)
    requires IsTable(rows)
    requires forall i | 0 <= i < |rows| ::
               (rows[i].stockId, rows[i].tradeDate) in prices && prices[(rows[i].stockId, rows[i].tradeDate)] == RawPrices(rows[i])
    ensures PricedSoFar(rows, {}, prices, adjust)
  {
    hide IsTable, RawPrices, Adjusted;
  }

  lemma AllPriced(rows: seq<Row>, factors: map<string, seq<Factor>>, breaks: map<string, int>, done: set<string>, prices: Prices,
                  adjust: Adjust)
    requires IsTable(rows) && Explains(rows, factors, breaks) && SoundRounding(adjust)
    requires done == factors.Keys + breaks.Keys && PricedSoFar(rows, done, prices, adjust)
    ensures forall i | 0 <= i < |rows| ::
              (rows[i].stockId, rows[i].tradeDate) in prices
              && prices[(rows[i].stockId, rows[i].tradeDate)] == Adjusted(rows, rows[i], adjust)
  {
    hide IsTable, Explains, SoundRounding, Adjusted, RawPrices;
    forall i | 0 <= i < |rows| && rows[i].stockId !in done ensures Adjusted(rows, rows[i], adjust) == RawPrices(rows[i]) {
      UntouchedStock(rows, factors, breaks, rows[i], adjust);
    }
  }

  // One stock's turn: its rows are overwritten and its withheld rows counted.
  method RewriteStock(rows: seq<Row>, factors: map<string, seq<Factor>>, breaks: map<string, int>, stock: string, adjust: Adjust,
                      before: Prices, ghost done: set<string>) returns (prices: Prices, withheld: int)
    requires IsTable(rows) && Explains(rows, factors, breaks) && SoundRounding(adjust)
    requires stock !in done && PricedSoFar(rows, done, before, adjust)
    ensures PricedSoFar(rows, done + {stock}, prices, adjust)
    ensures Withheld(rows, breaks, done + {stock}) == Withheld(rows, breaks, done) + withheld
  {
    hide PricedSoFar, IsTable, Explains, SoundRounding, Overwritten, Adjusted, RawPrices, SeriesOf, Withheld, CountBefore;
    var updates, count := UpdateStock(rows, factors, breaks, stock, adjust);
    OneMoreStock(rows, done, before, adjust, stock, updates);
    WithheldGrows(rows, breaks, done, stock);
    return Overwritten(before, stock, updates), count;
  }

  method UpdateStock(rows: seq<Row>, factors: map<string, seq<Factor>>, breaks: map<string, int>, stock: string, adjust: Adjust)
    returns (updates: map<int, AdjustedPrices>, withheld: int)
    requires IsTable(rows) && Explains(rows, factors, breaks) && SoundRounding(adjust)
    ensures forall r | r in SeriesOf(rows, stock) ::
              (if r.tradeDate in updates then updates[r.tradeDate] else RawPrices(r)) == Adjusted(rows, r, adjust)
    ensures withheld == CountBefore(SeriesOf(rows, stock), BreakFor(breaks, stock))
  {
    SeriesIsSeries(rows, stock);
    SeriesMembers(rows, stock);
    var series := SeriesOf(rows, stock);
    assert ExplainsStock(rows, factors, breaks, stock);
    FactorDates(series);
    updates, withheld := AdjustStock(series, FactorsFor(factors, stock), BreakFor(breaks, stock), adjust);
  }
}
