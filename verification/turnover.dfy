/** packages/calculations/turnover.py and the membership selection of packages/domain/models.py:102-135. */
module Turnover {
  import opened Results
  import opened Sorting
  import opened Medians

  datatype Snapshot = Snapshot(themeId: string, version: string, effectiveFrom: int, knownAt: int, members: seq<string>)

  datatype Observation = Observation(
    stockId: string, marketDate: int, observedAt: int, bucket: int, value: Option<real>,
    comparable: bool, isFresh: bool, halted: bool, actionUnresolved: bool)

  datatype Policy = Policy(lookback: int, minimumObservations: int)

  datatype StockMetric = StockMetric(stockId: string, current: real, baseline: real, multiple: real, count: int)

  datatype BaselineStatus = FullBaseline | ProvisionalBaseline | InsufficientBaseline

  datatype Outcome = Outcome(membership: Option<string>, multiple: Option<real>, total: int, status: BaselineStatus, metrics: seq<StockMetric>)

  datatype TurnoverError = DaysNotAscending | EvaluationDateMissing | DuplicateObservation | AmbiguousMembership

  // ----- Choosing the membership that was effective and known -----

  predicate Applies(s: Snapshot, theme: string, date: int, decisionAt: int) {
    s.themeId == theme && s.effectiveFrom <= date && s.knownAt <= decisionAt
  }

  function Applicable(snapshots: seq<Snapshot>, theme: string, date: int, decisionAt: int): seq<Snapshot> {
    if snapshots == [] then [] else
    (if Applies(snapshots[0], theme, date, decisionAt) then [snapshots[0]] else [])
    + Applicable(snapshots[1..], theme, date, decisionAt)
  }

  predicate SnapshotLe(a: Snapshot, b: Snapshot) {
    a.effectiveFrom < b.effectiveFrom
    || (a.effectiveFrom == b.effectiveFrom
        && (a.knownAt < b.knownAt || (a.knownAt == b.knownAt && StrLe(a.version, b.version))))
  }

  predicate SameMoment(a: Snapshot, b: Snapshot) { a.effectiveFrom == b.effectiveFrom && a.knownAt == b.knownAt }

  function CountMoment(snapshots: seq<Snapshot>, s: Snapshot): nat {
    if snapshots == [] then 0 else (if SameMoment(snapshots[0], s) then 1 else 0) + CountMoment(snapshots[1..], s)
  }

  function SelectMembership(snapshots: seq<Snapshot>, theme: string, date: int, decisionAt: int): Result<Option<Snapshot>, TurnoverError> {
    var eligible := Sort(Applicable(snapshots, theme, date, decisionAt), SnapshotLe);
    if eligible == [] then Success(None) else
    var selected := eligible[|eligible| - 1];
    if CountMoment(eligible, selected) > 1 then Failure(AmbiguousMembership) else Success(Some(selected))
  }

  lemma {:induction false} ApplicableMembers(snapshots: seq<Snapshot>, theme: string, date: int, decisionAt: int)
    ensures forall s :: s in Applicable(snapshots, theme, date, decisionAt) <==> s in snapshots && Applies(s, theme, date, decisionAt)
  {
    if snapshots != [] {
      ApplicableMembers(snapshots[1..], theme, date, decisionAt);
      assert snapshots == [snapshots[0]] + snapshots[1..];
    }
  }

  lemma SnapshotLeIsTotal()
    ensures TotalPreorder(SnapshotLe)
  {
    forall a, b ensures StrLe(a, b) || StrLe(b, a) { StrLeTotal(a, b); }
    forall a: Snapshot, b: Snapshot, c: Snapshot | SnapshotLe(a, b) && SnapshotLe(b, c) ensures SnapshotLe(a, c) {
      if StrLe(a.version, b.version) && StrLe(b.version, c.version) { StrLeTransitive(a.version, b.version, c.version); }
    }
  }

  /** The selected membership was effective and known, and nothing that also was came later. */
  lemma SelectedIsLatestKnown(snapshots: seq<Snapshot>, theme: string, date: int, decisionAt: int)
    requires SelectMembership(snapshots, theme, date, decisionAt).Success?
    ensures match SelectMembership(snapshots, theme, date, decisionAt).value
            case None => forall s | s in snapshots :: !Applies(s, theme, date, decisionAt)
            case Some(selected) =>
              && selected in snapshots && Applies(selected, theme, date, decisionAt)
              && forall s | s in snapshots && Applies(s, theme, date, decisionAt) && s != selected ::
                   (s.effectiveFrom, s.knownAt) != (selected.effectiveFrom, selected.knownAt)
                   && (s.effectiveFrom < selected.effectiveFrom
                       || (s.effectiveFrom == selected.effectiveFrom && s.knownAt < selected.knownAt))
  {
    ApplicableMembers(snapshots, theme, date, decisionAt);
    SnapshotLeIsTotal();
    SortCorrect(Applicable(snapshots, theme, date, decisionAt), SnapshotLe);
    var eligible := Sort(Applicable(snapshots, theme, date, decisionAt), SnapshotLe);
    hide Applicable, Sort, Applies, SnapshotLe, CountMoment;
    if eligible != [] {
      LastIsLatest(eligible);
    } else {
      forall s | s in snapshots ensures !Applies(s, theme, date, decisionAt) {
        assert s !in eligible;
      }
    }
  }

  // The last of the sorted candidates, when no other shares its moment, comes after all of them.
  lemma LastIsLatest(eligible: seq<Snapshot>)
    requires eligible != [] && SortedBy(eligible, SnapshotLe) && CountMoment(eligible, eligible[|eligible| - 1]) <= 1
    ensures var selected := eligible[|eligible| - 1];
            selected in eligible && forall s | s in eligible && s != selected ::
              (s.effectiveFrom, s.knownAt) != (selected.effectiveFrom, selected.knownAt)
              && (s.effectiveFrom < selected.effectiveFrom
                  || (s.effectiveFrom == selected.effectiveFrom && s.knownAt < selected.knownAt))
  {
    hide CountMoment, SnapshotLe, StrLe;
    var n := |eligible| - 1;
    forall i | 0 <= i < n ensures Earlier(eligible[i], eligible[n]) {
      assert SnapshotLe(eligible[i], eligible[n]);
      if SameMoment(eligible[i], eligible[n]) { TwoAtOneMoment(eligible, i, n, eligible[n]); }
      EarlierMoment(eligible[i], eligible[n]);
    }
    hide SortedBy;
    forall s | s in eligible && s != eligible[n] ensures Earlier(s, eligible[n]) {
      var i :| 0 <= i < |eligible| && eligible[i] == s;
    }
  }

  predicate Earlier(a: Snapshot, b: Snapshot) {
    a.effectiveFrom < b.effectiveFrom || (a.effectiveFrom == b.effectiveFrom && a.knownAt < b.knownAt)
  }

  lemma EarlierMoment(a: Snapshot, b: Snapshot)
    requires SnapshotLe(a, b) && !SameMoment(a, b)
    ensures Earlier(a, b)
  {
    hide StrLe;
  }

  lemma {:induction false} TwoAtOneMoment(s: seq<Snapshot>, i: nat, j: nat, x: Snapshot)
    requires i < j < |s| && SameMoment(s[i], x) && SameMoment(s[j], x)
    ensures CountMoment(s, x) > 1
  {
    if i == 0 {
      OneAtMoment(s[1..], j - 1, x);
    } else {
      TwoAtOneMoment(s[1..], i - 1, j - 1, x);
    }
  }

  lemma {:induction false} OneAtMoment(s: seq<Snapshot>, i: nat, x: Snapshot)
    requires i < |s| && SameMoment(s[i], x)
    ensures CountMoment(s, x) >= 1
  {
    if i > 0 { OneAtMoment(s[1..], i - 1, x); }
  }

  // Two histories that differ only in snapshots that do not apply.
  lemma {:induction false} ApplicableIgnores(a: seq<Snapshot>, extra: Snapshot, b: seq<Snapshot>, theme: string, date: int, decisionAt: int)
    requires !Applies(extra, theme, date, decisionAt)
    ensures Applicable(a + [extra] + b, theme, date, decisionAt) == Applicable(a + b, theme, date, decisionAt)
  {
    if a == [] {
      assert a + [extra] + b == [extra] + b && a + b == b;
      assert ([extra] + b)[1..] == b;
    } else {
      ApplicableIgnores(a[1..], extra, b, theme, date, decisionAt);
      assert (a + [extra] + b)[1..] == a[1..] + [extra] + b && (a + b)[1..] == a[1..] + b;
    }
  }

  // ----- The days and observations that may enter a baseline -----

  type Index = map<(string, int), Observation>

  predicate Ascending(days: seq<int>) { forall i, j | 0 <= i < j < |days| :: days[i] < days[j] }

  function PositionOf(days: seq<int>, day: int): (p: nat)
    requires day in days
    ensures p < |days| && days[p] == day
  {
    if days[0] == day then 0 else 1 + PositionOf(days[1..], day)
  }

  function HistoryDays(days: seq<int>, date: int, lookback: nat): Result<seq<int>, TurnoverError> {
    if !Ascending(days) then Failure(DaysNotAscending)
    else if date !in days then Failure(EvaluationDateMissing) else
    var p := PositionOf(days, date);
    Success(days[if p < lookback then 0 else p - lookback..p])
  }

  /** The baseline looks at an unbroken run of at most lookback trading days that ends just before the evaluated one. */
  lemma HistoryIsTheRunBefore(days: seq<int>, date: int, lookback: nat)
    requires HistoryDays(days, date, lookback).Success?
    ensures var history := HistoryDays(days, date, lookback).value;
            && |history| <= lookback && Ascending(history)
            && (forall d | d in history :: d in days && d < date)
            && (forall d | d in days && d < date && d !in history :: |history| == lookback && forall h | h in history :: d < h)
  {
    var p := PositionOf(days, date);
    var start := if p < lookback then 0 else p - lookback;
    var history := days[start..p];
    assert forall i | 0 <= i < |history| :: history[i] == days[start + i];
    forall i | start <= i < p ensures days[i] in history { assert history[i - start] == days[i]; }
    forall d | d in days && d < date && d !in history ensures |history| == lookback && forall h | h in history :: d < h {
      var i :| 0 <= i < |days| && days[i] == d;
      assert i < start;
    }
  }

  function KeyOf(o: Observation): (string, int) { (o.stockId, o.marketDate) }

  // The observations of one bucket, each under its own stock and day.
  ghost predicate IsIndex(index: Index, observations: seq<Observation>, bucket: int) {
    && (forall o | o in observations && o.bucket == bucket :: KeyOf(o) in index && index[KeyOf(o)] == o)
    && (forall k | k in index :: index[k] in observations && index[k].bucket == bucket && KeyOf(index[k]) == k)
  }

  predicate Repeats(observations: seq<Observation>, bucket: int) {
    exists i, j | 0 <= i < j < |observations| ::
      observations[i].bucket == bucket && observations[j].bucket == bucket && KeyOf(observations[i]) == KeyOf(observations[j])
  }

  function IndexOf(observations: seq<Observation>, bucket: int): Result<Index, TurnoverError> {
    if observations == [] then Success(map[]) else
    var o := observations[|observations| - 1];
    var before :- IndexOf(observations[..|observations| - 1], bucket);
    if o.bucket != bucket then Success(before)
    else if KeyOf(o) in before then Failure(DuplicateObservation)
    else Success(before[KeyOf(o) := o])
  }

  /** Indexing fails exactly when two observations of the bucket share a stock and day, and otherwise loses none. */
  lemma {:induction false} IndexIsComplete(observations: seq<Observation>, bucket: int)
    ensures IndexOf(observations, bucket).Failure? <==> Repeats(observations, bucket)
    ensures IndexOf(observations, bucket).Failure? ==> IndexOf(observations, bucket).error == DuplicateObservation
    ensures IndexOf(observations, bucket).Success? ==> IsIndex(IndexOf(observations, bucket).value, observations, bucket)
  {
    if observations != [] {
      var n := |observations| - 1;
      var front, o := observations[..n], observations[n];
      IndexIsComplete(front, bucket);
      assert observations == front + [o];
      hide Repeats, IsIndex;
      OldRepeat(front, o, bucket);
      if !Repeats(front, bucket) {
        var before := IndexOf(front, bucket).value;
        if o.bucket == bucket && KeyOf(o) in before {
          NewRepeat(front, o, before, bucket);
        } else {
          NoNewRepeat(front, o, before, bucket);
          IndexGrows(front, o, before, bucket);
        }
      }
    }
  }

  lemma OldRepeat(front: seq<Observation>, o: Observation, bucket: int)
    ensures Repeats(front, bucket) ==> Repeats(front + [o], bucket)
  {
    if Repeats(front, bucket) {
      var i, j :| 0 <= i < j < |front| && front[i].bucket == bucket && front[j].bucket == bucket && KeyOf(front[i]) == KeyOf(front[j]);
      var all := front + [o];
      assert all[i] == front[i] && all[j] == front[j];
    }
  }

  lemma NewRepeat(front: seq<Observation>, o: Observation, before: Index, bucket: int)
    requires IsIndex(before, front, bucket) && o.bucket == bucket && KeyOf(o) in before
    ensures Repeats(front + [o], bucket)
  {
    var i :| 0 <= i < |front| && front[i] == before[KeyOf(o)];
    var all := front + [o];
    assert all[i] == front[i] && all[|front|] == o;
  }

  lemma IndexGrows(front: seq<Observation>, o: Observation, before: Index, bucket: int)
    requires IsIndex(before, front, bucket)
    requires o.bucket != bucket || KeyOf(o) !in before
    ensures IsIndex(if o.bucket == bucket then before[KeyOf(o) := o] else before, front + [o], bucket)
  {
    var after, all := if o.bucket == bucket then before[KeyOf(o) := o] else before, front + [o];
    forall x | x in all && x.bucket == bucket ensures KeyOf(x) in after && after[KeyOf(x)] == x {
      if x in front { assert before[KeyOf(x)] == x; }
    }
    forall k | k in after ensures after[k] in all && after[k].bucket == bucket && KeyOf(after[k]) == k {
      if k in before { assert after[k] == before[k] || k == KeyOf(o); }
    }
  }

  lemma NoNewRepeat(front: seq<Observation>, o: Observation, before: Index, bucket: int)
    requires !Repeats(front, bucket) && IsIndex(before, front, bucket)
    requires o.bucket != bucket || KeyOf(o) !in before
    ensures !Repeats(front + [o], bucket)
  {
    var all := front + [o];
    forall i, j | 0 <= i < j < |all| && all[i].bucket == bucket && all[j].bucket == bucket
      ensures KeyOf(all[i]) != KeyOf(all[j])
    {
      assert all[i] == front[i] && front[i] in front;
      if j < |front| { assert all[j] == front[j]; }
    }
  }

  method IndexObservations(observations: seq<Observation>, bucket: int) returns (r: Result<Index, TurnoverError>)
    ensures r == IndexOf(observations, bucket)
  {
    var index: Index := map[];
    for i := 0 to |observations|
      invariant IndexOf(observations[..i], bucket) == Success(index)
    {
      var o := observations[i];
      assert observations[..i + 1][..i] == observations[..i];
      if o.bucket != bucket { continue; }
      if KeyOf(o) in index {
        assert IndexOf(observations[..i + 1], bucket) == Failure(DuplicateObservation);
        FailureStays(observations, bucket, i + 1);
        return Failure(DuplicateObservation);
      }
      index := index[KeyOf(o) := o];
    }
    assert observations[..|observations|] == observations;
    return Success(index);
  }

  lemma {:induction false} FailureStays(observations: seq<Observation>, bucket: int, i: nat)
    requires i <= |observations| && IndexOf(observations[..i], bucket).Failure?
    ensures IndexOf(observations, bucket) == Failure(DuplicateObservation)
    decreases |observations| - i
  {
    if i == |observations| {
      assert observations[..i] == observations;
      IndexIsComplete(observations, bucket);
    } else {
      assert observations[..i + 1][..i] == observations[..i];
      FailureStays(observations, bucket, i + 1);
    }
  }

  // ----- One stock's multiple -----

  datatype Query = Query(theme: string, date: int, at: int, bucket: int, policy: Policy)

  ghost predicate ValidQuery(q: Query) { 1 <= q.policy.minimumObservations <= q.policy.lookback }

  predicate Usable(o: Observation, decisionAt: int) {
    o.observedAt <= decisionAt && o.comparable && o.isFresh && !o.halted && !o.actionUnresolved && o.value.Some?
  }

  // The day's value, taken only when the membership known at that very observation held the stock.
  function HistoryValue(index: Index, snapshots: seq<Snapshot>, q: Query, id: string, day: int): Result<Option<real>, TurnoverError> {
    if (id, day) !in index then Success(None) else
    var o := index[(id, day)];
    var membership :- SelectMembership(snapshots, q.theme, day, o.observedAt);
    if membership.None? || id !in membership.value.members || !Usable(o, o.observedAt) then Success(None)
    else Success(o.value)
  }

  function HistoryValues(index: Index, snapshots: seq<Snapshot>, q: Query, id: string, days: seq<int>): Result<seq<real>, TurnoverError> {
    if days == [] then Success([]) else
    var before :- HistoryValues(index, snapshots, q, id, days[..|days| - 1]);
    var value :- HistoryValue(index, snapshots, q, id, days[|days| - 1]);
    Success(if value.Some? then before + [value.value] else before)
  }

  function MetricFrom(id: string, current: real, values: seq<real>, minimum: int): Option<StockMetric> {
    if |values| < minimum then None else
    var baseline := Median(values);
    if baseline.None? || baseline.value <= 0.0 then None
    else Some(StockMetric(id, current, baseline.value, current / baseline.value, |values|))
  }

  function MetricOf(index: Index, snapshots: seq<Snapshot>, q: Query, days: seq<int>, id: string): Result<Option<StockMetric>, TurnoverError> {
    if (id, q.date) !in index || !Usable(index[(id, q.date)], q.at) then Success(None) else
    var values :- HistoryValues(index, snapshots, q, id, days);
    Success(MetricFrom(id, index[(id, q.date)].value.value, values, q.policy.minimumObservations))
  }

  function MetricsOf(index: Index, snapshots: seq<Snapshot>, q: Query, days: seq<int>, ids: seq<string>): Result<seq<StockMetric>, TurnoverError> {
    if ids == [] then Success([]) else
    var before :- MetricsOf(index, snapshots, q, days, ids[..|ids| - 1]);
    var metric :- MetricOf(index, snapshots, q, days, ids[|ids| - 1]);
    Success(if metric.Some? then before + [metric.value] else before)
  }

  lemma {:induction false} HistoryValuesFailureStays(index: Index, snapshots: seq<Snapshot>, q: Query, id: string, days: seq<int>, i: nat)
    requires i <= |days| && HistoryValues(index, snapshots, q, id, days[..i]).Failure?
    ensures HistoryValues(index, snapshots, q, id, days) == HistoryValues(index, snapshots, q, id, days[..i])
    decreases |days| - i
  {
    if i == |days| {
      assert days[..i] == days;
    } else {
      assert days[..i + 1][..i] == days[..i];
      HistoryValuesFailureStays(index, snapshots, q, id, days, i + 1);
    }
  }

  lemma {:induction false} MetricsFailureStays(index: Index, snapshots: seq<Snapshot>, q: Query, days: seq<int>, ids: seq<string>, i: nat)
    requires i <= |ids| && MetricsOf(index, snapshots, q, days, ids[..i]).Failure?
    ensures MetricsOf(index, snapshots, q, days, ids) == MetricsOf(index, snapshots, q, days, ids[..i])
    decreases |ids| - i
  {
    if i == |ids| {
      assert ids[..i] == ids;
    } else {
      assert ids[..i + 1][..i] == ids[..i];
      MetricsFailureStays(index, snapshots, q, days, ids, i + 1);
    }
  }

  // ----- The theme's multiple -----

  predicate MetricLe(a: StockMetric, b: StockMetric) { StrLe(a.stockId, b.stockId) }

  function CurrentTotal(metrics: seq<StockMetric>): real {
    if metrics == [] then 0.0 else CurrentTotal(metrics[..|metrics| - 1]) + metrics[|metrics| - 1].current
  }

  function BaselineTotal(metrics: seq<StockMetric>): real {
    if metrics == [] then 0.0 else BaselineTotal(metrics[..|metrics| - 1]) + metrics[|metrics| - 1].baseline
  }

  function Summarise(metrics: seq<StockMetric>, membership: Snapshot, policy: Policy): Outcome {
    var version, total := Some(membership.version), |membership.members|;
    if metrics == [] then Outcome(version, None, total, InsufficientBaseline, []) else
    if BaselineTotal(metrics) <= 0.0 then Outcome(version, None, total, InsufficientBaseline, metrics) else
    var full := |metrics| == total && forall m | m in metrics :: m.count == policy.lookback;
    Outcome(version, Some(CurrentTotal(metrics) / BaselineTotal(metrics)), total,
            if full then FullBaseline else ProvisionalBaseline, metrics)
  }

  function ThemeTurnover(q: Query, days: seq<int>, snapshots: seq<Snapshot>, observations: seq<Observation>): Result<Outcome, TurnoverError>
    requires q.policy.lookback >= 0
  {
    var history :- HistoryDays(days, q.date, q.policy.lookback);
    var index :- IndexOf(observations, q.bucket);
    var membership :- SelectMembership(snapshots, q.theme, q.date, q.at);
    if membership.None? then Success(Outcome(None, None, 0, InsufficientBaseline, [])) else
    var metrics :- MetricsOf(index, snapshots, q, history, Sort(membership.value.members, StrLe));
    Success(Summarise(Sort(metrics, MetricLe), membership.value, q.policy))
  }

  method StockValues(index: Index, snapshots: seq<Snapshot>, q: Query, id: string, days: seq<int>) returns (r: Result<seq<real>, TurnoverError>)
    ensures r == HistoryValues(index, snapshots, q, id, days)
  {
    hide SelectMembership;
    var values: seq<real> := [];
    for i := 0 to |days|
      invariant HistoryValues(index, snapshots, q, id, days[..i]) == Success(values)
    {
      assert days[..i + 1][..i] == days[..i];
      if (id, days[i]) !in index { continue; }
      var o := index[(id, days[i])];
      var membership := SelectMembership(snapshots, q.theme, days[i], o.observedAt);
      if membership.Failure? {
        HistoryValuesFailureStays(index, snapshots, q, id, days, i + 1);
        return Failure(membership.error);
      }
      if membership.value.None? || id !in membership.value.value.members { continue; }
      if !Usable(o, o.observedAt) { continue; }
      values := values + [o.value.value];
    }
    assert days[..|days|] == days;
    return Success(values);
  }

  method StockMetrics(index: Index, snapshots: seq<Snapshot>, q: Query, days: seq<int>, ids: seq<string>) returns (r: Result<seq<StockMetric>, TurnoverError>)
    ensures r == MetricsOf(index, snapshots, q, days, ids)
  {
    hide Median, HistoryValues;
    var metrics: seq<StockMetric> := [];
    for i := 0 to |ids|
      invariant MetricsOf(index, snapshots, q, days, ids[..i]) == Success(metrics)
    {
      var id := ids[i];
      assert ids[..i + 1][..i] == ids[..i];
      if (id, q.date) !in index || !Usable(index[(id, q.date)], q.at) { continue; }
      var current := index[(id, q.date)].value.value;
      var values := StockValues(index, snapshots, q, id, days);
      if values.Failure? {
        MetricsFailureStays(index, snapshots, q, days, ids, i + 1);
        return Failure(values.error);
      }
      if |values.value| < q.policy.minimumObservations { continue; }
      var baseline := Median(values.value);
      if baseline.None? || baseline.value <= 0.0 { continue; }
      metrics := metrics + [StockMetric(id, current, baseline.value, current / baseline.value, |values.value|)];
    }
    assert ids[..|ids|] == ids;
    return Success(metrics);
  }

  method CalculateThemeTurnover(q: Query, days: seq<int>, snapshots: seq<Snapshot>, observations: seq<Observation>)
    returns (r: Result<Outcome, TurnoverError>)
    requires ValidQuery(q)
    ensures r == ThemeTurnover(q, days, snapshots, observations)
  {
    hide SelectMembership, IndexOf, MetricsOf;
    var history :- HistoryDays(days, q.date, q.policy.lookback);
    var index :- IndexObservations(observations, q.bucket);
    var selected :- SelectMembership(snapshots, q.theme, q.date, q.at);
    if selected.None? { return Success(Outcome(None, None, 0, InsufficientBaseline, [])); }
    var metrics :- StockMetrics(index, snapshots, q, history, Sort(selected.value.members, StrLe));
    return Success(Summarise(Sort(metrics, MetricLe), selected.value, q.policy));
  }

  // ----- What a theme's multiple means -----

  ghost predicate Sensible(m: StockMetric) { m.baseline > 0.0 && m.current == m.multiple * m.baseline }

  lemma {:induction false} MetricsAreSensible(index: Index, snapshots: seq<Snapshot>, q: Query, days: seq<int>, ids: seq<string>)
    requires MetricsOf(index, snapshots, q, days, ids).Success?
    ensures forall m | m in MetricsOf(index, snapshots, q, days, ids).value :: m.stockId in ids && Sensible(m)
  {
    hide HistoryValues, Median;
    if ids != [] {
      MetricsAreSensible(index, snapshots, q, days, ids[..|ids| - 1]);
    }
  }

  // total is between lo and hi times base.
  ghost predicate Within(lo: real, hi: real, total: real, base: real) { lo * base <= total <= hi * base }

  lemma WithinZero(lo: real, hi: real)
    ensures Within(lo, hi, 0.0, 0.0)
  {
  }

  lemma WithinSum(lo: real, hi: real, a: real, b: real, c: real, d: real)
    requires Within(lo, hi, a, b) && Within(lo, hi, c, d)
    ensures Within(lo, hi, a + c, b + d)
  {
    assert lo * (b + d) == lo * b + lo * d;
    assert hi * (b + d) == hi * b + hi * d;
  }

  lemma WithinOne(lo: real, hi: real, m: StockMetric)
    requires Sensible(m) && lo <= m.multiple <= hi
    ensures Within(lo, hi, m.current, m.baseline)
  {
    assert lo * m.baseline <= m.multiple * m.baseline <= hi * m.baseline;
  }

  lemma {:induction false} TotalsBetween(metrics: seq<StockMetric>, lo: real, hi: real)
    requires forall m | m in metrics :: Sensible(m) && lo <= m.multiple <= hi
    ensures Within(lo, hi, CurrentTotal(metrics), BaselineTotal(metrics))
    ensures BaselineTotal(metrics) >= 0.0 && (metrics != [] ==> BaselineTotal(metrics) > 0.0)
  {
    hide Within, Sensible;
    if metrics == [] {
      WithinZero(lo, hi);
    } else {
      var front, last := metrics[..|metrics| - 1], metrics[|metrics| - 1];
      TotalsBetween(front, lo, hi);
      assert last in metrics;
      SensibleBaseline(last);
      WithinOne(lo, hi, last);
      WithinSum(lo, hi, CurrentTotal(front), BaselineTotal(front), last.current, last.baseline);
    }
  }

  lemma SensibleBaseline(m: StockMetric)
    requires Sensible(m)
    ensures m.baseline > 0.0
  {
  }

  lemma {:induction false} Extremes(metrics: seq<StockMetric>) returns (a: StockMetric, b: StockMetric)
    requires metrics != []
    ensures a in metrics && b in metrics && forall m | m in metrics :: a.multiple <= m.multiple <= b.multiple
  {
    var n := |metrics| - 1;
    if n == 0 {
      a, b := metrics[0], metrics[0];
    } else {
      a, b := Extremes(metrics[..n]);
      assert metrics == metrics[..n] + [metrics[n]];
      if metrics[n].multiple < a.multiple { a := metrics[n]; }
      if metrics[n].multiple > b.multiple { b := metrics[n]; }
    }
  }

  lemma QuotientBetween(a: real, b: real, lo: real, hi: real)
    requires b > 0.0 && Within(lo, hi, a, b)
    ensures lo <= a / b <= hi
  {
  }

  /** One stock is enough for a multiple, so the zero-denominator answer never appears; and the theme's multiple lies
      between two of its stocks' multiples. */
  lemma MultipleLiesBetweenStocks(q: Query, days: seq<int>, snapshots: seq<Snapshot>, observations: seq<Observation>)
    requires ValidQuery(q) && ThemeTurnover(q, days, snapshots, observations).Success?
    ensures var r := ThemeTurnover(q, days, snapshots, observations).value;
            && (r.multiple.Some? <==> r.metrics != []) && (r.status.InsufficientBaseline? <==> r.metrics == [])
            && (r.multiple.Some? ==> exists a, b :: a in r.metrics && b in r.metrics && a.multiple <= r.multiple.value <= b.multiple)
  {
    hide SelectMembership, IndexOf, MetricsOf, Sort, Summarise, HistoryDays, Sensible;
    var history := HistoryDays(days, q.date, q.policy.lookback).value;
    var index := IndexOf(observations, q.bucket).value;
    var membership := SelectMembership(snapshots, q.theme, q.date, q.at).value;
    if membership.Some? {
      var ids := Sort(membership.value.members, StrLe);
      var raw := MetricsOf(index, snapshots, q, history, ids).value;
      MetricsAreSensible(index, snapshots, q, history, ids);
      assert TotalPreorder(MetricLe) by { StrLeIsTotalOrder(); }
      SortCorrect(raw, MetricLe);
      SummaryBetween(Sort(raw, MetricLe), membership.value, q.policy);
    }
  }

  lemma SummaryBetween(metrics: seq<StockMetric>, membership: Snapshot, policy: Policy)
    requires forall m | m in metrics :: Sensible(m)
    ensures var r := Summarise(metrics, membership, policy);
            && (r.multiple.Some? <==> r.metrics != []) && (r.status.InsufficientBaseline? <==> r.metrics == [])
            && r.metrics == metrics
            && (r.multiple.Some? ==> exists a, b :: a in r.metrics && b in r.metrics && a.multiple <= r.multiple.value <= b.multiple)
  {
    hide CurrentTotal, BaselineTotal;
    if metrics != [] {
      var a, b := Extremes(metrics);
      TotalsBetween(metrics, a.multiple, b.multiple);
      QuotientBetween(CurrentTotal(metrics), BaselineTotal(metrics), a.multiple, b.multiple);
    }
  }

  // ----- What cannot influence a theme's multiple -----

  // The entries a query can look at.
  ghost predicate AgreeOn(a: Index, b: Index, ids: seq<string>, days: seq<int>, date: int) {
    forall id, day | id in ids && (day in days || day == date) ::
      ((id, day) in a <==> (id, day) in b) && ((id, day) in a ==> a[(id, day)] == b[(id, day)])
  }

  lemma {:induction false} ValuesAgree(a: Index, b: Index, snapshots: seq<Snapshot>, q: Query, id: string, days: seq<int>)
    requires forall day | day in days :: ((id, day) in a <==> (id, day) in b) && ((id, day) in a ==> a[(id, day)] == b[(id, day)])
    ensures HistoryValues(a, snapshots, q, id, days) == HistoryValues(b, snapshots, q, id, days)
  {
    hide SelectMembership, Usable;
    if days != [] { ValuesAgree(a, b, snapshots, q, id, days[..|days| - 1]); }
  }

  lemma {:induction false} MetricsAgree(a: Index, b: Index, snapshots: seq<Snapshot>, q: Query, days: seq<int>, ids: seq<string>)
    requires AgreeOn(a, b, ids, days, q.date)
    ensures MetricsOf(a, snapshots, q, days, ids) == MetricsOf(b, snapshots, q, days, ids)
  {
    hide HistoryValues, Usable, MetricFrom;
    if ids != [] {
      MetricsAgree(a, b, snapshots, q, days, ids[..|ids| - 1]);
      assert ids[|ids| - 1] in ids;
      ValuesAgree(a, b, snapshots, q, ids[|ids| - 1], days);
    }
  }

  // An observation the query cannot look at: another minute, a day outside the lookback, or a stock outside the theme.
  ghost predicate Irrelevant(o: Observation, q: Query, history: seq<int>, members: seq<string>) {
    o.bucket != q.bucket || (o.marketDate !in history && o.marketDate != q.date) || o.stockId !in members
  }

  lemma WithoutExtra(a: seq<Observation>, extra: Observation, b: seq<Observation>, bucket: int)
    requires IndexOf(a + [extra] + b, bucket).Success?
    ensures IndexOf(a + b, bucket).Success?
    ensures forall k | extra.bucket != bucket || k != KeyOf(extra) ::
              var with, without := IndexOf(a + [extra] + b, bucket).value, IndexOf(a + b, bucket).value;
              (k in with <==> k in without) && (k in with ==> with[k] == without[k])
  {
    var all, rest := a + [extra] + b, a + b;
    IndexIsComplete(all, bucket);
    IndexIsComplete(rest, bucket);
    hide IndexOf;
    forall i, j | 0 <= i < j < |rest| && rest[i].bucket == bucket && rest[j].bucket == bucket
      ensures KeyOf(rest[i]) != KeyOf(rest[j])
    {
      var i', j' := if i < |a| then i else i + 1, if j < |a| then j else j + 1;
      assert all[i'] == rest[i] && all[j'] == rest[j];
    }
    assert !Repeats(rest, bucket);
    var with, without := IndexOf(all, bucket).value, IndexOf(rest, bucket).value;
    forall o | o in rest ensures o in all {}
    forall o | o in all && o != extra ensures o in rest {}
    forall k | extra.bucket != bucket || k != KeyOf(extra) ensures (k in with <==> k in without) && (k in with ==> with[k] == without[k]) {
      if k in without { assert without[k] in all; }
      if k in with { assert with[k] in rest; }
    }
  }

  // An observation of another minute is not even indexed.
  lemma {:induction false} OtherMinuteIsNotIndexed(a: seq<Observation>, extra: Observation, b: seq<Observation>, bucket: int)
    requires extra.bucket != bucket
    ensures IndexOf(a + [extra] + b, bucket) == IndexOf(a + b, bucket)
    decreases |b|
  {
    if b == [] {
      assert (a + [extra] + [])[..|a|] == a && a + [] == a;
    } else {
      var n := |b| - 1;
      OtherMinuteIsNotIndexed(a, extra, b[..n], bucket);
      assert (a + [extra] + b)[..|a| + 1 + n] == a + [extra] + b[..n] && (a + b)[..|a| + n] == a + b[..n];
    }
  }

  /** An observation of another minute changes nothing on any input, errors included. One of a day outside the lookback or of
      a stock outside the theme changes nothing either, unless it repeats a stock and day of the minute. */
  lemma IrrelevantObservationsAreIgnored(q: Query, days: seq<int>, snapshots: seq<Snapshot>,
                                         a: seq<Observation>, extra: Observation, b: seq<Observation>)
    requires ValidQuery(q)
    requires extra.bucket != q.bucket || !Repeats(a + [extra] + b, q.bucket)
    requires var history, selected := HistoryDays(days, q.date, q.policy.lookback), SelectMembership(snapshots, q.theme, q.date, q.at);
             history.Success? && selected.Success? && selected.value.Some? ==> Irrelevant(extra, q, history.value, selected.value.value.members)
    ensures ThemeTurnover(q, days, snapshots, a + [extra] + b) == ThemeTurnover(q, days, snapshots, a + b)
  {
    hide SelectMembership, MetricsOf, IndexOf, HistoryDays, Sort, Repeats;
    if extra.bucket != q.bucket {
      OtherMinuteIsNotIndexed(a, extra, b, q.bucket);
    } else {
      IndexIsComplete(a + [extra] + b, q.bucket);
      WithoutExtra(a, extra, b, q.bucket);
      var history, selected := HistoryDays(days, q.date, q.policy.lookback), SelectMembership(snapshots, q.theme, q.date, q.at);
      if history.Success? && selected.Success? && selected.value.Some? {
        var members := selected.value.value.members;
        var ids := Sort(members, StrLe);
        StrLeIsTotalOrder();
        SortCorrect(members, StrLe);
        var with, without := IndexOf(a + [extra] + b, q.bucket).value, IndexOf(a + b, q.bucket).value;
        assert AgreeOn(with, without, ids, history.value, q.date);
        MetricsAgree(with, without, snapshots, q, history.value, ids);
      }
    }
  }

  // The membership answers a query can ask for do not involve the extra snapshot.
  lemma SelectionIgnores(a: seq<Snapshot>, extra: Snapshot, b: seq<Snapshot>, theme: string, date: int, decisionAt: int)
    requires decisionAt < extra.knownAt
    ensures SelectMembership(a + [extra] + b, theme, date, decisionAt) == SelectMembership(a + b, theme, date, decisionAt)
  {
    ApplicableIgnores(a, extra, b, theme, date, decisionAt);
  }

  lemma {:induction false} ValuesIgnoreLate(index: Index, a: seq<Snapshot>, extra: Snapshot, b: seq<Snapshot>, q: Query, id: string, days: seq<int>)
    requires forall k | k in index && k.1 in days :: index[k].observedAt < extra.knownAt
    ensures HistoryValues(index, a + [extra] + b, q, id, days) == HistoryValues(index, a + b, q, id, days)
  {
    hide SelectMembership, Usable;
    if days != [] {
      var day := days[|days| - 1];
      ValuesIgnoreLate(index, a, extra, b, q, id, days[..|days| - 1]);
      if (id, day) in index { SelectionIgnores(a, extra, b, q.theme, day, index[(id, day)].observedAt); }
    }
  }

  lemma {:induction false} MetricsIgnoreLate(index: Index, a: seq<Snapshot>, extra: Snapshot, b: seq<Snapshot>, q: Query, days: seq<int>, ids: seq<string>)
    requires forall k | k in index && k.1 in days :: index[k].observedAt < extra.knownAt
    ensures MetricsOf(index, a + [extra] + b, q, days, ids) == MetricsOf(index, a + b, q, days, ids)
  {
    hide HistoryValues, Usable, MetricFrom;
    if ids != [] {
      MetricsIgnoreLate(index, a, extra, b, q, days, ids[..|ids| - 1]);
      ValuesIgnoreLate(index, a, extra, b, q, ids[|ids| - 1], days);
    }
  }

  /** Memberships learned after the evaluation change nothing, as long as the history was recorded by then. */
  lemma LateMembershipsAreIgnored(q: Query, days: seq<int>, a: seq<Snapshot>, extra: Snapshot, b: seq<Snapshot>, observations: seq<Observation>)
    requires ValidQuery(q) && q.at < extra.knownAt
    requires forall o | o in observations && o.bucket == q.bucket && o.marketDate < q.date :: o.observedAt <= q.at
    ensures ThemeTurnover(q, days, a + [extra] + b, observations) == ThemeTurnover(q, days, a + b, observations)
  {
    hide SelectMembership, MetricsOf, IndexOf, Sort, Summarise, HistoryDays;
    SelectionIgnores(a, extra, b, q.theme, q.date, q.at);
    var membership := SelectMembership(a + b, q.theme, q.date, q.at);
    if HistoryDays(days, q.date, q.policy.lookback).Success? && IndexOf(observations, q.bucket).Success? && membership.Success? && membership.value.Some? {
      var history := HistoryDays(days, q.date, q.policy.lookback).value;
      var index := IndexOf(observations, q.bucket).value;
      HistoryIsTheRunBefore(days, q.date, q.policy.lookback);
      IndexIsComplete(observations, q.bucket);
      MetricsIgnoreLate(index, a, extra, b, q, history, Sort(membership.value.value.members, StrLe));
    }
  }

  /** A full baseline has a usable value, under a membership holding the stock, on every one of the history days. */
  lemma {:induction false} CountIsAtMostTheDays(index: Index, snapshots: seq<Snapshot>, q: Query, id: string, days: seq<int>)
    requires HistoryValues(index, snapshots, q, id, days).Success?
    ensures |HistoryValues(index, snapshots, q, id, days).value| <= |days|
    ensures |HistoryValues(index, snapshots, q, id, days).value| == |days| <==>
              forall day | day in days ::
                var v := HistoryValue(index, snapshots, q, id, day); v.Success? && v.value.Some?
  {
    hide HistoryValue;
    if days != [] {
      var n := |days| - 1;
      CountIsAtMostTheDays(index, snapshots, q, id, days[..n]);
      assert days == days[..n] + [days[n]];
    }
  }
}
