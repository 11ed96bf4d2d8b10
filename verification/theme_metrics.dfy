/** packages/calculations/theme_metrics.py over a point-in-time membership snapshot. */
module ThemeMetrics {
  import opened Results
  import opened Sorting
  import opened CoverageRatios
  import opened Medians
  import W = Weights

  datatype Role = Core | Related

  datatype Member = Member(stockId: string, role: Role)

  datatype Reference = Reference(
    stockId: string, effectiveFor: int, knownAt: int, previousClose: Option<real>, listedShares: Option<int>,
    freeFloatRatio: Option<real>, freeFloatValidated: bool, actionResolved: bool)

  datatype Observation = Observation(
    stockId: string, marketDate: int, observedAt: int, price: Option<real>, isFresh: bool, halted: bool, actionUnresolved: bool)

  datatype Policy = Policy(maximumWeight: real, sufficientCoreRatio: real, sufficientRelatedRatio: real,
                           minimumCore: int, minimumTotal: int)

  datatype CoverageStatus = Sufficient | Partial | Insufficient

  // Why a stock has no return, in the order the checks are made.
  datatype NoReturn =
    | MissingReference | ReferenceActionUnresolved | ReferenceOutOfTime | NoPreviousClose
    | MissingObservation | ObservationOutOfTime | TradingHalted | ActionUnresolved | StalePrice | NoPrice

  datatype Membership = Membership(effectiveFrom: int, knownAt: int, members: seq<Member>)

  datatype Metrics = Metrics(
    weightedReturn: Option<real>, medianReturn: Option<real>, advancingCount: Option<int>, validCount: Option<int>,
    advancingRatio: Option<real>, core: CoveragePart, related: CoveragePart, status: CoverageStatus)

  datatype MetricsError = MembershipNotKnown | DuplicateStock

  // What one calculation may look at: one record a stock, a day and a decision time.
  datatype Known = Known(refs: map<string, Reference>, obs: map<string, Observation>, date: int, asOf: int)

  predicate ValidPolicy(p: Policy) {
    && 0.0 < p.maximumWeight <= 1.0 && 0.0 < p.sufficientCoreRatio <= 1.0 && 0.0 < p.sufficientRelatedRatio <= 1.0
    && 1 <= p.minimumCore <= p.minimumTotal
  }

  function StockReturn(reference: Option<Reference>, observation: Option<Observation>, date: int, asOf: int): Result<real, NoReturn> {
    if reference.None? then Failure(MissingReference) else
    var r := reference.value;
    if !r.actionResolved then Failure(ReferenceActionUnresolved)
    else if r.effectiveFor != date || r.knownAt > asOf then Failure(ReferenceOutOfTime)
    else if r.previousClose.None? || r.previousClose.value <= 0.0 then Failure(NoPreviousClose)
    else if observation.None? then Failure(MissingObservation) else
    var o := observation.value;
    if o.marketDate != date || o.observedAt > asOf then Failure(ObservationOutOfTime)
    else if o.halted then Failure(TradingHalted)
    else if o.actionUnresolved then Failure(ActionUnresolved)
    else if !o.isFresh then Failure(StalePrice)
    else if o.price.None? || o.price.value <= 0.0 then Failure(NoPrice)
    else Success(o.price.value / r.previousClose.value - 1.0)
  }

  function FreeFloatCap(reference: Option<Reference>, date: int, asOf: int): Option<real> {
    if reference.None? then None else
    var r := reference.value;
    if r.effectiveFor != date || r.knownAt > asOf || !r.actionResolved
       || r.previousClose.None? || r.previousClose.value <= 0.0
       || r.listedShares.None? || r.listedShares.value <= 0
       || r.freeFloatRatio.None? || r.freeFloatRatio.value <= 0.0 || !r.freeFloatValidated
    then None
    else Some(r.previousClose.value * r.listedShares.value as real * r.freeFloatRatio.value)
  }

  lemma CapsArePositive(reference: Option<Reference>, date: int, asOf: int)
    requires FreeFloatCap(reference, date, asOf).Some?
    ensures FreeFloatCap(reference, date, asOf).value > 0.0
  {
    var r := reference.value;
    assert r.previousClose.value * r.listedShares.value as real > 0.0;
  }

  predicate UsableReference(r: Option<Reference>, date: int, asOf: int) { r.Some? && r.value.effectiveFor == date && r.value.knownAt <= asOf }

  predicate UsableObservation(o: Option<Observation>, date: int, asOf: int) { o.Some? && o.value.marketDate == date && o.value.observedAt <= asOf }

  // A record learned or observed after the decision time, or meant for another day, gives no figure.
  lemma OnlyWhatWasKnown(reference: Option<Reference>, observation: Option<Observation>, date: int, asOf: int)
    ensures StockReturn(reference, observation, date, asOf).Success? ==> UsableReference(reference, date, asOf) && UsableObservation(observation, date, asOf)
    ensures FreeFloatCap(reference, date, asOf).Some? ==> UsableReference(reference, date, asOf)
  {
  }

  function StatusOf(core: CoveragePart, related: CoveragePart, validCount: int, policy: Policy): CoverageStatus {
    if core.weightRatio.None? || core.observed < policy.minimumCore || validCount < policy.minimumTotal || related.countRatio.None?
    then Insufficient
    else if core.weightRatio.value >= policy.sufficientCoreRatio && related.countRatio.value >= policy.sufficientRelatedRatio
    then Sufficient
    else Partial
  }

  predicate RankEligible(m: Metrics) {
    m.status == Sufficient && m.weightedReturn.Some? && m.medianReturn.Some? && m.advancingCount.Some? && m.validCount.Some?
  }

  function Get<T>(table: map<string, T>, id: string): Option<T> { if id in table then Some(table[id]) else None }

  // ----- One record a stock -----

  ghost predicate Repeats<T(!new)>(records: seq<T>, id: T -> string) {
    exists i, j :: 0 <= i < j < |records| && id(records[i]) == id(records[j])
  }

  function ByStock<T>(records: seq<T>, id: T -> string): map<string, T> {
    if records == [] then map[] else
    var last := records[|records| - 1];
    ByStock(records[..|records| - 1], id)[id(last) := last]
  }

  lemma {:induction false} ByStockHolds<T(!new)>(records: seq<T>, id: T -> string)
    ensures forall k :: k in ByStock(records, id) <==> exists i :: 0 <= i < |records| && id(records[i]) == k
  {
    if records != [] {
      var n := |records| - 1;
      ByStockHolds(records[..n], id);
      forall k ensures k in ByStock(records, id) <==> exists i :: 0 <= i < |records| && id(records[i]) == k {
        if k in ByStock(records[..n], id) {
          var i :| 0 <= i < n && id(records[..n][i]) == k;
          assert id(records[i]) == k;
        } else if i :| 0 <= i < |records| && id(records[i]) == k {
          assert i < n ==> id(records[..n][i]) == k;
        }
      }
    }
  }

  method IndexUnique<T(!new)>(records: seq<T>, id: T -> string) returns (r: Result<map<string, T>, MetricsError>)
    ensures r == if Repeats(records, id) then Failure(DuplicateStock) else Success(ByStock(records, id))
  {
    var index: map<string, T> := map[];
    for i := 0 to |records|
      invariant index == ByStock(records[..i], id)
      invariant forall a, b | 0 <= a < b < i :: id(records[a]) != id(records[b])
    {
      assert records[..i + 1][..i] == records[..i];
      ByStockHolds(records[..i], id);
      if id(records[i]) in index {
        var j :| 0 <= j < i && id(records[..i][j]) == id(records[i]);
        assert id(records[j]) == id(records[i]);
        return Failure(DuplicateStock);
      }
      forall a | 0 <= a < i ensures id(records[a]) != id(records[i]) { assert id(records[..i][a]) in index; }
      index := index[id(records[i]) := records[i]];
    }
    assert records[..|records|] == records;
    return Success(index);
  }

  // ----- The stocks in order -----

  predicate MemberLe(a: Member, b: Member) { StrLe(a.stockId, b.stockId) }

  function InOrder(members: seq<Member>): seq<Member> { Sort(members, MemberLe) }

  function ReturnOf(k: Known, id: string): Option<real> {
    var r := StockReturn(Get(k.refs, id), Get(k.obs, id), k.date, k.asOf);
    if r.Success? then Some(r.value) else None
  }

  function CapOf(k: Known, id: string): Option<real> { FreeFloatCap(Get(k.refs, id), k.date, k.asOf) }

  function Ids(members: seq<Member>): seq<string> { seq(|members|, i requires 0 <= i < |members| => members[i].stockId) }

  function CoreIds(members: seq<Member>): seq<string> {
    if members == [] then [] else
    var last := members[|members| - 1];
    if last.role == Core then CoreIds(members[..|members| - 1]) + [last.stockId] else CoreIds(members[..|members| - 1])
  }

  // The stocks of a list that have a return.
  function Returned(k: Known, ids: seq<string>): seq<string> {
    if ids == [] then [] else
    var last := ids[|ids| - 1];
    if ReturnOf(k, last).Some? then Returned(k, ids[..|ids| - 1]) + [last] else Returned(k, ids[..|ids| - 1])
  }

  // The stocks of a list that have a return and a capitalisation.
  function Observed(k: Known, ids: seq<string>): seq<string> {
    if ids == [] then [] else
    var last := ids[|ids| - 1];
    if ReturnOf(k, last).Some? && CapOf(k, last).Some? then Observed(k, ids[..|ids| - 1]) + [last] else Observed(k, ids[..|ids| - 1])
  }

  predicate CapsKnown(k: Known, ids: seq<string>) { forall id | id in ids :: CapOf(k, id).Some? }

  function CapsOf(k: Known, ids: seq<string>): seq<real>
    requires CapsKnown(k, ids)
  {
    seq(|ids|, i requires 0 <= i < |ids| => CapOf(k, ids[i]).value)
  }

  function ValuesOf(k: Known, ids: seq<string>): seq<real>
    requires forall id | id in ids :: ReturnOf(k, id).Some?
  {
    seq(|ids|, i requires 0 <= i < |ids| => ReturnOf(k, ids[i]).value)
  }

  function Advancing(values: seq<real>): nat {
    if values == [] then 0 else Advancing(values[..|values| - 1]) + if values[|values| - 1] > 0.0 then 1 else 0
  }

  ghost predicate DistinctMembers(members: seq<Member>) {
    forall i, j | 0 <= i < j < |members| :: members[i].stockId != members[j].stockId
  }

  lemma SortedMembers(members: seq<Member>)
    requires DistinctMembers(members)
    ensures DistinctMembers(InOrder(members)) && |InOrder(members)| == |members| && forall m :: m in InOrder(members) <==> m in members
  {
    assert TotalPreorder(MemberLe) by {
      StrLeIsTotalOrder();
    }
    SortCorrect(members, MemberLe);
    DistinctOfMultiset(members, Sort(members, MemberLe));
    var ordered := Sort(members, MemberLe);
    forall i, j | 0 <= i < j < |ordered| ensures ordered[i].stockId != ordered[j].stockId {
      assert ordered[i] in members && ordered[j] in members && ordered[i] != ordered[j];
    }
  }

  lemma {:induction false} CoreIdsAre(members: seq<Member>)
    ensures forall id :: id in CoreIds(members) <==> Member(id, Core) in members
    ensures DistinctMembers(members) ==> Distinct(CoreIds(members)) && |CoreIds(members)| <= |members|
  {
    if members != [] {
      var front, last := members[..|members| - 1], members[|members| - 1];
      CoreIdsAre(front);
      assert members == front + [last];
      if DistinctMembers(members) {
        LastIsNew(front, last);
        DistinctSnoc(CoreIds(front), last.stockId);
      }
    }
  }

  lemma LastIsNew(front: seq<Member>, last: Member)
    requires DistinctMembers(front + [last])
    ensures DistinctMembers(front) && Member(last.stockId, Core) !in front
  {
    var all := front + [last];
    assert forall i | 0 <= i < |front| :: all[i] == front[i];
    assert all[|front|] == last;
  }

  lemma DistinctSnoc(ids: seq<string>, id: string)
    ensures Distinct(ids) && id !in ids ==> Distinct(ids + [id])
  {
  }

  lemma {:induction false} ReturnedAre(k: Known, ids: seq<string>)
    ensures forall id :: id in Returned(k, ids) <==> id in ids && ReturnOf(k, id).Some?
    ensures |Returned(k, ids)| <= |ids|
  {
    hide ReturnOf;
    if ids != [] {
      ReturnedAre(k, ids[..|ids| - 1]);
      assert ids == ids[..|ids| - 1] + [ids[|ids| - 1]];
    }
  }

  lemma {:induction false} ObservedAre(k: Known, ids: seq<string>)
    ensures forall id :: id in Observed(k, ids) <==> id in ids && ReturnOf(k, id).Some? && CapOf(k, id).Some?
    ensures |Observed(k, ids)| <= |ids|
    ensures Distinct(ids) ==> Distinct(Observed(k, ids))
  {
    hide ReturnOf, CapOf;
    if ids != [] {
      var front, last := ids[..|ids| - 1], ids[|ids| - 1];
      ObservedAre(k, front);
      assert ids == front + [last];
      if Distinct(ids) {
        forall i | 0 <= i < |Observed(k, front)| ensures Observed(k, front)[i] != last {
          assert Observed(k, front)[i] in Observed(k, front);
          var j :| 0 <= j < |front| && front[j] == Observed(k, front)[i];
          assert ids[j] == front[j] && ids[|front|] == last;
        }
      }
    }
  }

  // ----- The weight ratio -----

  function Flags(k: Known, ids: seq<string>): seq<bool> { seq(|ids|, i requires 0 <= i < |ids| => ReturnOf(k, ids[i]).Some?) }

  lemma {:induction false} ObservedCaps(k: Known, ids: seq<string>)
    requires CapsKnown(k, ids)
    ensures CapsKnown(k, Observed(k, ids)) && CapsOf(k, Observed(k, ids)) == Kept(CapsOf(k, ids), Flags(k, ids))
  {
    hide ReturnOf, CapOf;
    if ids != [] {
      var front, last := ids[..|ids| - 1], ids[|ids| - 1];
      assert ids == front + [last];
      ObservedCaps(k, front);
      assert CapsOf(k, ids)[..|front|] == CapsOf(k, front) && Flags(k, ids)[..|front|] == Flags(k, front);
      assert last in ids;
    }
  }

  function WeightRatio(k: Known, ids: seq<string>, rnd: Rounding): Option<real> {
    if ids == [] || !CapsKnown(k, ids) then None else
    ObservedCaps(k, ids);
    var total := RoundedSum(CapsOf(k, ids), rnd);
    if total > 0.0 then Some(rnd(RoundedSum(CapsOf(k, Observed(k, ids)), rnd) / total)) else None
  }

  lemma WeightRatioIsARatio(k: Known, ids: seq<string>, rnd: Rounding)
    requires Sound(rnd) && WeightRatio(k, ids, rnd).Some?
    ensures 0.0 <= WeightRatio(k, ids, rnd).value <= 1.0
  {
    hide RoundedSum, Sound, FreeFloatCap, ReturnOf;
    ObservedCaps(k, ids);
    forall i | 0 <= i < |ids| ensures CapsOf(k, ids)[i] >= 0.0 {
      assert ids[i] in ids;
      CapsArePositive(Get(k.refs, ids[i]), k.date, k.asOf);
    }
    RatioIsARatio(CapsOf(k, ids), Flags(k, ids), rnd);
  }

  // ----- The weighted return -----

  // The weighting's id list, its weights and what makes them a full weighting of the inputs.
  lemma WeightingParts(inputs: seq<W.CapitalizationInput>, cap: real, out: seq<W.CappedWeight>)
    returns (ids: seq<string>, w: W.Amounts)
    requires cap > 0.0 && W.DistinctIds(inputs) && (forall x | x in inputs :: x.cap > 0.0) && W.IsCappedWeighting(inputs, cap, out)
    ensures Distinct(ids) && W.Elements(ids) == w.Keys && (forall x | x in ids :: x in w) && out == W.InOrder(ids, w)
    ensures W.Elements(ids) == W.Elements(W.IdList(inputs))
    ensures W.Sum(w.Keys, w) == 1.0 && forall x | x in w :: w[x] > 0.0
  {
    var level;
    ids := Sort(W.IdList(inputs), StrLe);
    w, level :| W.CappedAt(W.CapsOf(inputs), W.EffectiveCap(cap, |inputs|), w, level)
                && (forall x | x in ids :: x in w) && out == W.InOrder(ids, w);
    W.SortedIdList(inputs);
    W.SortedIdsAreKeys(inputs);
    W.CapsArePositive(inputs);
    W.CappedWeightsFollowCaps(W.CapsOf(inputs), W.EffectiveCap(cap, |inputs|), w, level);
  }

  // The inputs name exactly the observed core stocks.
  ghost predicate InputsFor(inputs: seq<W.CapitalizationInput>, observed: seq<string>) {
    && |inputs| == |observed|
    && (forall i | 0 <= i < |inputs| :: inputs[i].stockId == observed[i] && inputs[i].cap > 0.0)
    && (forall i, j | 0 <= i < j < |observed| :: observed[i] != observed[j])
  }

  lemma InputIds(inputs: seq<W.CapitalizationInput>, observed: seq<string>)
    requires InputsFor(inputs, observed)
    ensures W.DistinctIds(inputs) && (forall x | x in inputs :: x.cap > 0.0) && W.IdList(inputs) == observed
  {
    W.IdListAt(inputs);
    forall x | x in inputs ensures x.cap > 0.0 { var i :| 0 <= i < |inputs| && inputs[i] == x; }
  }

  lemma WeightedIds(inputs: seq<W.CapitalizationInput>, observed: seq<string>, cap: real, out: seq<W.CappedWeight>)
    requires InputsFor(inputs, observed) && cap > 0.0 && W.IsCappedWeighting(inputs, cap, out)
    ensures W.IdsOf(out) == W.Elements(observed)
  {
    hide W.IsCappedWeighting;
    InputIds(inputs, observed);
    var ids, w := WeightingParts(inputs, cap, out);
    W.InOrderIds(ids, w);
  }

  lemma BetweenReturns(inputs: seq<W.CapitalizationInput>, observed: seq<string>, cap: real, out: seq<W.CappedWeight>,
                       returns_: map<string, real>, lo: real, hi: real)
    requires InputsFor(inputs, observed) && cap > 0.0 && W.IsCappedWeighting(inputs, cap, out)
    requires returns_.Keys == W.Elements(observed) && forall id | id in observed :: lo <= returns_[id] <= hi
    ensures W.IdsOf(out) <= returns_.Keys && lo <= W.Dot(out, returns_) <= hi
  {
    hide W.IsCappedWeighting, W.Dot, W.InOrder, W.IdsOf, W.Sum, W.IdList;
    InputIds(inputs, observed);
    var ids, w := WeightingParts(inputs, cap, out);
    W.WeightedReturnBetween(ids, w, returns_, lo, hi);
  }

  // The weight calculation's inputs for the observed core stocks.
  function WeightInputs(k: Known, observed: seq<string>): seq<W.CapitalizationInput>
    requires CapsKnown(k, observed)
  {
    seq(|observed|, i requires 0 <= i < |observed| => W.CapitalizationInput(observed[i], CapOf(k, observed[i]).value))
  }

  function ReturnsOf(k: Known, ids: seq<string>): map<string, real>
    requires forall id | id in ids :: ReturnOf(k, id).Some?
  {
    map id | id in ids :: ReturnOf(k, id).value
  }

  // The return of the capped weighting of the observed stocks.
  ghost predicate IsWeightedReturn(k: Known, observed: seq<string>, cap: real, r: real) {
    && CapsKnown(k, observed) && (forall id | id in observed :: ReturnOf(k, id).Some?)
    && exists out :: W.IsCappedWeighting(WeightInputs(k, observed), cap, out)
         && W.IdsOf(out) == ReturnsOf(k, observed).Keys && r == W.Dot(out, ReturnsOf(k, observed))
  }

  lemma WeightInputsFor(k: Known, observed: seq<string>)
    requires CapsKnown(k, observed) && Distinct(observed)
    ensures InputsFor(WeightInputs(k, observed), observed)
  {
    hide FreeFloatCap;
    forall i | 0 <= i < |observed| ensures CapOf(k, observed[i]).value > 0.0 {
      assert observed[i] in observed;
      CapsArePositive(Get(k.refs, observed[i]), k.date, k.asOf);
    }
  }

  method WeightedReturn(k: Known, observed: seq<string>, policy: Policy) returns (r: real)
    requires ValidPolicy(policy) && observed != [] && Distinct(observed) && CapsKnown(k, observed)
    requires forall id | id in observed :: ReturnOf(k, id).Some?
    ensures IsWeightedReturn(k, observed, policy.maximumWeight, r)
  {
    hide ReturnOf, CapOf, W.IdsOf, W.Dot, W.IsCappedWeighting, W.DistinctIds, Distinct;
    var inputs := WeightInputs(k, observed);
    WeightInputsFor(k, observed);
    InputIds(inputs, observed);
    assert inputs != [];
    hide WeightInputs, InputsFor, W.IdList;
    var weights := W.CalculateCappedWeights(inputs, policy.maximumWeight);
    WeightedIds(inputs, observed, policy.maximumWeight, weights.value);
    var total := W.CalculateWeightedReturn(weights.value, ReturnsOf(k, observed));
    return total.value;
  }

  // value lies between the returns of two of the listed stocks.
  ghost predicate Spanned(k: Known, ids: seq<string>, value: real) {
    exists a, b :: a in ids && b in ids && ReturnOf(k, a).Some? && ReturnOf(k, b).Some?
      && ReturnOf(k, a).value <= value <= ReturnOf(k, b).value
  }

  lemma {:induction false} Extremes(k: Known, ids: seq<string>) returns (a: string, b: string)
    requires ids != [] && forall id | id in ids :: ReturnOf(k, id).Some?
    ensures a in ids && b in ids && forall id | id in ids :: ReturnOf(k, a).value <= ReturnOf(k, id).value <= ReturnOf(k, b).value
  {
    hide ReturnOf;
    var n := |ids| - 1;
    if n == 0 {
      a, b := ids[0], ids[0];
    } else {
      a, b := Extremes(k, ids[..n]);
      assert ids == ids[..n] + [ids[n]] && ids[n] in ids;
      if ReturnOf(k, ids[n]).value < ReturnOf(k, a).value { a := ids[n]; }
      if ReturnOf(k, ids[n]).value > ReturnOf(k, b).value { b := ids[n]; }
    }
  }

  /** The weighted return is one number, and it lies within the returns of the observed core. */
  lemma WeightedReturnIsSpanned(k: Known, observed: seq<string>, cap: real, r: real)
    requires cap > 0.0 && observed != [] && Distinct(observed) && IsWeightedReturn(k, observed, cap, r)
    ensures Spanned(k, observed, r)
    ensures forall q | IsWeightedReturn(k, observed, cap, q) :: q == r
  {
    hide ReturnOf, CapOf, W.IdsOf, W.Dot, W.IsCappedWeighting, W.DistinctIds, Distinct, WeightInputs, ReturnsOf, Spanned, InputsFor;
    WeightInputsFor(k, observed);
    var out :| W.IsCappedWeighting(WeightInputs(k, observed), cap, out)
               && W.IdsOf(out) == ReturnsOf(k, observed).Keys && r == W.Dot(out, ReturnsOf(k, observed));
    OneWeightingIsSpanned(k, observed, cap, out);
    forall q | IsWeightedReturn(k, observed, cap, q) ensures q == r {
      var other :| W.IsCappedWeighting(WeightInputs(k, observed), cap, other)
                   && W.IdsOf(other) == ReturnsOf(k, observed).Keys && q == W.Dot(other, ReturnsOf(k, observed));
      OneWeightingOnly(WeightInputs(k, observed), observed, cap, out, other);
    }
  }

  lemma OneWeightingOnly(inputs: seq<W.CapitalizationInput>, observed: seq<string>, cap: real, a: seq<W.CappedWeight>, b: seq<W.CappedWeight>)
    requires cap > 0.0 && InputsFor(inputs, observed) && W.IsCappedWeighting(inputs, cap, a) && W.IsCappedWeighting(inputs, cap, b)
    ensures a == b
  {
    hide W.IsCappedWeighting, W.DistinctIds;
    InputIds(inputs, observed);
    W.InputOrderIrrelevant(inputs, inputs, cap, a, b);
  }

  lemma OneWeightingIsSpanned(k: Known, observed: seq<string>, cap: real, out: seq<W.CappedWeight>)
    requires cap > 0.0 && observed != [] && CapsKnown(k, observed) && forall id | id in observed :: ReturnOf(k, id).Some?
    requires InputsFor(WeightInputs(k, observed), observed) && W.IsCappedWeighting(WeightInputs(k, observed), cap, out)
    requires W.IdsOf(out) == ReturnsOf(k, observed).Keys
    ensures Spanned(k, observed, W.Dot(out, ReturnsOf(k, observed)))
  {
    hide ReturnOf, CapOf, W.IdsOf, W.Dot, W.IsCappedWeighting, InputsFor, WeightInputs;
    var a, b := Extremes(k, observed);
    BetweenReturns(WeightInputs(k, observed), observed, cap, out, ReturnsOf(k, observed), ReturnOf(k, a).value, ReturnOf(k, b).value);
  }

  lemma MedianIsSpanned(k: Known, ids: seq<string>)
    requires ids != [] && forall id | id in ids :: ReturnOf(k, id).Some?
    ensures Median(ValuesOf(k, ids)).Some? && Spanned(k, ids, Median(ValuesOf(k, ids)).value)
  {
    hide ReturnOf;
    var a, b := Extremes(k, ids);
    var values := ValuesOf(k, ids);
    forall v | v in values ensures ReturnOf(k, a).value <= v <= ReturnOf(k, b).value {
      var i :| 0 <= i < |values| && values[i] == v;
      assert ids[i] in ids;
    }
    MedianBetween(values, ReturnOf(k, a).value, ReturnOf(k, b).value);
  }

  // ----- The theme's metrics -----

  // What each figure is, over the members in stock order.
  ghost predicate IsMetrics(k: Known, ordered: seq<Member>, policy: Policy, rnd: Rounding, m: Metrics) {
    var core, returned := CoreIds(ordered), Returned(k, Ids(ordered));
    var observed := Observed(k, core);
    && (forall id | id in returned :: ReturnOf(k, id).Some?)
    && FromCounts(|observed|, |core|, WeightRatio(k, core, rnd)) == Success(m.core)
    && FromCounts(|returned|, |ordered|, None) == Success(m.related)
    && m.status == StatusOf(m.core, m.related, |returned|, policy)
    && (m.weightedReturn.Some? <==> CapsKnown(k, core) && |observed| >= policy.minimumCore)
    && (m.weightedReturn.Some? ==> IsWeightedReturn(k, observed, policy.maximumWeight, m.weightedReturn.value))
    && m.medianReturn == Median(ValuesOf(k, returned))
    && m.validCount == (if returned == [] then None else Some(|returned|))
    && m.advancingCount == (if returned == [] then None else Some(Advancing(ValuesOf(k, returned))))
    && m.advancingRatio == if returned == [] then None else Some(Advancing(ValuesOf(k, returned)) as real / |returned| as real)
  }

  method CollectReturns(k: Known, ids: seq<string>) returns (returned: seq<string>, values: seq<real>, advancing: nat)
    ensures returned == Returned(k, ids) && (forall id | id in returned :: ReturnOf(k, id).Some?)
    ensures values == ValuesOf(k, returned) && advancing == Advancing(values)
  {
    hide ReturnOf;
    returned, values, advancing := [], [], 0;
    for i := 0 to |ids|
      invariant returned == Returned(k, ids[..i]) && |values| == |returned| && advancing == Advancing(values)
      invariant forall j | 0 <= j < |values| :: ReturnOf(k, returned[j]) == Some(values[j])
    {
      assert ids[..i + 1][..i] == ids[..i];
      var r := ReturnOf(k, ids[i]);
      if r.Some? {
        assert (values + [r.value])[..|values|] == values;
        returned, values := returned + [ids[i]], values + [r.value];
        if r.value > 0.0 { advancing := advancing + 1; }
      }
    }
    assert ids[..|ids|] == ids;
  }

  method CollectCore(k: Known, members: seq<Member>) returns (core: seq<string>, missing: nat)
    ensures core == CoreIds(members) && (missing == 0 <==> CapsKnown(k, core))
  {
    hide CapOf;
    core, missing := [], 0;
    for i := 0 to |members|
      invariant core == CoreIds(members[..i]) && (missing == 0 <==> CapsKnown(k, core))
    {
      assert members[..i + 1][..i] == members[..i];
      if members[i].role == Core {
        assert forall id | id in core + [members[i].stockId] :: id in core || id == members[i].stockId;
        assert members[i].stockId in core + [members[i].stockId] && forall id | id in core :: id in core + [members[i].stockId];
        core := core + [members[i].stockId];
        if CapOf(k, members[i].stockId).None? { missing := missing + 1; }
      }
    }
    assert members[..|members|] == members;
  }

  method CalculateFor(k: Known, ordered: seq<Member>, policy: Policy, rnd: Rounding) returns (m: Metrics)
    requires DistinctMembers(ordered) && ValidPolicy(policy) && Sound(rnd)
    ensures IsMetrics(k, ordered, policy, rnd, m)
  {
    hide ReturnOf, CapOf, Sound, Median, Advancing, IsWeightedReturn, RoundedSum, DistinctMembers;
    var returned, values, advancing := CollectReturns(k, Ids(ordered));
    var core, missing := CollectCore(k, ordered);
    var observed := Observed(k, core);
    ReturnedAre(k, Ids(ordered));
    CoreIdsAre(ordered);
    ObservedAre(k, core);
    hide Returned, Observed, CoreIds, Distinct, ValuesOf;
    var ratio := WeightRatio(k, core, rnd);
    if ratio.Some? { WeightRatioIsARatio(k, core, rnd); }
    hide WeightRatio;
    var coreCoverage := FromCounts(|observed|, |core|, ratio).value;
    var relatedCoverage := FromCounts(|returned|, |ordered|, None).value;
    var weighted: Option<real> := None;
    if missing == 0 && |observed| >= policy.minimumCore {
      var w := WeightedReturn(k, observed, policy);
      weighted := Some(w);
    }
    if returned == [] {
      m := Metrics(weighted, Median(values), None, None, None, coreCoverage, relatedCoverage,
                   StatusOf(coreCoverage, relatedCoverage, |returned|, policy));
    } else {
      m := Metrics(weighted, Median(values), Some(advancing), Some(|returned|), Some(advancing as real / |returned| as real),
                   coreCoverage, relatedCoverage, StatusOf(coreCoverage, relatedCoverage, |returned|, policy));
    }
  }

  function RefId(r: Reference): string { r.stockId }

  function ObsId(o: Observation): string { o.stockId }

  /** The calculation fails exactly when the membership was not yet known or effective, or a stock has two records; and
      building the coverage parts never fails. */
  method CalculateThemeMetrics(date: int, asOf: int, membership: Membership, references: seq<Reference>,
                               observations: seq<Observation>, policy: Policy, rnd: Rounding)
    returns (r: Result<Metrics, MetricsError>)
    requires DistinctMembers(membership.members) && ValidPolicy(policy) && Sound(rnd)
    ensures r == Failure(MembershipNotKnown) <==> membership.effectiveFrom > date || membership.knownAt > asOf
    ensures r == Failure(DuplicateStock) <==>
              !(membership.effectiveFrom > date || membership.knownAt > asOf) && (Repeats(references, RefId) || Repeats(observations, ObsId))
    ensures r.Success? ==>
              IsMetrics(Known(ByStock(references, RefId), ByStock(observations, ObsId), date, asOf), InOrder(membership.members), policy, rnd, r.value)
  {
    hide IsMetrics, InOrder, Repeats, ByStock, Sound;
    if membership.effectiveFrom > date || membership.knownAt > asOf { return Failure(MembershipNotKnown); }
    var refs :- IndexUnique(references, RefId);
    var obs :- IndexUnique(observations, ObsId);
    SortedMembers(membership.members);
    var m := CalculateFor(Known(refs, obs, date, asOf), InOrder(membership.members), policy, rnd);
    return Success(m);
  }

  /** A theme may be ranked exactly when its coverage is sufficient; its weighted return lies within the returns of the
      observed core, and its median within all returns. */
  lemma MetricsAreBounded(k: Known, ordered: seq<Member>, policy: Policy, rnd: Rounding, m: Metrics)
    requires DistinctMembers(ordered) && ValidPolicy(policy) && IsMetrics(k, ordered, policy, rnd, m)
    ensures RankEligible(m) <==> m.status == Sufficient
    ensures m.weightedReturn.Some? ==> Spanned(k, Observed(k, CoreIds(ordered)), m.weightedReturn.value)
    ensures m.medianReturn.Some? ==> Spanned(k, Returned(k, Ids(ordered)), m.medianReturn.value)
    ensures m.medianReturn.Some? <==> m.validCount.Some?
    ensures m.advancingRatio.Some? ==> 0.0 <= m.advancingRatio.value <= 1.0
  {
    hide ReturnOf, CapOf, Sound, IsWeightedReturn, RoundedSum, DistinctMembers, Median, Spanned;
    var core, returned := CoreIds(ordered), Returned(k, Ids(ordered));
    var observed := Observed(k, core);
    CoreIdsAre(ordered);
    ObservedAre(k, core);
    if returned != [] {
      MedianIsSpanned(k, returned);
      AdvancingIsAPart(ValuesOf(k, returned));
    } else {
      NoMedian();
      assert ValuesOf(k, returned) == [];
    }
    hide Returned, Observed, CoreIds, Distinct, ValuesOf, Advancing, WeightRatio;
    if m.weightedReturn.Some? { WeightedReturnIsSpanned(k, observed, policy.maximumWeight, m.weightedReturn.value); }
    if m.status == Sufficient { SufficientHasEverything(k, core, rnd, m, policy, |returned|, |observed|); }
  }

  // A weight ratio exists only when every core capitalisation is known.
  lemma SufficientHasEverything(k: Known, core: seq<string>, rnd: Rounding, m: Metrics, policy: Policy, returned: int, observed: int)
    requires ValidPolicy(policy) && m.status == StatusOf(m.core, m.related, returned, policy) && m.status == Sufficient
    requires m.core.weightRatio == WeightRatio(k, core, rnd) && m.core.observed == observed
    ensures returned >= 1 && CapsKnown(k, core) && observed >= policy.minimumCore
  {
    hide CapOf, RoundedSum, Observed;
  }

  lemma NoMedian()
    ensures Median([]) == None
  {
    MedianOfPermutation([], []);
  }

  lemma {:induction false} AdvancingIsAPart(values: seq<real>)
    ensures Advancing(values) <= |values|
    ensures values != [] ==> 0.0 <= Advancing(values) as real / |values| as real <= 1.0
  {
    if values != [] {
      AdvancingIsAPart(values[..|values| - 1]);
      Share(Advancing(values), |values|);
    }
  }

  lemma Share(part: nat, whole: nat)
    requires part <= whole && whole > 0
    ensures 0.0 <= part as real / whole as real <= 1.0
  {
  }

  // ----- What cannot influence a theme's metrics -----

  // The two differ at most in records that were learned or observed later, or are of another day.
  ghost predicate SameKnowledge(a: Known, b: Known) {
    && a.date == b.date && a.asOf == b.asOf
    && (forall id :: Get(a.refs, id) == Get(b.refs, id)
                     || !(UsableReference(Get(a.refs, id), a.date, a.asOf) || UsableReference(Get(b.refs, id), a.date, a.asOf)))
    && (forall id :: Get(a.obs, id) == Get(b.obs, id)
                     || !(UsableObservation(Get(a.obs, id), a.date, a.asOf) || UsableObservation(Get(b.obs, id), a.date, a.asOf)))
  }

  ghost predicate SameFigures(a: Known, b: Known) { forall id :: ReturnOf(a, id) == ReturnOf(b, id) && CapOf(a, id) == CapOf(b, id) }

  lemma LateRecordsGiveNothing(a: Known, b: Known)
    requires SameKnowledge(a, b)
    ensures SameFigures(a, b)
  {
    hide StockReturn, FreeFloatCap;
    forall id ensures ReturnOf(a, id) == ReturnOf(b, id) && CapOf(a, id) == CapOf(b, id) {
      OnlyWhatWasKnown(Get(a.refs, id), Get(a.obs, id), a.date, a.asOf);
      OnlyWhatWasKnown(Get(b.refs, id), Get(b.obs, id), a.date, a.asOf);
    }
  }

  lemma {:induction false} SameLists(a: Known, b: Known, ids: seq<string>)
    requires SameFigures(a, b)
    ensures Returned(a, ids) == Returned(b, ids) && Observed(a, ids) == Observed(b, ids) && (CapsKnown(a, ids) <==> CapsKnown(b, ids))
  {
    hide ReturnOf, CapOf;
    if ids != [] { SameLists(a, b, ids[..|ids| - 1]); }
  }

  lemma SameValues(a: Known, b: Known, ids: seq<string>)
    requires SameFigures(a, b) && forall id | id in ids :: ReturnOf(a, id).Some?
    ensures (forall id | id in ids :: ReturnOf(b, id).Some?) && ValuesOf(a, ids) == ValuesOf(b, ids) && ReturnsOf(a, ids) == ReturnsOf(b, ids)
  {
    hide ReturnOf;
  }

  lemma SameCaps(a: Known, b: Known, ids: seq<string>)
    requires SameFigures(a, b) && CapsKnown(a, ids)
    ensures CapsKnown(b, ids) && CapsOf(a, ids) == CapsOf(b, ids) && WeightInputs(a, ids) == WeightInputs(b, ids)
  {
    hide CapOf;
  }

  lemma SameRatio(a: Known, b: Known, ids: seq<string>, rnd: Rounding)
    requires SameFigures(a, b)
    ensures WeightRatio(a, ids, rnd) == WeightRatio(b, ids, rnd)
  {
    hide ReturnOf, CapOf, Observed, RoundedSum;
    SameLists(a, b, ids);
    if CapsKnown(a, ids) {
      SameCaps(a, b, ids);
      ObservedCaps(a, ids);
      SameCaps(a, b, Observed(a, ids));
    }
  }

  lemma SameWeightedReturn(a: Known, b: Known, observed: seq<string>, cap: real, r: real)
    requires SameFigures(a, b) && IsWeightedReturn(a, observed, cap, r)
    ensures IsWeightedReturn(b, observed, cap, r)
  {
    hide ReturnOf, CapOf, W.IsCappedWeighting, W.IdsOf, W.Dot;
    SameValues(a, b, observed);
    SameCaps(a, b, observed);
  }

  lemma SameMetrics(a: Known, b: Known, ordered: seq<Member>, policy: Policy, rnd: Rounding, m: Metrics)
    requires SameFigures(a, b) && IsMetrics(a, ordered, policy, rnd, m)
    ensures IsMetrics(b, ordered, policy, rnd, m)
  {
    hide ReturnOf, CapOf, Returned, Observed, CapsKnown, ValuesOf, WeightRatio, IsWeightedReturn, Median, Advancing, FromCounts, StatusOf, SameFigures, CoreIds;
    var core := CoreIds(ordered);
    SameLists(a, b, Ids(ordered));
    SameLists(a, b, core);
    SameRatio(a, b, core, rnd);
    SameValues(a, b, Returned(a, Ids(ordered)));
    if m.weightedReturn.Some? { SameWeightedReturn(a, b, Observed(a, core), policy.maximumWeight, m.weightedReturn.value); }
  }

  /** Metrics are point-in-time: records learned or observed after the decision, or of another day, change no figure. */
  lemma LateRecordsAreIgnored(a: Known, b: Known, ordered: seq<Member>, policy: Policy, rnd: Rounding, m: Metrics)
    requires SameKnowledge(a, b)
    ensures IsMetrics(a, ordered, policy, rnd, m) <==> IsMetrics(b, ordered, policy, rnd, m)
  {
    hide IsMetrics, SameKnowledge, SameFigures;
    LateRecordsGiveNothing(a, b);
    SameBackwards(a, b);
    if IsMetrics(a, ordered, policy, rnd, m) { SameMetrics(a, b, ordered, policy, rnd, m); }
    if IsMetrics(b, ordered, policy, rnd, m) { SameMetrics(b, a, ordered, policy, rnd, m); }
  }

  lemma SameBackwards(a: Known, b: Known)
    requires SameFigures(a, b)
    ensures SameFigures(b, a)
  {
  }
}
