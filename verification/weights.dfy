/** packages/calculations/weights.py: capped weights by iterated redistribution, over exact reals. */
module Weights {
  import opened Results
  import opened Sorting

  datatype CapitalizationInput = CapitalizationInput(stockId: string, cap: real)

  datatype CappedWeight = CappedWeight(stockId: string, weight: real)

  datatype WeightError = CapOutOfRange | DuplicateStock | ResidualUnplaceable | IdsDiffer

  type Amounts = map<string, real>

  // ----- Sums over sets of ids -----

  ghost function Sum(ids: set<string>, m: Amounts): real
    requires ids <= m.Keys
    decreases ids
  {
    if ids == {} then 0.0 else
    var x :| x in ids;
    m[x] + Sum(ids - {x}, m)
  }

  lemma {:induction false} SumPick(ids: set<string>, m: Amounts, y: string)
    requires ids <= m.Keys && y in ids
    ensures Sum(ids, m) == m[y] + Sum(ids - {y}, m)
    decreases ids
  {
    var x :| x in ids && Sum(ids, m) == m[x] + Sum(ids - {x}, m);
    if x != y {
      SumPick(ids - {x}, m, y);
      SumPick(ids - {y}, m, x);
      assert ids - {x} - {y} == ids - {y} - {x};
    }
  }

  lemma {:induction false} SumSplit(a: set<string>, b: set<string>, m: Amounts)
    requires a !! b && a + b <= m.Keys
    ensures Sum(a + b, m) == Sum(a, m) + Sum(b, m)
    decreases a
  {
    if a == {} {
      assert a + b == b;
    } else {
      var x :| x in a;
      SumPick(a, m, x);
      SumPick(a + b, m, x);
      assert a + b - {x} == (a - {x}) + b;
      SumSplit(a - {x}, b, m);
    }
  }

  lemma {:induction false} SumCongruent(ids: set<string>, m: Amounts, n: Amounts)
    requires ids <= m.Keys && ids <= n.Keys && forall x | x in ids :: m[x] == n[x]
    ensures Sum(ids, m) == Sum(ids, n)
    decreases ids
  {
    if ids != {} {
      var x :| x in ids;
      SumPick(ids, m, x);
      SumPick(ids, n, x);
      SumCongruent(ids - {x}, m, n);
    }
  }

  lemma {:induction false} SumScaled(ids: set<string>, m: Amounts, n: Amounts, k: real)
    requires ids <= m.Keys && ids <= n.Keys && forall x | x in ids :: n[x] == k * m[x]
    ensures Sum(ids, n) == k * Sum(ids, m)
    decreases ids
  {
    if ids != {} {
      var x :| x in ids;
      SumPick(ids, m, x);
      SumPick(ids, n, x);
      SumScaled(ids - {x}, m, n, k);
      Distribute(k, m[x], Sum(ids - {x}, m));
      hide Sum;
    }
  }

  lemma Distribute(k: real, a: real, b: real)
    ensures k * (a + b) == k * a + k * b
  {
  }

  lemma {:induction false} SumConstant(ids: set<string>, m: Amounts, k: real)
    requires ids <= m.Keys && forall x | x in ids :: m[x] == k
    ensures Sum(ids, m) == |ids| as real * k
    decreases ids
  {
    if ids != {} {
      var x :| x in ids;
      SumPick(ids, m, x);
      SumConstant(ids - {x}, m, k);
    }
  }

  // Pointwise order carries over to sums, and equal sums leave no room for a strict difference.
  lemma {:induction false} SumMonotone(ids: set<string>, m: Amounts, n: Amounts)
    requires ids <= m.Keys && ids <= n.Keys && forall x | x in ids :: m[x] <= n[x]
    ensures Sum(ids, m) <= Sum(ids, n)
    ensures Sum(ids, m) == Sum(ids, n) ==> forall x | x in ids :: m[x] == n[x]
    decreases ids
  {
    if ids != {} {
      var x :| x in ids;
      SumPick(ids, m, x);
      SumPick(ids, n, x);
      SumMonotone(ids - {x}, m, n);
    }
  }

  // ----- What a capped weighting is -----

  function AtLevel(level: real, c: real): real { level * c }

  // A stock's share at a given level: proportional, cut off at the cap.
  function Portion(cap: real, level: real, c: real): real {
    if AtLevel(level, c) > cap then cap else AtLevel(level, c)
  }

  lemma PortionOrder(cap: real, a: real, b: real, c: real, d: real)
    requires 0.0 < a <= b && 0.0 < c <= d && cap > 0.0
    ensures 0.0 < Portion(cap, a, c) <= Portion(cap, b, d) <= cap
  {
    assert 0.0 < a * c <= a * d <= b * d;
  }

  /** w spreads exactly 1 over the ids in proportion to capitalisation, cut off at the cap. */
  ghost predicate CappedAt(caps: Amounts, cap: real, w: Amounts, level: real) {
    && level > 0.0
    && w.Keys == caps.Keys
    && (forall x | x in caps :: w[x] == Portion(cap, level, caps[x]))
    && Sum(w.Keys, w) == 1.0
  }

  ghost predicate PositiveCaps(caps: Amounts) { forall x | x in caps :: caps[x] > 0.0 }

  /** There is only one capped weighting: the level may differ, the weights may not. */
  lemma CappedWeightingUnique(caps: Amounts, cap: real, v: Amounts, a: real, w: Amounts, b: real)
    requires PositiveCaps(caps) && cap > 0.0 && CappedAt(caps, cap, v, a) && CappedAt(caps, cap, w, b)
    ensures v == w
  {
    hide Portion;
    if a <= b {
      forall x | x in caps ensures v[x] <= w[x] { PortionOrder(cap, a, b, caps[x], caps[x]); }
      SumMonotone(caps.Keys, v, w);
    } else {
      forall x | x in caps ensures w[x] <= v[x] { PortionOrder(cap, b, a, caps[x], caps[x]); }
      SumMonotone(caps.Keys, w, v);
    }
  }

  /** Within one weighting a larger capitalisation never gets less, and every weight is in (0, cap]. */
  lemma CappedWeightsFollowCaps(caps: Amounts, cap: real, w: Amounts, level: real)
    requires PositiveCaps(caps) && cap > 0.0 && CappedAt(caps, cap, w, level)
    ensures forall x | x in caps :: 0.0 < w[x] <= cap
    ensures forall x, y | x in caps && y in caps && caps[x] <= caps[y] :: w[x] <= w[y]
  {
    hide Portion;
    forall x, y | x in caps && y in caps && caps[x] <= caps[y] ensures 0.0 < w[x] <= w[y] <= cap {
      PortionOrder(cap, level, level, caps[x], caps[y]);
    }
    forall x | x in caps ensures 0.0 < w[x] <= cap { PortionOrder(cap, level, level, caps[x], caps[x]); }
  }

  /** Raising one stock's capitalisation never lowers its weight and never raises another's. */
  lemma RaisingOneCap(caps: Amounts, k: string, raised: real, cap: real, v: Amounts, a: real, w: Amounts, b: real)
    requires PositiveCaps(caps) && k in caps && raised >= caps[k] && cap > 0.0
    requires CappedAt(caps, cap, v, a) && CappedAt(caps[k := raised], cap, w, b)
    ensures w[k] >= v[k]
    ensures forall x | x in caps && x != k :: w[x] <= v[x]
  {
    hide Portion;
    var others := caps.Keys - {k};
    assert caps[k := raised].Keys == caps.Keys;
    SumPick(caps.Keys, v, k);
    SumPick(caps.Keys, w, k);
    if b <= a {
      forall x | x in others ensures w[x] <= v[x] { PortionOrder(cap, b, a, caps[x], caps[x]); }
      SumMonotone(others, w, v);
    } else {
      forall x | x in caps ensures v[x] <= w[x] { PortionOrder(cap, a, b, caps[x], caps[k := raised][x]); }
      SumMonotone(caps.Keys, v, w);
    }
  }

  // ----- One round of the redistribution loop -----

  ghost function Scaled(caps: Amounts, level: real): (m: Amounts)
    ensures m.Keys == caps.Keys
  {
    map x | x in caps :: AtLevel(level, caps[x])
  }

  ghost function AllAt(ids: set<string>, cap: real): Amounts {
    map x | x in ids :: cap
  }

  lemma {:induction false} SumPositive(ids: set<string>, m: Amounts)
    requires ids != {} && ids <= m.Keys && forall x | x in ids :: m[x] > 0.0
    ensures Sum(ids, m) > 0.0
    decreases ids
  {
    var x :| x in ids;
    SumPick(ids, m, x);
    if ids != {x} {
      SumPositive(ids - {x}, m);
    } else {
      assert ids - {x} == {};
    }
  }

  // What the loop knows: the capped ids hold the cap, each would overfill at the current level,
  // and at that level the remaining ids would take up exactly the mass that is left.
  ghost predicate Round(caps: Amounts, cap: real, remaining: set<string>, fixed: Amounts, level: real) {
    && PositiveCaps(caps) && cap > 0.0 && level > 0.0
    && Sum(caps.Keys, AllAt(caps.Keys, cap)) >= 1.0
    && remaining != {} && remaining !! fixed.Keys && remaining + fixed.Keys == caps.Keys
    && (forall x | x in fixed :: fixed[x] == cap < Scaled(caps, level)[x])
    && Sum(remaining, Scaled(caps, level)) == 1.0 - Sum(fixed.Keys, fixed)
  }

  lemma LevelOrder(a: real, b: real, total: real)
    requires total > 0.0 && a * total <= b * total
    ensures a <= b
  {
  }

  lemma ScaledRises(caps: Amounts, a: real, b: real, x: string)
    requires PositiveCaps(caps) && a <= b && x in caps
    ensures Scaled(caps, a)[x] <= Scaled(caps, b)[x]
  {
  }

  /** A round can never overfill every remaining id: the cap leaves room for all of them together. */
  lemma SomeIdFits(caps: Amounts, cap: real, remaining: set<string>, fixed: Amounts, level: real, over: set<string>)
    requires Round(caps, cap, remaining, fixed, level)
    requires over <= remaining && forall x | x in over :: Scaled(caps, level)[x] > cap
    ensures over != remaining
  {
    hide Scaled;
    var all := AllAt(caps.Keys, cap);
    SumSplit(remaining, fixed.Keys, all);
    SumCongruent(fixed.Keys, fixed, all);
    if over == remaining {
      SumStrict(over, all, Scaled(caps, level));
    }
  }

  lemma SumStrict(ids: set<string>, m: Amounts, n: Amounts)
    requires ids != {} && ids <= m.Keys && ids <= n.Keys && forall x | x in ids :: m[x] < n[x]
    ensures Sum(ids, m) < Sum(ids, n)
  {
    SumMonotone(ids, m, n);
    var x :| x in ids;
    assert m[x] != n[x];
  }

  // The mass left after capping `over` still covers what the other ids take at the old level.
  lemma MassLeft(caps: Amounts, cap: real, remaining: set<string>, fixed: Amounts, level: real,
                 over: set<string>, fixed': Amounts)
    requires Round(caps, cap, remaining, fixed, level)
    requires over == set x | x in remaining && Scaled(caps, level)[x] > cap
    requires fixed'.Keys == fixed.Keys + over && forall x | x in fixed' :: fixed'[x] == cap
    ensures remaining - over != {}
    ensures Sum(remaining - over, Scaled(caps, level)) <= 1.0 - Sum(fixed'.Keys, fixed')
  {
    hide Scaled;
    var rest, now := remaining - over, Scaled(caps, level);
    SomeIdFits(caps, cap, remaining, fixed, level, over);
    SumSplit(over, rest, now);
    assert over + rest == remaining;
    SumSplit(fixed.Keys, over, fixed');
    SumCongruent(fixed.Keys, fixed, fixed');
    SumMonotone(over, fixed', now);
  }

  /** Capping the overfilled ids leaves at least one id and a positive mass, and only raises the level. */
  lemma NextRound(caps: Amounts, cap: real, remaining: set<string>, fixed: Amounts, level: real,
                  over: set<string>, fixed': Amounts, level': real)
    requires Round(caps, cap, remaining, fixed, level)
    requires over == set x | x in remaining && Scaled(caps, level)[x] > cap
    requires fixed'.Keys == fixed.Keys + over && forall x | x in fixed' :: fixed'[x] == cap
    requires Sum(remaining - over, Scaled(caps, level')) == 1.0 - Sum(fixed'.Keys, fixed')
    ensures level <= level' && Round(caps, cap, remaining - over, fixed', level')
  {
    hide Scaled, Sum, AllAt;
    var rest := remaining - over;
    MassLeft(caps, cap, remaining, fixed, level, over, fixed');
    LevelRises(caps, rest, level, level');
    assert rest !! fixed'.Keys && rest + fixed'.Keys == caps.Keys;
    forall x | x in fixed' ensures cap < Scaled(caps, level')[x] {
      ScaledRises(caps, level, level', x);
      assert x in fixed || x in over;
    }
  }

  lemma ScaledTotal(caps: Amounts, ids: set<string>, level: real)
    requires ids <= caps.Keys
    ensures Sum(ids, Scaled(caps, level)) == level * Sum(ids, caps)
  {
    SumScaled(ids, caps, Scaled(caps, level), level);
  }

  lemma LevelRises(caps: Amounts, ids: set<string>, a: real, b: real)
    requires PositiveCaps(caps) && ids != {} && ids <= caps.Keys
    requires Sum(ids, Scaled(caps, a)) <= Sum(ids, Scaled(caps, b))
    ensures a <= b
  {
    ScaledTotal(caps, ids, a);
    ScaledTotal(caps, ids, b);
    SumPositive(ids, caps);
    LevelOrder(a, b, Sum(ids, caps));
  }

  /** When nothing overfills any more, the fixed and the proportional weights form the capped weighting. */
  lemma LastRound(caps: Amounts, cap: real, remaining: set<string>, fixed: Amounts, level: real, w: Amounts)
    requires Round(caps, cap, remaining, fixed, level)
    requires w.Keys == caps.Keys && forall x | x in fixed :: w[x] == cap
    requires forall x | x in remaining :: w[x] == Scaled(caps, level)[x] <= cap
    ensures CappedAt(caps, cap, w, level)
  {
    SumSplit(fixed.Keys, remaining, w);
    assert fixed.Keys + remaining == w.Keys;
    SumCongruent(fixed.Keys, fixed, w);
    SumCongruent(remaining, Scaled(caps, level), w);
  }

  // ----- The inputs as a table, and the answer as a list -----

  ghost predicate DistinctIds(inputs: seq<CapitalizationInput>) {
    forall i, j | 0 <= i < j < |inputs| :: inputs[i].stockId != inputs[j].stockId
  }

  function CapsOf(inputs: seq<CapitalizationInput>): Amounts {
    if inputs == [] then map[] else CapsOf(inputs[..|inputs| - 1])[inputs[|inputs| - 1].stockId := inputs[|inputs| - 1].cap]
  }

  function Max(a: real, b: real): real { if a >= b then a else b }

  // The configured cap, or 1/n when n stocks could not otherwise hold the whole mass.
  function EffectiveCap(configured: real, n: nat): real
    requires n > 0
  {
    Max(configured, 1.0 / n as real)
  }

  lemma {:induction false} CapsOfLists(inputs: seq<CapitalizationInput>)
    requires DistinctIds(inputs)
    ensures CapsOf(inputs).Keys == set i | 0 <= i < |inputs| :: inputs[i].stockId
    ensures forall i | 0 <= i < |inputs| :: CapsOf(inputs)[inputs[i].stockId] == inputs[i].cap
    ensures |CapsOf(inputs)| == |inputs|
  {
    if inputs != [] {
      var front, last := inputs[..|inputs| - 1], inputs[|inputs| - 1];
      CapsOfLists(front);
      assert forall i | 0 <= i < |front| :: front[i] == inputs[i];
      assert CapsOf(inputs) == CapsOf(front)[last.stockId := last.cap];
      assert last.stockId !in CapsOf(front);
    }
  }

  lemma CapsIncluded(a: seq<CapitalizationInput>, b: seq<CapitalizationInput>)
    requires (forall x | x in a :: x in b) && DistinctIds(a) && DistinctIds(b)
    ensures forall id | id in CapsOf(a) :: id in CapsOf(b) && CapsOf(a)[id] == CapsOf(b)[id]
  {
    CapsOfLists(a);
    CapsOfLists(b);
    forall id | id in CapsOf(a) ensures id in CapsOf(b) && CapsOf(a)[id] == CapsOf(b)[id] {
      var i :| 0 <= i < |a| && a[i].stockId == id;
      assert a[i] in b;
      var j :| 0 <= j < |b| && b[j] == a[i];
    }
  }

  lemma CapsOfPermutation(a: seq<CapitalizationInput>, b: seq<CapitalizationInput>)
    requires multiset(a) == multiset(b) && DistinctIds(a) && DistinctIds(b)
    ensures CapsOf(a) == CapsOf(b) && |a| == |b|
  {
    assert |multiset(a)| == |multiset(b)|;
    forall x ensures x in a <==> x in b { assert x in a <==> x in multiset(a); }
    CapsIncluded(a, b);
    CapsIncluded(b, a);
  }

  function IdList(inputs: seq<CapitalizationInput>): seq<string> {
    if inputs == [] then [] else IdList(inputs[..|inputs| - 1]) + [inputs[|inputs| - 1].stockId]
  }

  lemma {:induction false} IdListAt(inputs: seq<CapitalizationInput>)
    ensures |IdList(inputs)| == |inputs| && forall i | 0 <= i < |inputs| :: IdList(inputs)[i] == inputs[i].stockId
  {
    if inputs != [] { IdListAt(inputs[..|inputs| - 1]); }
  }

  lemma IdListDistinct(inputs: seq<CapitalizationInput>)
    requires DistinctIds(inputs)
    ensures Distinct(IdList(inputs)) && forall x :: x in IdList(inputs) <==> x in CapsOf(inputs)
  {
    IdListAt(inputs);
    CapsOfLists(inputs);
    hide CapsOf, IdList;
    var ids := IdList(inputs);
    forall x ensures x in ids <==> x in CapsOf(inputs) {
      if x in CapsOf(inputs) {
        var i :| 0 <= i < |inputs| && inputs[i].stockId == x;
        assert ids[i] == x;
      }
    }
  }

  lemma SameIdsSameMultiset(a: seq<string>, b: seq<string>)
    requires Distinct(a) && Distinct(b) && forall x :: x in a <==> x in b
    ensures multiset(a) == multiset(b)
  {
    MultiplicityOne(a);
    MultiplicityOne(b);
    forall x ensures multiset(a)[x] == multiset(b)[x] {
      assert x in a <==> x in multiset(a);
      assert x in b <==> x in multiset(b);
    }
  }

  function InOrder(ids: seq<string>, w: Amounts): seq<CappedWeight>
    requires forall x | x in ids :: x in w
  {
    seq(|ids|, i requires 0 <= i < |ids| => CappedWeight(ids[i], w[ids[i]]))
  }

  /** out lists the one capped weighting of the inputs in stock-id order. */
  ghost predicate IsCappedWeighting(inputs: seq<CapitalizationInput>, configured: real, out: seq<CappedWeight>) {
    && inputs != []
    && exists w, level :: CappedAt(CapsOf(inputs), EffectiveCap(configured, |inputs|), w, level)
         && var ids := Sort(IdList(inputs), StrLe);
            (forall x | x in ids :: x in w) && out == InOrder(ids, w)
  }

  /** The answer depends on the set of inputs alone: permuting them changes nothing in it. */
  lemma InputOrderIrrelevant(a: seq<CapitalizationInput>, b: seq<CapitalizationInput>, configured: real,
                             v: seq<CappedWeight>, w: seq<CappedWeight>)
    requires multiset(a) == multiset(b) && DistinctIds(a) && DistinctIds(b)
    requires configured > 0.0 && forall x | x in a :: x.cap > 0.0
    requires IsCappedWeighting(a, configured, v) && IsCappedWeighting(b, configured, w)
    ensures v == w
  {
    CapsOfPermutation(a, b);
    CapsArePositive(a);
    SameSortedIds(a, b);
    var caps, cap := CapsOf(a), EffectiveCap(configured, |a|);
    var p, k :| CappedAt(caps, cap, p, k) && (forall x | x in Sort(IdList(a), StrLe) :: x in p)
                && v == InOrder(Sort(IdList(a), StrLe), p);
    var q, l :| CappedAt(caps, cap, q, l) && (forall x | x in Sort(IdList(b), StrLe) :: x in q)
                && w == InOrder(Sort(IdList(b), StrLe), q);
    CappedWeightingUnique(caps, cap, p, k, q, l);
  }

  lemma CapsArePositive(inputs: seq<CapitalizationInput>)
    requires DistinctIds(inputs) && forall x | x in inputs :: x.cap > 0.0
    ensures PositiveCaps(CapsOf(inputs))
  {
    CapsOfLists(inputs);
    forall id | id in CapsOf(inputs) ensures CapsOf(inputs)[id] > 0.0 {
      var i :| 0 <= i < |inputs| && inputs[i].stockId == id;
      assert inputs[i] in inputs;
    }
  }

  lemma SameSortedIds(a: seq<CapitalizationInput>, b: seq<CapitalizationInput>)
    requires multiset(a) == multiset(b) && DistinctIds(a) && DistinctIds(b)
    ensures Sort(IdList(a), StrLe) == Sort(IdList(b), StrLe)
  {
    hide CapsOf, IdList, StrLe, Sort, SortedBy, Distinct, DistinctIds;
    CapsOfPermutation(a, b);
    IdListDistinct(a);
    IdListDistinct(b);
    SameIdsSameMultiset(IdList(a), IdList(b));
    StrLeIsTotalOrder();
    SortCorrect(IdList(a), StrLe);
    SortCorrect(IdList(b), StrLe);
    SortedUnique(Sort(IdList(a), StrLe), Sort(IdList(b), StrLe), StrLe);
  }

  // ----- The algorithm -----

  ghost function Elements(ids: seq<string>): set<string> { set x | x in ids }

  method SumValues(ids: seq<string>, m: Amounts) returns (total: real)
    requires Distinct(ids) && Elements(ids) <= m.Keys
    ensures total == Sum(Elements(ids), m)
  {
    total := 0.0;
    for i := 0 to |ids|
      invariant total == Sum(Elements(ids[..i]), m)
    {
      assert ids[..i + 1] == ids[..i] + [ids[i]];
      assert ids[i] !in ids[..i];
      assert Elements(ids[..i + 1]) - {ids[i]} == Elements(ids[..i]);
      SumPick(Elements(ids[..i + 1]), m, ids[i]);
      total := total + m[ids[i]];
    }
    assert ids[..|ids|] == ids;
  }

  method Total(m: Amounts) returns (total: real)
    ensures total == Sum(m.Keys, m)
  {
    var keys := m.Keys;
    total := 0.0;
    while keys != {}
      invariant keys <= m.Keys && total + Sum(keys, m) == Sum(m.Keys, m)
      decreases keys
    {
      var k :| k in keys;
      SumPick(keys, m, k);
      total := total + m[k];
      keys := keys - {k};
    }
  }

  method SortedKeys(m: Amounts) returns (ids: seq<string>)
    ensures Distinct(ids) && Elements(ids) == m.Keys
    ensures SortedBy(ids, StrLe)
  {
    var keys := m.Keys;
    var found: seq<string> := [];
    while keys != {}
      invariant keys !! Elements(found) && keys + Elements(found) == m.Keys
      invariant Distinct(found)
      decreases keys
    {
      var k :| k in keys;
      keys := keys - {k};
      found := found + [k];
    }
    ids := Sort(found, StrLe);
    SortStrings(found);
  }

  lemma SortStrings(s: seq<string>)
    requires Distinct(s)
    ensures SortedBy(Sort(s, StrLe), StrLe) && Distinct(Sort(s, StrLe)) && Elements(Sort(s, StrLe)) == Elements(s)
  {
    assert TotalPreorder(StrLe) by { StrLeIsTotalOrder(); }
    SortCorrect(s, StrLe);
    DistinctOfMultiset(s, Sort(s, StrLe));
  }

  // Where the rounding residual may go without leaving [0, cap].
  predicate Takes(w: Amounts, residual: real, cap: real, x: string) {
    x in w && if residual > 0.0 then w[x] + residual <= cap else w[x] + residual >= 0.0
  }

  // The first id that can take the residual took all of it, so the sum is exactly 1; or none can, and it is refused.
  ghost predicate ResidualSettled(weights: Amounts, cap: real, r: Result<Amounts, WeightError>) {
    var residual := 1.0 - Sum(weights.Keys, weights);
    if residual == 0.0 then r == Success(weights)
    else if r.Failure? then r.error == ResidualUnplaceable && forall x | x in weights :: !Takes(weights, residual, cap, x)
    else Sum(r.value.Keys, r.value) == 1.0 && TookResidual(weights, residual, cap, r.value)
  }

  ghost predicate TookResidual(weights: Amounts, residual: real, cap: real, after: Amounts) {
    exists x :: Takes(weights, residual, cap, x) && (forall y | Takes(weights, residual, cap, y) :: StrLe(x, y))
                && after == weights[x := weights[x] + residual]
  }

  /** For any starting weights: the first id that can take the residual takes all of it, or nothing changes. */
  method ApplyResidual(weights: Amounts, cap: real) returns (r: Result<Amounts, WeightError>)
    ensures ResidualSettled(weights, cap, r)
  {
    hide Sum, StrLe, SortedBy, Distinct, Takes, TookResidual;
    var ordered := SortedKeys(weights);
    var total := Total(weights);
    var residual := 1.0 - total;
    if residual == 0.0 { return Success(weights); }
    var i := FindTaker(ordered, weights, residual, cap);
    if i == |ordered| {
      NobodyTakes(ordered, weights, residual, cap);
      return Failure(ResidualUnplaceable);
    }
    FirstTaker(ordered, weights, residual, cap, i);
    Taken(weights, residual, cap, ordered[i]);
    return Success(weights[ordered[i] := weights[ordered[i]] + residual]);
  }

  lemma Taken(weights: Amounts, residual: real, cap: real, x: string)
    requires residual == 1.0 - Sum(weights.Keys, weights)
    requires Takes(weights, residual, cap, x) && forall y | Takes(weights, residual, cap, y) :: StrLe(x, y)
    ensures var after := weights[x := weights[x] + residual];
            Sum(after.Keys, after) == 1.0 && TookResidual(weights, residual, cap, after)
  {
    hide Sum, StrLe;
    ResidualCompletes(weights, x);
  }

  method FindTaker(ordered: seq<string>, weights: Amounts, residual: real, cap: real) returns (i: nat)
    ensures i <= |ordered| && (forall j | 0 <= j < i :: !Takes(weights, residual, cap, ordered[j]))
    ensures i < |ordered| ==> Takes(weights, residual, cap, ordered[i]) && ordered[i] in weights
  {
    i := 0;
    while i < |ordered|
      invariant i <= |ordered| && forall j | 0 <= j < i :: !Takes(weights, residual, cap, ordered[j])
    {
      if Takes(weights, residual, cap, ordered[i]) { return; }
      i := i + 1;
    }
  }

  lemma NobodyTakes(ordered: seq<string>, weights: Amounts, residual: real, cap: real)
    requires Elements(ordered) == weights.Keys && forall j | 0 <= j < |ordered| :: !Takes(weights, residual, cap, ordered[j])
    ensures forall x | x in weights :: !Takes(weights, residual, cap, x)
  {
    forall x | x in weights ensures !Takes(weights, residual, cap, x) {
      assert x in Elements(ordered);
      var j :| 0 <= j < |ordered| && ordered[j] == x;
    }
  }

  lemma ResidualCompletes(w: Amounts, x: string)
    requires x in w
    ensures var after := w[x := w[x] + (1.0 - Sum(w.Keys, w))]; after.Keys == w.Keys && Sum(after.Keys, after) == 1.0
  {
    var after := w[x := w[x] + (1.0 - Sum(w.Keys, w))];
    assert after.Keys == w.Keys;
    SumPick(w.Keys, w, x);
    SumPick(w.Keys, after, x);
    SumCongruent(w.Keys - {x}, w, after);
  }

  lemma FirstTaker(ordered: seq<string>, w: Amounts, residual: real, cap: real, i: nat)
    requires SortedBy(ordered, StrLe) && Elements(ordered) == w.Keys && i < |ordered|
    requires forall j | 0 <= j < i :: !Takes(w, residual, cap, ordered[j])
    ensures forall y | Takes(w, residual, cap, y) :: StrLe(ordered[i], y)
  {
    StrLeTotal(ordered[i], ordered[i]);
    forall y | Takes(w, residual, cap, y) ensures StrLe(ordered[i], y) {
      assert y in Elements(ordered);
      var j :| 0 <= j < |ordered| && ordered[j] == y;
    }
  }

  /** Weights within [0, cap] stay there, and a residual of either sign changes at most one of them. */
  lemma ResidualStaysInRange(weights: Amounts, cap: real, r: Result<Amounts, WeightError>)
    requires ResidualSettled(weights, cap, r) && r.Success? && forall x | x in weights :: 0.0 <= weights[x] <= cap
    ensures r.value.Keys == weights.Keys && forall x | x in weights :: 0.0 <= r.value[x] <= cap
    ensures forall x, y | x in weights && y in weights && r.value[x] != weights[x] && r.value[y] != weights[y] :: x == y
  {
    hide Sum, StrLe;
  }

  predicate AllDifferent(ids: seq<string>) { forall i, j | 0 <= i < j < |ids| :: ids[i] != ids[j] }

  lemma SortedIdList(inputs: seq<CapitalizationInput>)
    ensures var ids := Sort(IdList(inputs), StrLe);
            && |ids| == |inputs| && (forall x :: x in ids <==> x in IdList(inputs))
            && (AllDifferent(ids) <==> DistinctIds(inputs))
  {
    var list := IdList(inputs);
    var ids := Sort(list, StrLe);
    assert TotalPreorder(StrLe) by { StrLeIsTotalOrder(); }
    SortCorrect(list, StrLe);
    IdListAt(inputs);
    if Distinct(list) { DistinctOfMultiset(list, ids); }
    if Distinct(ids) { DistinctOfMultiset(ids, list); }
  }

  lemma SortedIdsAreKeys(inputs: seq<CapitalizationInput>)
    requires DistinctIds(inputs)
    ensures Elements(Sort(IdList(inputs), StrLe)) == CapsOf(inputs).Keys
  {
    SortedIdList(inputs);
    CapsOfLists(inputs);
    IdListAt(inputs);
    forall x ensures x in IdList(inputs) <==> x in CapsOf(inputs) {
      if x in CapsOf(inputs) {
        var i :| 0 <= i < |inputs| && inputs[i].stockId == x;
        assert IdList(inputs)[i] == x;
      }
    }
  }

  // The ids whose proposed weight exceeds the cap, and the others, each in the order given.
  method SplitOver(ids: seq<string>, proposed: Amounts, cap: real) returns (over: seq<string>, rest: seq<string>)
    requires Distinct(ids) && Elements(ids) <= proposed.Keys
    ensures Distinct(over) && Elements(over) == set x | x in Elements(ids) && proposed[x] > cap
    ensures Distinct(rest) && Elements(rest) == Elements(ids) - Elements(over)
    ensures |over| + |rest| == |ids|
  {
    over, rest := [], [];
    for i := 0 to |ids|
      invariant |over| + |rest| == i
      invariant forall x | x in over :: x in ids[..i] && proposed[x] > cap
      invariant forall x | x in rest :: x in ids[..i] && !(proposed[x] > cap)
      invariant forall j | 0 <= j < i :: ids[j] in over || ids[j] in rest
      invariant Distinct(over) && Distinct(rest)
    {
      assert ids[i] !in ids[..i];
      if proposed[ids[i]] > cap { over := over + [ids[i]]; } else { rest := rest + [ids[i]]; }
    }
    assert ids[..|ids|] == ids;
  }

  lemma FirstRound(caps: Amounts, cap: real, level: real)
    requires PositiveCaps(caps) && cap > 0.0 && caps.Keys != {}
    requires Sum(caps.Keys, AllAt(caps.Keys, cap)) >= 1.0
    requires Sum(caps.Keys, caps) > 0.0 && level == 1.0 / Sum(caps.Keys, caps)
    ensures Round(caps, cap, caps.Keys, map[], level)
  {
    ScaledTotal(caps, caps.Keys, level);
  }

  // A stock's proportional part of a mass.
  function Proposal(mass: real, c: real, total: real): real
    requires total > 0.0
  {
    mass * c / total
  }

  lemma ProposalAtLevel(mass: real, c: real, total: real, level: real)
    requires total > 0.0 && level == mass / total
    ensures Proposal(mass, c, total) == AtLevel(level, c)
  {
    assert level * total == mass;
    assert mass * c == level * c * total;
  }

  // Proposing mass * cap / total is the same as scaling by the level mass / total.
  lemma ProposedIsScaled(caps: Amounts, ids: set<string>, mass: real, total: real, level: real)
    requires ids <= caps.Keys && total == Sum(ids, caps) && total > 0.0
    requires level == mass / total
    ensures Sum(ids, Scaled(caps, level)) == mass
    ensures forall x | x in ids :: Proposal(mass, caps[x], total) == Scaled(caps, level)[x]
  {
    hide Proposal, AtLevel;
    ScaledTotal(caps, ids, level);
    LevelTimesTotal(mass, total, level);
    forall x | x in ids ensures Proposal(mass, caps[x], total) == Scaled(caps, level)[x] {
      ProposalAtLevel(mass, caps[x], total, level);
    }
  }

  lemma LevelTimesTotal(mass: real, total: real, level: real)
    requires total > 0.0 && level == mass / total
    ensures level * total == mass
  {
  }

  lemma SameLevel(caps: Amounts, ids: set<string>, a: real, b: real)
    requires PositiveCaps(caps) && ids != {} && ids <= caps.Keys
    requires Sum(ids, Scaled(caps, a)) == Sum(ids, Scaled(caps, b))
    ensures a == b
  {
    LevelRises(caps, ids, a, b);
    LevelRises(caps, ids, b, a);
  }

  /** The cap-and-redistribute loop ends on the capped weighting. */
  method Redistribute(caps: Amounts, cap: real, stockIds: seq<string>) returns (fixed: Amounts)
    requires PositiveCaps(caps) && cap > 0.0 && stockIds != [] && Distinct(stockIds) && Elements(stockIds) == caps.Keys
    requires Sum(caps.Keys, AllAt(caps.Keys, cap)) >= 1.0
    ensures exists level :: CappedAt(caps, cap, fixed, level)
  {
    hide Round, Scaled, CappedAt, Proposal, AllAt;
    var remaining := stockIds;
    fixed := map[];
    assert stockIds[0] in Elements(stockIds);
    SumPositive(caps.Keys, caps);
    ghost var level := 1.0 / Sum(caps.Keys, caps);
    FirstRound(caps, cap, level);
    while remaining != []
      invariant Distinct(remaining)
      invariant Round(caps, cap, Elements(remaining), fixed, level)
      decreases |remaining|
    {
      RoundParts(caps, cap, Elements(remaining), fixed, level);
      var used := Total(fixed);
      var mass := 1.0 - used;
      var capitalization := SumValues(remaining, caps);
      CurrentProposal(caps, cap, Elements(remaining), fixed, level, mass, capitalization);
      var proposed: Amounts := map x | x in remaining :: Proposal(mass, caps[x], capitalization);
      var over, rest := SplitOver(remaining, proposed, cap);
      if over == [] {
        forall x | x in Elements(remaining) ensures proposed[x] <= cap { assert x !in Elements(over); }
        LastRound(caps, cap, Elements(remaining), fixed, level, fixed + proposed);
        return fixed + proposed;
      }
      var capped := fixed + (map x | x in over :: cap);
      level := RaiseLevel(caps, cap, Elements(remaining), fixed, level, Elements(over), capped);
      fixed := capped;
      remaining := rest;
    }
    RoundParts(caps, cap, Elements(remaining), fixed, level);
  }

  lemma RoundParts(caps: Amounts, cap: real, remaining: set<string>, fixed: Amounts, level: real)
    requires Round(caps, cap, remaining, fixed, level)
    ensures remaining != {} && remaining !! fixed.Keys && remaining + fixed.Keys == caps.Keys
    ensures forall x | x in fixed :: fixed[x] == cap
    ensures Sum(remaining, caps) > 0.0
  {
    SumPositive(remaining, caps);
  }

  // The weights the loop proposes are the current level's.
  lemma CurrentProposal(caps: Amounts, cap: real, ids: set<string>, fixed: Amounts, level: real, mass: real, total: real)
    requires Round(caps, cap, ids, fixed, level)
    requires mass == 1.0 - Sum(fixed.Keys, fixed) && total == Sum(ids, caps) && total > 0.0
    ensures forall x | x in ids :: Proposal(mass, caps[x], total) == Scaled(caps, level)[x]
  {
    hide Scaled;
    ProposedIsScaled(caps, ids, mass, total, mass / total);
    SameLevel(caps, ids, level, mass / total);
  }

  lemma RaiseLevel(caps: Amounts, cap: real, remaining: set<string>, fixed: Amounts, level: real,
                   over: set<string>, capped: Amounts) returns (level': real)
    requires Round(caps, cap, remaining, fixed, level)
    requires over == set x | x in remaining && Scaled(caps, level)[x] > cap
    requires capped.Keys == fixed.Keys + over && forall x | x in capped :: capped[x] == cap
    ensures Round(caps, cap, remaining - over, capped, level')
  {
    hide Scaled;
    SomeIdFits(caps, cap, remaining, fixed, level, over);
    var rest := remaining - over;
    SumPositive(rest, caps);
    var mass, total := 1.0 - Sum(capped.Keys, capped), Sum(rest, caps);
    level' := mass / total;
    ProposedIsScaled(caps, rest, mass, total, level');
    NextRound(caps, cap, remaining, fixed, level, over, capped, level');
  }

  // n stocks at the effective cap can hold the whole mass.
  lemma CapSuffices(ids: set<string>, configured: real)
    requires ids != {} && 0.0 < configured <= 1.0
    ensures Sum(ids, AllAt(ids, EffectiveCap(configured, |ids|))) >= 1.0
  {
    var cap := EffectiveCap(configured, |ids|);
    SumConstant(ids, AllAt(ids, cap), cap);
    InverseShares(|ids| as real, 1.0 / |ids| as real, cap);
  }

  lemma InverseShares(n: real, share: real, cap: real)
    requires n > 0.0 && share == 1.0 / n && cap >= share
    ensures n * cap >= 1.0
  {
    assert n * share == 1.0;
    Product(n, cap - share);
    assert n * cap == n * share + n * (cap - share);
  }

  lemma Product(a: real, b: real)
    requires a >= 0.0 && b >= 0.0
    ensures a * b >= 0.0
  {
  }

  method CalculateCappedWeights(inputs: seq<CapitalizationInput>, configured: real)
    returns (r: Result<seq<CappedWeight>, WeightError>)
    requires forall x | x in inputs :: x.cap > 0.0
    ensures !(0.0 < configured <= 1.0) ==> r == Failure(CapOutOfRange)
    ensures 0.0 < configured <= 1.0 && inputs == [] ==> r == Success([])
    ensures 0.0 < configured <= 1.0 && !DistinctIds(inputs) ==> r == Failure(DuplicateStock)
    ensures 0.0 < configured <= 1.0 && inputs != [] && DistinctIds(inputs) ==>
              r.Success? && IsCappedWeighting(inputs, configured, r.value)
  {
    if !(0.0 < configured <= 1.0) { return Failure(CapOutOfRange); }
    if inputs == [] { return Success([]); }
    var stockIds := Sort(IdList(inputs), StrLe);
    SortedIdList(inputs);
    if !AllDifferent(stockIds) { return Failure(DuplicateStock); }
    var caps := CapsOf(inputs);
    var cap := EffectiveCap(configured, |inputs|);
    RoomForAll(inputs, configured);
    var fixed := Redistribute(caps, cap, stockIds);
    var settled := ApplyResidual(fixed, cap);
    return Success(InOrder(stockIds, settled.value));
  }

  lemma RoomForAll(inputs: seq<CapitalizationInput>, configured: real)
    requires inputs != [] && DistinctIds(inputs) && 0.0 < configured <= 1.0 && forall x | x in inputs :: x.cap > 0.0
    ensures var caps, cap, ids := CapsOf(inputs), EffectiveCap(configured, |inputs|), Sort(IdList(inputs), StrLe);
            && PositiveCaps(caps) && cap > 0.0 && ids != [] && Distinct(ids) && Elements(ids) == caps.Keys
            && Sum(caps.Keys, AllAt(caps.Keys, cap)) >= 1.0
  {
    hide *;
    CapsArePositive(inputs);
    IdsForAll(inputs);
    EffectiveIsPositive(configured, |inputs|);
    CapSuffices(CapsOf(inputs).Keys, configured);
  }

  lemma EffectiveIsPositive(configured: real, n: nat)
    requires n > 0 && configured > 0.0
    ensures EffectiveCap(configured, n) > 0.0
  {
  }

  lemma IdsForAll(inputs: seq<CapitalizationInput>)
    requires inputs != [] && DistinctIds(inputs)
    ensures var caps, ids := CapsOf(inputs), Sort(IdList(inputs), StrLe);
            ids != [] && Distinct(ids) && Elements(ids) == caps.Keys && |caps.Keys| == |inputs| && caps.Keys != {}
  {
    SortedIdList(inputs);
    SortedIdsAreKeys(inputs);
    CapsOfLists(inputs);
    hide Sort, StrLe, CapsOf, IdList;
    assert inputs[0].stockId in CapsOf(inputs);
  }

  // ----- The weighted return -----

  function IdsOf(weights: seq<CappedWeight>): set<string> { set w | w in weights :: w.stockId }

  function Dot(weights: seq<CappedWeight>, returns_: Amounts): real
    requires IdsOf(weights) <= returns_.Keys
  {
    if weights == [] then 0.0 else
    var front, last := weights[..|weights| - 1], weights[|weights| - 1];
    assert last in weights && IdsOf(front) <= IdsOf(weights);
    Dot(front, returns_) + AtLevel(last.weight, returns_[last.stockId])
  }

  method CalculateWeightedReturn(weights: seq<CappedWeight>, returns_: Amounts) returns (r: Result<real, WeightError>)
    ensures r.Failure? <==> IdsOf(weights) != returns_.Keys
    ensures r.Success? ==> r.value == Dot(weights, returns_)
  {
    if IdsOf(weights) != returns_.Keys { return Failure(IdsDiffer); }
    var total := 0.0;
    for i := 0 to |weights|
      invariant IdsOf(weights[..i]) <= returns_.Keys
      invariant total == Dot(weights[..i], returns_)
    {
      assert weights[i] in weights && weights[..i + 1][..i] == weights[..i];
      assert forall w | w in weights[..i + 1] :: w in weights;
      total := total + AtLevel(weights[i].weight, returns_[weights[i].stockId]);
    }
    assert weights[..|weights|] == weights;
    return Success(total);
  }

  ghost function Products(w: Amounts, returns_: Amounts): Amounts
    requires w.Keys <= returns_.Keys
  {
    map x | x in w :: AtLevel(w[x], returns_[x])
  }

  lemma InOrderIds(ids: seq<string>, w: Amounts)
    requires Elements(ids) <= w.Keys
    ensures (forall x | x in ids :: x in w) && IdsOf(InOrder(ids, w)) == Elements(ids)
  {
    var out := InOrder(ids, w);
    forall x ensures x in IdsOf(out) <==> x in Elements(ids) {
      if x in ids {
        var i :| 0 <= i < |ids| && ids[i] == x;
        assert out[i] in out && out[i].stockId == x;
      }
    }
  }

  lemma InOrderSnoc(front: seq<string>, last: string, w: Amounts)
    requires Elements(front) <= w.Keys && last in w
    ensures (forall x | x in front :: x in w) && (forall x | x in front + [last] :: x in w)
    ensures InOrder(front + [last], w) == InOrder(front, w) + [CappedWeight(last, w[last])]
  {
  }

  lemma DotSnoc(front: seq<CappedWeight>, last: CappedWeight, returns_: Amounts)
    requires IdsOf(front) <= returns_.Keys && last.stockId in returns_
    ensures IdsOf(front + [last]) <= returns_.Keys
    ensures Dot(front + [last], returns_) == Dot(front, returns_) + AtLevel(last.weight, returns_[last.stockId])
  {
    assert (front + [last])[..|front|] == front;
  }

  lemma {:induction false} DotInOrder(ids: seq<string>, w: Amounts, returns_: Amounts)
    requires Distinct(ids) && Elements(ids) <= w.Keys <= returns_.Keys
    ensures (forall x | x in ids :: x in w) && IdsOf(InOrder(ids, w)) <= returns_.Keys
    ensures Dot(InOrder(ids, w), returns_) == Sum(Elements(ids), Products(w, returns_))
  {
    hide AtLevel, IdsOf;
    InOrderIds(ids, w);
    if ids == [] {
      assert InOrder(ids, w) == [] && Elements(ids) == {};
    } else {
      hide Dot, Sum, InOrder;
      var front, last := ids[..|ids| - 1], ids[|ids| - 1];
      assert ids == front + [last];
      assert last in Elements(ids) && Elements(front) == Elements(ids) - {last};
      InOrderIds(front, w);
      DotInOrder(front, w, returns_);
      InOrderSnoc(front, last, w);
      DotSnoc(InOrder(front, w), CappedWeight(last, w[last]), returns_);
      SumPick(Elements(ids), Products(w, returns_), last);
    }
  }

  /** The weighted return of a full weighting lies between the smallest and the largest return. */
  lemma WeightedReturnBetween(ids: seq<string>, w: Amounts, returns_: Amounts, lo: real, hi: real)
    requires Distinct(ids) && Elements(ids) == w.Keys && w.Keys <= returns_.Keys
    requires Sum(w.Keys, w) == 1.0 && forall x | x in w :: w[x] > 0.0 && lo <= returns_[x] <= hi
    ensures (forall x | x in ids :: x in w) && IdsOf(InOrder(ids, w)) <= returns_.Keys
    ensures lo <= Dot(InOrder(ids, w), returns_) <= hi
  {
    DotInOrder(ids, w, returns_);
    var products := Products(w, returns_);
    forall x | x in w ensures Scaled(w, lo)[x] <= products[x] <= Scaled(w, hi)[x] {
      ReturnBounds(w[x], lo, returns_[x], hi);
    }
    SumMonotone(w.Keys, Scaled(w, lo), products);
    SumMonotone(w.Keys, products, Scaled(w, hi));
    ScaledTotal(w, w.Keys, lo);
    ScaledTotal(w, w.Keys, hi);
  }

  lemma ReturnBounds(w: real, lo: real, r: real, hi: real)
    requires w > 0.0 && lo <= r <= hi
    ensures AtLevel(lo, w) <= AtLevel(w, r) <= AtLevel(hi, w)
  {
  }
}
