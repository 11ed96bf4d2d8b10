/** packages/calculations/attention.py: attention intervals that never read a missing day as a quiet one. */
module Attention {
  import opened Results

  datatype Signal = Signal(
    marketDate: int, isAttention: Option<bool>, membershipVersion: Option<string>,
    calculationVersion: string, baselineVersion: string, policyVersion: string)

  datatype Policy = Policy(version: string, closeAfter: int)

  datatype GapReason = NoPriorInterval | IncompleteHistory

  datatype Interval = Interval(
    first: int, last: int, closed: Option<int>, gap: Option<int>, gapReason: Option<GapReason>,
    membershipVersions: set<string>, calculationVersions: set<string>, baselineVersions: set<string>,
    policyVersion: string)

  datatype TimelineError = CalendarNotAscending | SignalOffCalendar | DuplicateSignal | PolicyMismatch

  // ----- The meaning of a timeline, by calendar position -----

  // True, confirmed False, or unknown.
  type Day = Option<bool>

  datatype Span = Span(first: nat, last: nat, closed: Option<nat>)

  ghost predicate Quiet(days: seq<Day>, n: nat, c: nat) {
    c < |days| && n <= c + 1 && forall j | c - n < j <= c :: days[j] == Some(false)
  }

  ghost predicate NoTrue(days: seq<Day>, lo: nat, hi: nat) {
    forall j | lo <= j < hi && j < |days| :: days[j] != Some(true)
  }

  function EndOf(days: seq<Day>, s: Span): nat { if s.closed.Some? then s.closed.value else |days| }

  /** s is the first interval at or after `from`: it opens on the first True day, closes on the first day that
      completes n quiet days, and its last day is the last True day before that. */
  ghost predicate IsSpan(days: seq<Day>, n: nat, from: nat, s: Span) {
    && from <= s.first <= s.last < EndOf(days, s) <= |days|
    && NoTrue(days, from, s.first) && days[s.first] == Some(true)
    && days[s.last] == Some(true) && NoTrue(days, s.last + 1, EndOf(days, s))
    && (s.closed.Some? ==> s.closed.value < |days| && Quiet(days, n, s.closed.value))
    && forall c | s.first < c < EndOf(days, s) :: !Quiet(days, n, c)
  }

  /** The intervals from `from` on, one after the other; only the last may be open. */
  ghost predicate IsTimeline(days: seq<Day>, n: nat, from: nat, spans: seq<Span>)
    decreases |spans|
  {
    if spans == [] then NoTrue(days, from, |days|)
    else IsSpan(days, n, from, spans[0])
         && if spans[0].closed.Some? then IsTimeline(days, n, spans[0].closed.value + 1, spans[1..]) else spans[1..] == []
  }

  lemma SpanUnique(days: seq<Day>, n: nat, from: nat, s: Span, t: Span)
    requires n >= 1 && IsSpan(days, n, from, s) && IsSpan(days, n, from, t)
    ensures s == t
  {
    assert s.first == t.first;
    assert EndOf(days, s) == EndOf(days, t);
  }

  /** The description leaves no choice: a calendar of days has exactly one timeline. */
  lemma {:induction false} TimelineUnique(days: seq<Day>, n: nat, from: nat, a: seq<Span>, b: seq<Span>)
    requires n >= 1 && IsTimeline(days, n, from, a) && IsTimeline(days, n, from, b)
    ensures a == b
    decreases |a|
  {
    if a != [] && b != [] {
      SpanUnique(days, n, from, a[0], b[0]);
      if a[0].closed.Some? {
        TimelineUnique(days, n, a[0].closed.value + 1, a[1..], b[1..]);
      }
      assert a == [a[0]] + a[1..] && b == [b[0]] + b[1..];
    }
  }

  /** The quiet days that close an interval all come after its last attention day, unknown days never among them. */
  lemma ClosingDaysFollowLast(days: seq<Day>, n: nat, from: nat, s: Span)
    requires n >= 1 && IsSpan(days, n, from, s) && s.closed.Some?
    ensures s.closed.value >= s.last + n
    ensures forall j | s.closed.value - n < j <= s.closed.value :: days[j] == Some(false)
    ensures forall c | s.last < c < s.closed.value :: !Quiet(days, n, c)
  {
  }

  // a is closed before b begins, with at least n days between their attention days.
  ghost predicate Apart(a: Span, b: Span, n: nat) { a.closed.Some? && a.closed.value < b.first && b.first - a.last - 1 >= n }

  /** Intervals are ordered and disjoint, at least n days apart, and every one but the last is closed. */
  lemma {:induction false} IntervalsAreDisjoint(days: seq<Day>, n: nat, from: nat, spans: seq<Span>)
    requires n >= 1 && IsTimeline(days, n, from, spans)
    ensures forall k | 0 <= k < |spans| :: from <= spans[k].first <= spans[k].last < |days|
    ensures forall k, m | 0 <= k < m < |spans| :: Apart(spans[k], spans[m], n)
    decreases |spans|
  {
    hide Quiet, NoTrue;
    if spans == [] {
    } else if spans[0].closed.None? {
      assert |spans[1..]| == 0 && |spans| == 1;
      assert from <= spans[0].first <= spans[0].last < |days|;
    } else {
      var rest := spans[1..];
      IntervalsAreDisjoint(days, n, spans[0].closed.value + 1, rest);
      ClosingDaysFollowLast(days, n, from, spans[0]);
      assert from <= spans[0].first <= spans[0].last < spans[0].closed.value < |days|;
      forall k | 0 <= k < |spans| ensures from <= spans[k].first <= spans[k].last < |days| {
        if k > 0 { assert spans[k] == rest[k - 1]; }
      }
      forall k, m | 0 <= k < m < |spans|
        ensures Apart(spans[k], spans[m], n)
      {
        assert spans[m] == rest[m - 1];
        if k > 0 { assert spans[k] == rest[k - 1]; }
      }
    }
  }

  /** Every True day lies in an interval. */
  lemma {:induction false} TrueDaysAreCovered(days: seq<Day>, n: nat, from: nat, spans: seq<Span>, d: nat) returns (k: nat)
    requires n >= 1 && IsTimeline(days, n, from, spans) && from <= d < |days| && days[d] == Some(true)
    ensures k < |spans| && spans[k].first <= d <= spans[k].last
    decreases |spans|
  {
    assert spans != [];
    if spans[0].closed.None? || d <= spans[0].closed.value {
      k := 0;
      assert spans[0].closed.Some? ==> Quiet(days, n, spans[0].closed.value);
    } else {
      var m := TrueDaysAreCovered(days, n, spans[0].closed.value + 1, spans[1..], d);
      k := m + 1;
    }
  }

  lemma ClosedSpanExtends(days: seq<Day>, more: seq<Day>, n: nat, from: nat, s: Span)
    requires IsSpan(days, n, from, s) && s.closed.Some?
    ensures IsSpan(days + more, n, from, s)
  {
    var all := days + more;
    assert forall j | 0 <= j < |days| :: all[j] == days[j];
    forall c | s.first < c < EndOf(all, s) ensures !Quiet(all, n, c) {
      assert !Quiet(days, n, c);
    }
    assert Quiet(all, n, s.closed.value);
  }

  // Extending the calendar never changes a closed span.
  lemma {:induction false} ClosedSpansAreFinal(days: seq<Day>, more: seq<Day>, n: nat, from: nat, a: seq<Span>, b: seq<Span>)
    requires n >= 1 && IsTimeline(days, n, from, a) && IsTimeline(days + more, n, from, b)
    ensures forall k | 0 <= k < |a| && a[k].closed.Some? :: k < |b| && b[k] == a[k]
    decreases |a|
  {
    if a != [] && a[0].closed.Some? {
      ClosedSpanExtends(days, more, n, from, a[0]);
      assert (days + more)[a[0].first] == Some(true);
      SpanUnique(days + more, n, from, a[0], b[0]);
      ClosedSpansAreFinal(days, more, n, a[0].closed.value + 1, a[1..], b[1..]);
      assert forall k | 0 < k < |a| :: a[k] == a[1..][k - 1];
    }
  }

  // ----- One more day -----

  // The number of confirmed-quiet days at the very end.
  ghost predicate Trailing(days: seq<Day>, streak: nat) {
    && streak <= |days|
    && (forall j | |days| - streak <= j < |days| :: days[j] == Some(false))
    && (streak < |days| ==> days[|days| - streak - 1] != Some(false))
  }

  function Advance(spans: seq<Span>, i: nat, streak: nat, n: nat, x: Day): seq<Span> {
    if spans != [] && spans[|spans| - 1].closed.None? then
      var s := spans[|spans| - 1];
      if x == Some(true) then spans[..|spans| - 1] + [s.(last := i)]
      else if x == Some(false) && streak + 1 >= n then spans[..|spans| - 1] + [s.(closed := Some(i))]
      else spans
    else if x == Some(true) then spans + [Span(i, i, None)]
    else spans
  }

  ghost predicate IsOpen(spans: seq<Span>) { spans != [] && spans[|spans| - 1].closed.None? }

  lemma QuietAtEnd(days: seq<Day>, n: nat, streak: nat, x: Day, anchor: nat)
    requires 1 <= n && streak < n && Trailing(days, streak) && anchor < |days| && days[anchor] == Some(true)
    ensures Quiet(days + [x], n, |days|) <==> x == Some(false) && streak + 1 >= n
  {
    var all := days + [x];
    assert anchor < |days| - streak;
    assert all[|days| - streak - 1] != Some(false);
    forall j | |days| - streak <= j < |days| ensures all[j] == Some(false) {}
    assert all[|days|] == x;
  }

  lemma OpenSpanAdvances(days: seq<Day>, n: nat, from: nat, s: Span, streak: nat, x: Day)
    requires n >= 1 && IsSpan(days, n, from, s) && s.closed.None? && Trailing(days, streak) && streak < n
    ensures IsSpan(days + [x], n, from, Advance([s], |days|, streak, n, x)[0])
  {
    var all := days + [x];
    QuietAtEnd(days, n, streak, x, s.first);
    hide Trailing;
    assert forall j | 0 <= j < |days| :: all[j] == days[j];
    forall c | s.first < c < |days| ensures !Quiet(all, n, c) {
      assert !Quiet(days, n, c);
    }
  }

  lemma FirstSpan(days: seq<Day>, n: nat, from: nat, x: Day)
    requires from <= |days| && NoTrue(days, from, |days|)
    ensures IsTimeline(days + [x], n, from, if x == Some(true) then [Span(|days|, |days|, None)] else [])
  {
    var all := days + [x];
    assert forall j | 0 <= j < |days| :: all[j] == days[j];
    assert x == Some(true) ==> IsSpan(all, n, from, Span(|days|, |days|, None));
  }

  // The day that closes an interval is the last one seen, so nothing follows it yet.
  lemma ClosedNothingAfter(days: seq<Day>, n: nat, from: nat, s: Span, streak: nat, x: Day)
    requires s.closed.None? && IsSpan(days + [x], n, from, Advance([s], |days|, streak, n, x)[0])
    ensures IsTimeline(days + [x], n, from, Advance([s], |days|, streak, n, x))
  {
  }

  lemma AdvanceSkipsClosed(spans: seq<Span>, i: nat, streak: nat, n: nat, x: Day)
    requires spans != [] && spans[0].closed.Some?
    ensures Advance(spans, i, streak, n, x) == [spans[0]] + Advance(spans[1..], i, streak, n, x)
    ensures IsOpen(spans) <==> IsOpen(spans[1..])
  {
    if |spans| > 1 {
      assert spans[1..][|spans| - 2] == spans[|spans| - 1];
      assert spans[..|spans| - 1] == [spans[0]] + spans[1..][..|spans| - 2];
    }
  }

  lemma ClosedIsPast(days: seq<Day>, n: nat, from: nat, s: Span)
    requires IsSpan(days, n, from, s) && s.closed.Some?
    ensures s.closed.value < |days|
  {
  }

  /** Processing one more day turns the timeline of the days before it into the timeline including it. */
  lemma {:induction false} DayAdvances(days: seq<Day>, n: nat, from: nat, spans: seq<Span>, streak: nat, x: Day)
    requires n >= 1 && from <= |days| && IsTimeline(days, n, from, spans)
    requires IsOpen(spans) ==> Trailing(days, streak) && streak < n
    ensures IsTimeline(days + [x], n, from, Advance(spans, |days|, streak, n, x))
    decreases |spans|
  {
    hide Trailing, Quiet, IsSpan, NoTrue;
    if spans == [] {
      FirstSpan(days, n, from, x);
    } else if spans[0].closed.None? {
      assert spans == [spans[0]];
      OpenSpanAdvances(days, n, from, spans[0], streak, x);
      ClosedNothingAfter(days, n, from, spans[0], streak, x);
    } else {
      AdvanceSkipsClosed(spans, |days|, streak, n, x);
      hide Advance;
      ClosedIsPast(days, n, from, spans[0]);
      ClosedSpanExtends(days, [x], n, from, spans[0]);
      var later := Advance(spans[1..], |days|, streak, n, x);
      DayAdvances(days, n, spans[0].closed.value + 1, spans[1..], streak, x);
      assert ([spans[0]] + later)[1..] == later;
    }
  }

  // ----- From positions back to dates -----

  type Signals = map<int, Signal>

  function StateOn(signals: Signals, date: int): Day {
    if date in signals then signals[date].isAttention else None
  }

  function Days(calendar: seq<int>, signals: Signals): seq<Day> {
    seq(|calendar|, i requires 0 <= i < |calendar| => StateOn(signals, calendar[i]))
  }

  // The gap before an interval counts only when every day in it is a confirmed absence.
  function GapBefore(days: seq<Day>, spans: seq<Span>, k: nat): (Option<int>, Option<GapReason>)
    requires k < |spans| && spans[k].first < |days|
    requires k > 0 ==> spans[k - 1].last < spans[k].first
  {
    if k == 0 then (None, Some(NoPriorInterval))
    else if forall j | spans[k - 1].last < j < spans[k].first :: days[j] == Some(false)
    then (Some(spans[k].first - spans[k - 1].last - 1), None)
    else (None, Some(IncompleteHistory))
  }

  ghost predicate Counts(calendar: seq<int>, signals: Signals, j: nat, s: Span) {
    s.first <= j <= s.last && j < |calendar| && StateOn(signals, calendar[j]) == Some(true)
  }

  // The versions an interval lists are those of its attention days.
  ghost function Versions<T>(calendar: seq<int>, signals: Signals, s: Span, pick: Signal -> Option<T>): set<T> {
    set j | s.first <= j <= s.last && Counts(calendar, signals, j, s) && pick(signals[calendar[j]]).Some? ::
      pick(signals[calendar[j]]).value
  }

  function Membership(x: Signal): Option<string> { x.membershipVersion }
  function Calculation(x: Signal): Option<string> { Some(x.calculationVersion) }
  function Baseline(x: Signal): Option<string> { Some(x.baselineVersion) }

  ghost predicate InRange(calendar: seq<int>, spans: seq<Span>) {
    && (forall k | 0 <= k < |spans| :: spans[k].first <= spans[k].last < |calendar|
          && (spans[k].closed.Some? ==> spans[k].closed.value < |calendar|))
    && (forall k | 0 < k < |spans| :: spans[k - 1].last < spans[k].first)
  }

  ghost function IntervalOf(calendar: seq<int>, signals: Signals, policy: Policy, spans: seq<Span>, k: nat): Interval
    requires InRange(calendar, spans) && k < |spans|
  {
    var s := spans[k];
    var (gap, reason) := GapBefore(Days(calendar, signals), spans, k);
    Interval(
      calendar[s.first], calendar[s.last], if s.closed.Some? then Some(calendar[s.closed.value]) else None, gap, reason,
      Versions(calendar, signals, s, Membership),
      Versions(calendar, signals, s, Calculation),
      Versions(calendar, signals, s, Baseline),
      policy.version)
  }

  /** A present gap is the number of days between two intervals, all confirmed quiet, and at least n. */
  lemma PresentGapIsConfirmed(days: seq<Day>, n: nat, spans: seq<Span>, k: nat)
    requires n >= 1 && IsTimeline(days, n, 0, spans) && k < |spans|
    ensures spans[k].first < |days| && (k > 0 ==> spans[k - 1].last < spans[k].first)
    ensures var (gap, reason) := GapBefore(days, spans, k);
            && (gap.None? <==> reason.Some?)
            && (gap.Some? <==> k > 0 && forall j | spans[k - 1].last < j < spans[k].first :: days[j] == Some(false))
            && (gap.Some? ==> gap.value == spans[k].first - spans[k - 1].last - 1 >= n)
  {
    IntervalsAreDisjoint(days, n, 0, spans);
  }

  // ----- Reading the inputs -----

  predicate Ascending(calendar: seq<int>) { forall i, j | 0 <= i < j < |calendar| :: calendar[i] < calendar[j] }

  function Index(signals: seq<Signal>): Signals {
    if signals == [] then map[]
    else Index(signals[..|signals| - 1])[signals[|signals| - 1].marketDate := signals[|signals| - 1]]
  }

  // What is wrong with the i-th signal, given the ones before it.
  function Fault(signals: seq<Signal>, calendar: seq<int>, policy: Policy, i: nat): Option<TimelineError>
    requires i < |signals|
  {
    if signals[i].marketDate !in calendar then Some(SignalOffCalendar)
    else if signals[i].marketDate in Index(signals[..i]) then Some(DuplicateSignal)
    else if signals[i].policyVersion != policy.version then Some(PolicyMismatch)
    else None
  }

  method IndexSignals(signals: seq<Signal>, calendar: seq<int>, policy: Policy) returns (r: Result<Signals, TimelineError>)
    ensures r.Success? ==> r.value == Index(signals) && forall i | 0 <= i < |signals| :: Fault(signals, calendar, policy, i).None?
    ensures r.Failure? ==> exists i :: 0 <= i < |signals| && Fault(signals, calendar, policy, i) == Some(r.error)
                             && forall j | 0 <= j < i :: Fault(signals, calendar, policy, j).None?
    ensures r.Failure? ==> r.error != CalendarNotAscending
  {
    var indexed: Signals := map[];
    for i := 0 to |signals|
      invariant indexed == Index(signals[..i])
      invariant forall j | 0 <= j < i :: Fault(signals, calendar, policy, j).None?
    {
      var fault := Fault(signals, calendar, policy, i);
      if fault.Some? { return Failure(fault.value); }
      assert signals[..i + 1][..i] == signals[..i];
      indexed := indexed[signals[i].marketDate := signals[i]];
    }
    assert signals[..|signals|] == signals;
    return Success(indexed);
  }

  class MutableInterval {
    var first: int
    var last: int
    var closed: Option<int>
    var gap: Option<int>
    var gapReason: Option<GapReason>
    var membershipVersions: set<string>
    var calculationVersions: set<string>
    var baselineVersions: set<string>
    var policyVersion: string

    constructor (signal: Signal, gap: Option<int>, gapReason: Option<GapReason>)
      ensures Value() == Interval(
                           signal.marketDate, signal.marketDate, None, gap, gapReason,
                           Named(signal.membershipVersion), {signal.calculationVersion}, {signal.baselineVersion},
                           signal.policyVersion)
    {
      first, last, closed := signal.marketDate, signal.marketDate, None;
      this.gap, this.gapReason := gap, gapReason;
      membershipVersions := Named(signal.membershipVersion);
      calculationVersions, baselineVersions := {signal.calculationVersion}, {signal.baselineVersion};
      policyVersion := signal.policyVersion;
    }

    function Value(): Interval
      reads this
    {
      Interval(first, last, closed, gap, gapReason, membershipVersions, calculationVersions, baselineVersions, policyVersion)
    }

    method Continue(signal: Signal)
      modifies this
      ensures Value() == Continued(old(Value()), signal)
    {
      last := signal.marketDate;
      membershipVersions := membershipVersions + Named(signal.membershipVersion);
      calculationVersions := calculationVersions + {signal.calculationVersion};
      baselineVersions := baselineVersions + {signal.baselineVersion};
    }

    method Close(date: int)
      modifies this
      ensures Value() == old(Value()).(closed := Some(date))
    {
      closed := Some(date);
    }
  }

  function Named(version: Option<string>): set<string> { if version.Some? then {version.value} else {} }

  // ----- The builder -----

  ghost predicate SignalsFit(calendar: seq<int>, signals: Signals, policy: Policy) {
    forall d | d in signals :: signals[d].marketDate == d && signals[d].policyVersion == policy.version
  }

  lemma {:induction false} IndexFits(signals: seq<Signal>, calendar: seq<int>, policy: Policy)
    requires forall i | 0 <= i < |signals| :: Fault(signals, calendar, policy, i).None?
    ensures SignalsFit(calendar, Index(signals), policy)
  {
    if signals != [] {
      var front := signals[..|signals| - 1];
      forall i | 0 <= i < |front| ensures Fault(front, calendar, policy, i).None? {
        assert front[..i] == signals[..i];
        assert Fault(signals, calendar, policy, i).None?;
      }
      IndexFits(front, calendar, policy);
      assert Fault(signals, calendar, policy, |front|).None?;
    }
  }

  lemma VersionsContinue<T>(calendar: seq<int>, signals: Signals, s: Span, i: nat, pick: Signal -> Option<T>)
    requires s.first <= s.last < i < |calendar| && StateOn(signals, calendar[i]) == Some(true)
    requires forall j | s.last < j < i :: StateOn(signals, calendar[j]) != Some(true)
    ensures Versions(calendar, signals, s.(last := i), pick)
         == Versions(calendar, signals, s, pick)
            + (if pick(signals[calendar[i]]).Some? then {pick(signals[calendar[i]]).value} else {})
  {
    var t := s.(last := i);
    forall v ensures v in Versions(calendar, signals, t, pick) <==>
        v in Versions(calendar, signals, s, pick) || pick(signals[calendar[i]]) == Some(v)
    {
      if v in Versions(calendar, signals, t, pick) {
        var j :| t.first <= j <= t.last && Counts(calendar, signals, j, t)
                 && pick(signals[calendar[j]]).Some? && pick(signals[calendar[j]]).value == v;
        assert j == i || Counts(calendar, signals, j, s);
      }
      if v in Versions(calendar, signals, s, pick) {
        var j :| s.first <= j <= s.last && Counts(calendar, signals, j, s)
                 && pick(signals[calendar[j]]).Some? && pick(signals[calendar[j]]).value == v;
        assert Counts(calendar, signals, j, t);
      }
      assert Counts(calendar, signals, i, t);
    }
  }

  lemma VersionsOfOneDay<T>(calendar: seq<int>, signals: Signals, i: nat, closed: Option<nat>, pick: Signal -> Option<T>)
    requires i < |calendar| && StateOn(signals, calendar[i]) == Some(true)
    ensures Versions(calendar, signals, Span(i, i, closed), pick)
         == if pick(signals[calendar[i]]).Some? then {pick(signals[calendar[i]]).value} else {}
  {
    assert Counts(calendar, signals, i, Span(i, i, closed));
  }

  ghost predicate Built(calendar: seq<int>, signals: Signals, policy: Policy, spans: seq<Span>, intervals: seq<Interval>) {
    && InRange(calendar, spans) && |intervals| == |spans|
    && forall k | 0 <= k < |spans| :: intervals[k] == IntervalOf(calendar, signals, policy, spans, k)
  }

  // The same signals on the days of the calendar; later ones may be added.
  ghost predicate SameOn(calendar: seq<int>, signals: Signals, later: Signals) {
    forall d | d in calendar :: (d in later <==> d in signals) && (d in signals ==> later[d] == signals[d])
  }

  lemma SameVersions<T>(calendar: seq<int>, more: seq<int>, signals: Signals, later: Signals, s: Span, pick: Signal -> Option<T>)
    requires SameOn(calendar, signals, later) && s.last < |calendar|
    ensures Versions(calendar + more, later, s, pick) == Versions(calendar, signals, s, pick)
  {
    var longer := calendar + more;
    forall j: nat | s.first <= j <= s.last ensures longer[j] == calendar[j] && StateOn(later, longer[j]) == StateOn(signals, calendar[j])
      ensures Counts(longer, later, j, s) <==> Counts(calendar, signals, j, s)
      ensures Counts(calendar, signals, j, s) ==> later[longer[j]] == signals[calendar[j]]
    {
      assert calendar[j] in calendar;
    }
  }

  lemma SameDays(calendar: seq<int>, more: seq<int>, signals: Signals, later: Signals)
    requires SameOn(calendar, signals, later)
    ensures Days(calendar + more, later) == Days(calendar, signals) + Days(more, later)
  {
    var longer := calendar + more;
    forall j | 0 <= j < |longer| ensures Days(longer, later)[j] == (Days(calendar, signals) + Days(more, later))[j] {
      if j < |calendar| { assert calendar[j] in calendar; }
    }
  }

  lemma SameInterval(calendar: seq<int>, more: seq<int>, signals: Signals, later: Signals, policy: Policy, a: seq<Span>, b: seq<Span>, k: nat)
    requires SameOn(calendar, signals, later) && InRange(calendar, a) && InRange(calendar + more, b)
    requires k < |a| && k < |b| && a[k] == b[k] && (k > 0 ==> a[k - 1] == b[k - 1])
    ensures IntervalOf(calendar + more, later, policy, b, k) == IntervalOf(calendar, signals, policy, a, k)
  {
    SameVersions(calendar, more, signals, later, a[k], Membership);
    SameVersions(calendar, more, signals, later, a[k], Calculation);
    SameVersions(calendar, more, signals, later, a[k], Baseline);
    SameDays(calendar, more, signals, later);
    hide Versions, Membership, Calculation, Baseline, SameOn;
    var days, extended := Days(calendar, signals), Days(calendar + more, later);
    assert forall j | 0 <= j < |days| :: extended[j] == days[j];
    assert GapBefore(extended, b, k) == GapBefore(days, a, k);
  }

  /** Extending the calendar, and learning what those days were, never changes a closed interval: neither its dates nor its
      gap, the gap's reason or the versions it lists. */
  lemma ClosedIntervalsAreFinal(calendar: seq<int>, more: seq<int>, signals: Signals, later: Signals, policy: Policy,
                                a: seq<Span>, b: seq<Span>, intervals: seq<Interval>, extended: seq<Interval>)
    requires policy.closeAfter >= 1 && SameOn(calendar, signals, later)
    requires IsTimeline(Days(calendar, signals), policy.closeAfter, 0, a) && Built(calendar, signals, policy, a, intervals)
    requires IsTimeline(Days(calendar + more, later), policy.closeAfter, 0, b) && Built(calendar + more, later, policy, b, extended)
    ensures forall k | 0 <= k < |intervals| && intervals[k].closed.Some? :: k < |extended| && extended[k] == intervals[k]
  {
    var n := policy.closeAfter;
    SameDays(calendar, more, signals, later);
    ClosedSpansAreFinal(Days(calendar, signals), Days(more, later), n, 0, a, b);
    IntervalsAreDisjoint(Days(calendar, signals), n, 0, a);
    hide IsTimeline, SameOn, Days, Versions, GapBefore;
    forall k | 0 <= k < |intervals| && intervals[k].closed.Some? ensures k < |extended| && extended[k] == intervals[k] {
      if k > 0 { assert Apart(a[k - 1], a[k], n); }
      SameInterval(calendar, more, signals, later, policy, a, b, k);
    }
  }

  // The interval a first attention day opens.
  function Opened(signal: Signal, gap: (Option<int>, Option<GapReason>)): Interval {
    Interval(signal.marketDate, signal.marketDate, None, gap.0, gap.1, Named(signal.membershipVersion),
             {signal.calculationVersion}, {signal.baselineVersion}, signal.policyVersion)
  }

  function Continued(interval: Interval, signal: Signal): Interval {
    interval.(last := signal.marketDate,
              membershipVersions := interval.membershipVersions + Named(signal.membershipVersion),
              calculationVersions := interval.calculationVersions + {signal.calculationVersion},
              baselineVersions := interval.baselineVersions + {signal.baselineVersion})
  }

  lemma BuiltOpens(calendar: seq<int>, signals: Signals, policy: Policy, spans: seq<Span>, intervals: seq<Interval>, i: nat)
    requires Built(calendar, signals, policy, spans, intervals) && SignalsFit(calendar, signals, policy)
    requires i < |calendar| && StateOn(signals, calendar[i]) == Some(true)
    requires spans != [] ==> spans[|spans| - 1].last < i
    ensures var spans' := spans + [Span(i, i, None)];
            var gap := GapBefore(Days(calendar, signals), spans', |spans|);
            Built(calendar, signals, policy, spans', intervals + [Opened(signals[calendar[i]], gap)])
  {
    hide Versions, Counts, Membership, Calculation, Baseline, GapBefore;
    var spans' := spans + [Span(i, i, None)];
    assert forall k | 0 <= k < |spans| :: spans'[k] == spans[k];
    assert InRange(calendar, spans');
    forall k | 0 <= k < |spans| ensures IntervalOf(calendar, signals, policy, spans', k) == IntervalOf(calendar, signals, policy, spans, k) {
      SameGap(Days(calendar, signals), spans, spans', k);
    }
    hide InRange;
    VersionsOfOneDay(calendar, signals, i, None, Membership);
    VersionsOfOneDay(calendar, signals, i, None, Calculation);
    VersionsOfOneDay(calendar, signals, i, None, Baseline);
    PickNames(signals[calendar[i]]);
  }

  lemma SameGap(days: seq<Day>, a: seq<Span>, b: seq<Span>, k: nat)
    requires k < |a| && k < |b| && a[..k + 1] == b[..k + 1]
    requires a[k].first < |days| && (k > 0 ==> a[k - 1].last < a[k].first)
    ensures b[k] == a[k] && (k > 0 ==> b[k - 1] == a[k - 1]) && GapBefore(days, b, k) == GapBefore(days, a, k)
  {
    assert a[k] == a[..k + 1][k] && b[k] == b[..k + 1][k];
    if k > 0 { assert a[k - 1] == a[..k + 1][k - 1] && b[k - 1] == b[..k + 1][k - 1]; }
  }

  lemma IntervalContinues(calendar: seq<int>, signals: Signals, policy: Policy, spans: seq<Span>, i: nat)
    requires InRange(calendar, spans) && SignalsFit(calendar, signals, policy)
    requires IsOpen(spans) && spans[|spans| - 1].last < i < |calendar| && StateOn(signals, calendar[i]) == Some(true)
    requires forall j | spans[|spans| - 1].last < j < i :: StateOn(signals, calendar[j]) != Some(true)
    ensures var m := |spans| - 1;
            var spans' := spans[..m] + [spans[m].(last := i)];
            InRange(calendar, spans') && IntervalOf(calendar, signals, policy, spans', m)
              == Continued(IntervalOf(calendar, signals, policy, spans, m), signals[calendar[i]])
  {
    hide Versions, Counts, Membership, Calculation, Baseline;
    var m := |spans| - 1;
    var spans' := spans[..m] + [spans[m].(last := i)];
    assert forall k | 0 <= k < m :: spans'[k] == spans[k];
    VersionsContinue(calendar, signals, spans[m], i, Membership);
    VersionsContinue(calendar, signals, spans[m], i, Calculation);
    VersionsContinue(calendar, signals, spans[m], i, Baseline);
    PickNames(signals[calendar[i]]);
  }

  lemma PickNames(x: Signal)
    ensures Named(x.membershipVersion) == if Membership(x).Some? then {Membership(x).value} else {}
    ensures Calculation(x) == Some(x.calculationVersion) && Baseline(x) == Some(x.baselineVersion)
  {
  }

  // Changing the last interval leaves the earlier ones as they are.
  lemma BuiltReplacesLast(calendar: seq<int>, signals: Signals, policy: Policy, spans: seq<Span>, intervals: seq<Interval>,
                          s: Span, interval: Interval)
    requires Built(calendar, signals, policy, spans, intervals) && spans != []
    requires InRange(calendar, spans[..|spans| - 1] + [s])
    requires interval == IntervalOf(calendar, signals, policy, spans[..|spans| - 1] + [s], |spans| - 1)
    ensures Built(calendar, signals, policy, spans[..|spans| - 1] + [s], intervals[..|spans| - 1] + [interval])
  {
    hide Versions;
    var m := |spans| - 1;
    var spans' := spans[..m] + [s];
    assert forall k | 0 <= k < m :: spans'[k] == spans[k];
  }

  lemma VersionsIgnoreClosing<T>(calendar: seq<int>, signals: Signals, s: Span, closed: Option<nat>, pick: Signal -> Option<T>)
    ensures Versions(calendar, signals, s.(closed := closed), pick) == Versions(calendar, signals, s, pick)
  {
    assert forall j :: Counts(calendar, signals, j, s.(closed := closed)) <==> Counts(calendar, signals, j, s);
  }

  lemma IntervalCloses(calendar: seq<int>, signals: Signals, policy: Policy, spans: seq<Span>, i: nat)
    requires InRange(calendar, spans) && spans != [] && i < |calendar|
    ensures var m := |spans| - 1;
            var spans' := spans[..m] + [spans[m].(closed := Some(i))];
            InRange(calendar, spans') && IntervalOf(calendar, signals, policy, spans', m)
              == IntervalOf(calendar, signals, policy, spans, m).(closed := Some(calendar[i]))
  {
    hide Versions, Counts, Membership, Calculation, Baseline;
    var m := |spans| - 1;
    var spans' := spans[..m] + [spans[m].(closed := Some(i))];
    assert forall k | 0 <= k < m :: spans'[k] == spans[k];
    VersionsIgnoreClosing(calendar, signals, spans[m], Some(i), Membership);
    VersionsIgnoreClosing(calendar, signals, spans[m], Some(i), Calculation);
    VersionsIgnoreClosing(calendar, signals, spans[m], Some(i), Baseline);
  }

  lemma {:induction false} NoTrueAfterLast(days: seq<Day>, n: nat, from: nat, spans: seq<Span>)
    requires n >= 1 && IsTimeline(days, n, from, spans)
    ensures spans != [] ==> spans[|spans| - 1].last < |days|
    ensures IsOpen(spans) ==> NoTrue(days, spans[|spans| - 1].last + 1, |days|)
    decreases |spans|
  {
    if spans != [] && spans[0].closed.Some? {
      NoTrueAfterLast(days, n, spans[0].closed.value + 1, spans[1..]);
      assert |spans| > 1 ==> spans[|spans| - 1] == spans[1..][|spans| - 2];
    } else if spans != [] {
      assert spans == [spans[0]];
    }
  }

  lemma TrailingGrows(days: seq<Day>, streak: nat, x: Day)
    requires Trailing(days, streak)
    ensures x == Some(false) ==> Trailing(days + [x], streak + 1)
  {
  }

  lemma TrailingRestarts(days: seq<Day>, x: Day)
    ensures x != Some(false) ==> Trailing(days + [x], 0)
  {
  }

  lemma BetweenComplete(calendar: seq<int>, signals: Signals, position: nat, i: nat)
    requires position < i < |calendar|
    ensures (forall day | day in calendar[position + 1..i] :: day in signals && signals[day].isAttention == Some(false))
       <==> (forall j | position < j < i :: Days(calendar, signals)[j] == Some(false))
  {
    var between := calendar[position + 1..i];
    assert forall j | position < j < i :: calendar[j] == between[j - position - 1] && calendar[j] in between;
    if forall j | position < j < i :: Days(calendar, signals)[j] == Some(false) {
      forall day | day in between ensures day in signals && signals[day].isAttention == Some(false) {
        var m :| 0 <= m < |between| && between[m] == day;
        assert Days(calendar, signals)[m + position + 1] == Some(false);
      }
    }
  }

  // After i days: the spans are the timeline of those days, the intervals are built from them,
  // and while one is open the streak counts the quiet days at the end.
  ghost predicate Scanned(calendar: seq<int>, signals: Signals, policy: Policy, i: nat, spans: seq<Span>,
                          intervals: seq<Interval>, streak: int) {
    && i <= |calendar| && policy.closeAfter >= 1 && 0 <= streak
    && SignalsFit(calendar, signals, policy)
    && IsTimeline(Days(calendar, signals)[..i], policy.closeAfter, 0, spans)
    && Built(calendar, signals, policy, spans, intervals)
    && (IsOpen(spans) ==> Trailing(Days(calendar, signals)[..i], streak) && streak < policy.closeAfter)
  }

  lemma OneMoreDay(calendar: seq<int>, signals: Signals, policy: Policy, i: nat, spans: seq<Span>,
                   intervals: seq<Interval>, streak: int)
    requires Scanned(calendar, signals, policy, i, spans, intervals, streak) && i < |calendar|
    ensures var days, x := Days(calendar, signals), StateOn(signals, calendar[i]);
            && IsTimeline(days[..i + 1], policy.closeAfter, 0, Advance(spans, i, streak, policy.closeAfter, x))
            && (x != Some(false) ==> Trailing(days[..i + 1], 0))
            && (IsOpen(spans) && x == Some(false) ==> Trailing(days[..i + 1], streak + 1))
            && (spans != [] ==> spans[|spans| - 1].last < i)
            && (IsOpen(spans) ==> forall j | spans[|spans| - 1].last < j < i :: StateOn(signals, calendar[j]) != Some(true))
  {
    var days, x := Days(calendar, signals), StateOn(signals, calendar[i]);
    assert days[..i + 1] == days[..i] + [x];
    DayAdvances(days[..i], policy.closeAfter, 0, spans, streak, x);
    NoTrueAfterLast(days[..i], policy.closeAfter, 0, spans);
    TrailingRestarts(days[..i], x);
    if IsOpen(spans) {
      TrailingGrows(days[..i], streak, x);
      assert forall j | spans[|spans| - 1].last < j < i :: days[..i][j] == StateOn(signals, calendar[j]);
    }
  }

  lemma ScanOpens(calendar: seq<int>, signals: Signals, policy: Policy, i: nat, spans: seq<Span>,
                  intervals: seq<Interval>, streak: int)
    requires Scanned(calendar, signals, policy, i, spans, intervals, streak) && i < |calendar|
    requires !IsOpen(spans) && StateOn(signals, calendar[i]) == Some(true)
    ensures IsOpen(spans + [Span(i, i, None)])
    ensures var spans' := spans + [Span(i, i, None)];
            InRange(calendar, spans') &&
            var gap := GapBefore(Days(calendar, signals), spans', |spans|);
            Scanned(calendar, signals, policy, i + 1, spans', intervals + [Opened(signals[calendar[i]], gap)], 0)
  {
    hide Trailing, IsTimeline;
    OneMoreDay(calendar, signals, policy, i, spans, intervals, streak);
    BuiltOpens(calendar, signals, policy, spans, intervals, i);
  }

  lemma ScanPasses(calendar: seq<int>, signals: Signals, policy: Policy, i: nat, spans: seq<Span>,
                   intervals: seq<Interval>, streak: int)
    requires Scanned(calendar, signals, policy, i, spans, intervals, streak) && i < |calendar|
    requires if IsOpen(spans) then StateOn(signals, calendar[i]) == None else StateOn(signals, calendar[i]) != Some(true)
    ensures Scanned(calendar, signals, policy, i + 1, spans, intervals, 0)
  {
    hide Trailing, IsTimeline, Built;
    OneMoreDay(calendar, signals, policy, i, spans, intervals, streak);
  }

  lemma ScanStaysQuiet(calendar: seq<int>, signals: Signals, policy: Policy, i: nat, spans: seq<Span>,
                       intervals: seq<Interval>, streak: int)
    requires Scanned(calendar, signals, policy, i, spans, intervals, streak) && i < |calendar|
    requires IsOpen(spans) && StateOn(signals, calendar[i]) == Some(false) && streak + 1 < policy.closeAfter
    ensures Scanned(calendar, signals, policy, i + 1, spans, intervals, streak + 1)
  {
    hide Trailing, IsTimeline, Built;
    OneMoreDay(calendar, signals, policy, i, spans, intervals, streak);
  }

  // The open interval moved on to day i, or closed on it.
  function LastMoved(spans: seq<Span>, i: nat): seq<Span>
    requires spans != []
  {
    spans[..|spans| - 1] + [spans[|spans| - 1].(last := i)]
  }

  function LastShut(spans: seq<Span>, i: nat): seq<Span>
    requires spans != []
  {
    spans[..|spans| - 1] + [spans[|spans| - 1].(closed := Some(i))]
  }

  lemma ScanContinues(calendar: seq<int>, signals: Signals, policy: Policy, i: nat, spans: seq<Span>,
                      completed: seq<Interval>, interval: Interval, streak: int)
    requires Scanned(calendar, signals, policy, i, spans, completed + [interval], streak) && i < |calendar|
    requires IsOpen(spans) && StateOn(signals, calendar[i]) == Some(true)
    ensures |spans| == |completed| + 1 && IsOpen(LastMoved(spans, i))
    ensures calendar[i] in signals
    ensures Scanned(calendar, signals, policy, i + 1, LastMoved(spans, i),
                    completed + [Continued(interval, signals[calendar[i]])], 0)
  {
    hide Trailing, IsTimeline;
    var intervals := completed + [interval];
    OneMoreDay(calendar, signals, policy, i, spans, intervals, streak);
    IntervalContinues(calendar, signals, policy, spans, i);
    BuiltReplacesLast(calendar, signals, policy, spans, intervals, spans[|spans| - 1].(last := i),
                      Continued(interval, signals[calendar[i]]));
    assert intervals[..|spans| - 1] == completed;
  }

  lemma ScanCloses(calendar: seq<int>, signals: Signals, policy: Policy, i: nat, spans: seq<Span>,
                   completed: seq<Interval>, interval: Interval, streak: int)
    requires Scanned(calendar, signals, policy, i, spans, completed + [interval], streak) && i < |calendar|
    requires IsOpen(spans) && StateOn(signals, calendar[i]) == Some(false) && streak + 1 >= policy.closeAfter
    ensures |spans| == |completed| + 1 && !IsOpen(LastShut(spans, i))
    ensures Scanned(calendar, signals, policy, i + 1, LastShut(spans, i),
                    completed + [interval.(closed := Some(calendar[i]))], 0)
  {
    hide Trailing, IsTimeline;
    var intervals := completed + [interval];
    OneMoreDay(calendar, signals, policy, i, spans, intervals, streak);
    IntervalCloses(calendar, signals, policy, spans, i);
    BuiltReplacesLast(calendar, signals, policy, spans, intervals, spans[|spans| - 1].(closed := Some(i)),
                      interval.(closed := Some(calendar[i])));
    assert intervals[..|spans| - 1] == completed;
  }

  lemma LastDate(calendar: seq<int>, signals: Signals, policy: Policy, spans: seq<Span>, intervals: seq<Interval>, i: nat)
    requires Built(calendar, signals, policy, spans, intervals) && i < |calendar|
    requires spans != [] ==> spans[|spans| - 1].last < i
    ensures InRange(calendar, spans + [Span(i, i, None)]) && |intervals| == |spans|
    ensures spans != [] ==> intervals[|spans| - 1].last == calendar[spans[|spans| - 1].last]
  {
  }

  method GapSinceLast(calendar: seq<int>, signals: Signals, policy: Policy, completed: seq<Interval>, i: nat, ghost spans: seq<Span>)
    returns (gap: (Option<int>, Option<GapReason>))
    requires Ascending(calendar) && i < |calendar|
    requires Built(calendar, signals, policy, spans, completed) && (spans != [] ==> spans[|spans| - 1].last < i)
    ensures InRange(calendar, spans + [Span(i, i, None)])
    ensures gap == GapBefore(Days(calendar, signals), spans + [Span(i, i, None)], |spans|)
  {
    hide Built, InRange, Days;
    LastDate(calendar, signals, policy, spans, completed, i);
    if completed == [] { return (None, Some(NoPriorInterval)); }
    var previous := completed[|completed| - 1];
    var position := PositionOf(calendar, previous.last, spans[|spans| - 1].last);
    var between := calendar[position + 1..i];
    BetweenComplete(calendar, signals, position, i);
    if forall day | day in between :: day in signals && signals[day].isAttention == Some(false) {
      return (Some(|between|), None);
    }
    return (None, Some(IncompleteHistory));
  }

  method PositionOf(calendar: seq<int>, date: int, ghost at: nat) returns (position: nat)
    requires Ascending(calendar) && at < |calendar| && calendar[at] == date
    ensures position == at
  {
    var positions := map k | 0 <= k < |calendar| :: calendar[k] := k;
    position := positions[date];
  }

  lemma DayCases(signals: Signals, date: int)
    ensures var x := StateOn(signals, date); x == None || x == Some(true) || x == Some(false)
    ensures StateOn(signals, date) == Some(true) ==> date in signals
  {
    var x := StateOn(signals, date);
    if x.Some? && x.value {}
  }

  method BuildTimeline(signals: seq<Signal>, calendar: seq<int>, policy: Policy)
    returns (r: Result<seq<Interval>, TimelineError>)
    requires policy.closeAfter >= 1
    ensures r == Failure(CalendarNotAscending) <==> !Ascending(calendar)
    ensures Ascending(calendar) && r.Failure? ==>
              exists i :: 0 <= i < |signals| && Fault(signals, calendar, policy, i) == Some(r.error)
                && forall j | 0 <= j < i :: Fault(signals, calendar, policy, j).None?
    ensures r.Success? ==>
              exists spans :: IsTimeline(Days(calendar, Index(signals)), policy.closeAfter, 0, spans)
                && Built(calendar, Index(signals), policy, spans, r.value)
  {
    hide IsTimeline, InRange, Trailing, Fault, Index, SignalsFit;
    if !Ascending(calendar) { return Failure(CalendarNotAscending); }
    var byDate :- IndexSignals(signals, calendar, policy);
    IndexFits(signals, calendar, policy);
    var completed, spans := Scan(calendar, byDate, policy);
    return Success(completed);
  }

  // The day-by-day loop over a validated calendar.
  method Scan(calendar: seq<int>, byDate: Signals, policy: Policy) returns (completed: seq<Interval>, ghost spans: seq<Span>)
    requires policy.closeAfter >= 1 && Ascending(calendar) && SignalsFit(calendar, byDate, policy)
    ensures IsTimeline(Days(calendar, byDate), policy.closeAfter, 0, spans)
    ensures Built(calendar, byDate, policy, spans, completed)
  {
    completed, spans := [], [];
    var active: MutableInterval? := null;
    var streak := 0;
    assert Scanned(calendar, byDate, policy, 0, spans, completed, streak);
    hide *;
    for i := 0 to |calendar|
      invariant active != null ==> fresh(active)
      invariant if active == null
                then !IsOpen(spans) && Scanned(calendar, byDate, policy, i, spans, completed, streak)
                else IsOpen(spans) && Scanned(calendar, byDate, policy, i, spans, completed + [active.Value()], streak)
    {
      var date := calendar[i];
      var state := StateOn(byDate, date);
      DayCases(byDate, date);
      if active == null {
        if state == Some(true) {
          ScannedParts(calendar, byDate, policy, i, spans, completed, streak);
          var gap := GapSinceLast(calendar, byDate, policy, completed, i, spans);
          ScanOpens(calendar, byDate, policy, i, spans, completed, streak);
          active := NewInterval(byDate[date], gap);
          spans := spans + [Span(i, i, None)];
        } else {
          ScanPasses(calendar, byDate, policy, i, spans, completed, streak);
        }
        streak := 0;
      } else if state == Some(true) {
        ScanContinues(calendar, byDate, policy, i, spans, completed, active.Value(), streak);
        active.Continue(byDate[date]);
        spans := LastMoved(spans, i);
        streak := 0;
      } else if state == Some(false) {
        if streak + 1 >= policy.closeAfter {
          ScanCloses(calendar, byDate, policy, i, spans, completed, active.Value(), streak);
          active.Close(date);
          completed := completed + [active.Value()];
          active := null;
          spans := LastShut(spans, i);
          streak := 0;
        } else {
          ScanStaysQuiet(calendar, byDate, policy, i, spans, completed + [active.Value()], streak);
          streak := streak + 1;
        }
      } else {
        // Unknown cannot prove a consecutive absence.
        ScanPasses(calendar, byDate, policy, i, spans, completed + [active.Value()], streak);
        streak := 0;
      }
    }
    if active != null { completed := completed + [active.Value()]; }
    ScannedAll(calendar, byDate, policy, spans, completed, streak);
  }

  lemma ScannedParts(calendar: seq<int>, signals: Signals, policy: Policy, i: nat, spans: seq<Span>,
                     intervals: seq<Interval>, streak: int)
    requires Scanned(calendar, signals, policy, i, spans, intervals, streak) && i < |calendar|
    ensures Built(calendar, signals, policy, spans, intervals) && (spans != [] ==> spans[|spans| - 1].last < i)
  {
    OneMoreDay(calendar, signals, policy, i, spans, intervals, streak);
  }

  lemma ScannedAll(calendar: seq<int>, signals: Signals, policy: Policy, spans: seq<Span>, intervals: seq<Interval>, streak: int)
    requires Scanned(calendar, signals, policy, |calendar|, spans, intervals, streak)
    ensures IsTimeline(Days(calendar, signals), policy.closeAfter, 0, spans)
    ensures Built(calendar, signals, policy, spans, intervals)
  {
    assert Days(calendar, signals)[..|calendar|] == Days(calendar, signals);
  }

  method NewInterval(signal: Signal, gap: (Option<int>, Option<GapReason>)) returns (interval: MutableInterval)
    ensures fresh(interval) && interval.Value() == Opened(signal, gap)
  {
    interval := new MutableInterval(signal, gap.0, gap.1);
  }
}
