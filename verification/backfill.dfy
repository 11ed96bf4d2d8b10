/** packages/historical_data/backfill.py and the coverage check of packages/historical_data/corpus.py:129-146. */
module Backfill {
  import opened Results

  datatype Market = KOSPI | KOSDAQ | KONEX

  type Slot = (Market, int)

  // What one request to the exchange came back with.
  datatype Answer = Rows(count: nat) | TransportError | ContractError | KeyboardInterrupt

  datatype Stop =
    | BudgetExhausted(market: Market, day: int)
    | TransportFailure(market: Market, day: int)
    | ContractFailure(market: Market, day: int)
    | DataUnavailable(market: Market, day: int, streak: nat)
    | Interrupted(market: Market, day: int)

  datatype Status = Complete | Partial | Failed

  datatype Progress = Progress(
    files: set<Slot>, calls: nat, written: nat, skipped: nat, empty: nat, streak: map<Market, nat>,
    lastCompleted: Option<int>, stop: Option<Stop>)

  // The exchange's answer to each attempt at each slot.
  type Source = (Market, int, nat) -> Answer

  const MARKETS: seq<Market> := [KOSPI, KOSDAQ, KONEX]
  const KONEX_OPENED := 735050
  const EMPTY_STREAK_LIMIT: nat := 15
  const RETRIES: nat := 3

  // Days are proleptic Gregorian ordinals, on which day 1 is a Monday.
  predicate Weekday(day: int) { (day + 6) % 7 < 5 }

  // The files a complete collection holds.
  predicate Due(slot: Slot) { Weekday(slot.1) && !(slot.0 == KONEX && slot.1 < KONEX_OPENED) }

  function Required(start: int, end: int): set<Slot> {
    set m: Market, d: int | start <= d <= end && Due((m, d)) :: (m, d)
  }

  function StatusOf(p: Progress): Status {
    if p.stop.None? then Complete
    else if p.stop.value.ContractFailure? || p.stop.value.DataUnavailable? then Failed
    else Partial
  }

  // ----- One request with its retries -----

  predicate Retried(a: Answer) { a.TransportError? || a.ContractError? }

  function Settled(source: Source, slot: Slot, attempt: nat): Answer
    decreases RETRIES - attempt
  {
    var a := source(slot.0, slot.1, attempt);
    if Retried(a) && attempt < RETRIES then Settled(source, slot, attempt + 1) else a
  }

  /** A slot fails only when all four attempts failed, and then with the last attempt's error. */
  lemma {:induction false} FailsAfterFourAttempts(source: Source, slot: Slot, attempt: nat)
    requires attempt <= RETRIES
    ensures Retried(Settled(source, slot, attempt)) <==> forall k: nat | attempt <= k <= RETRIES :: Retried(source(slot.0, slot.1, k))
    ensures Retried(Settled(source, slot, attempt)) ==> Settled(source, slot, attempt) == source(slot.0, slot.1, RETRIES)
    decreases RETRIES - attempt
  {
    if attempt < RETRIES { FailsAfterFourAttempts(source, slot, attempt + 1); }
  }

  method Fetch(source: Source, slot: Slot) returns (a: Answer)
    ensures a == Settled(source, slot, 0)
  {
    var attempts: nat := 0;
    while true
      invariant attempts <= RETRIES && Settled(source, slot, 0) == Settled(source, slot, attempts)
      decreases RETRIES - attempts
    {
      a := source(slot.0, slot.1, attempts);
      if !Retried(a) || attempts >= RETRIES { return; }
      attempts := attempts + 1;
    }
  }

  // ----- Visiting the slots in order -----

  function Length(streak: map<Market, nat>, market: Market): nat { if market in streak then streak[market] else 0 }

  function Store(p: Progress, slot: Slot, rows: nat): Progress {
    var q := p.(files := p.files + {slot}, calls := p.calls + 1, written := p.written + 1);
    if rows > 0 then q.(streak := q.streak[slot.0 := 0]) else
    var streak := Length(q.streak, slot.0) + 1;
    var counted := q.(empty := q.empty + 1, streak := q.streak[slot.0 := streak]);
    if streak >= EMPTY_STREAK_LIMIT then counted.(stop := Some(DataUnavailable(slot.0, slot.1, streak))) else counted
  }

  function VisitMarket(p: Progress, slot: Slot, maxCalls: nat, source: Source): Progress {
    if p.stop.Some? || (slot.0 == KONEX && slot.1 < KONEX_OPENED) then p
    else if slot in p.files then p.(skipped := p.skipped + 1)
    else if p.calls >= maxCalls then p.(stop := Some(BudgetExhausted(slot.0, slot.1)))
    else match Settled(source, slot, 0)
      case Rows(count) => Store(p, slot, count)
      case TransportError => p.(stop := Some(TransportFailure(slot.0, slot.1)))
      case ContractError => p.(stop := Some(ContractFailure(slot.0, slot.1)))
      case KeyboardInterrupt => p.(stop := Some(Interrupted(slot.0, slot.1)))
  }

  function VisitMarkets(p: Progress, day: int, k: nat, maxCalls: nat, source: Source): Progress
    requires k <= 3
  {
    if k == 0 then p else VisitMarket(VisitMarkets(p, day, k - 1, maxCalls, source), (MARKETS[k - 1], day), maxCalls, source)
  }

  function VisitDay(p: Progress, day: int, maxCalls: nat, source: Source): Progress {
    if !Weekday(day) then p else
    var q := VisitMarkets(p, day, 3, maxCalls, source);
    if q.stop.Some? then q else q.(lastCompleted := Some(day))
  }

  function VisitDays(p: Progress, start: int, end: int, maxCalls: nat, source: Source): Progress
    decreases end - start + 1
  {
    if end < start then p else VisitDay(VisitDays(p, start, end - 1, maxCalls, source), end, maxCalls, source)
  }

  function Fresh(files: set<Slot>): Progress {
    Progress(files, 0, 0, 0, 0, map[KOSPI := 0, KOSDAQ := 0, KONEX := 0], None, None)
  }

  function Collected(files: set<Slot>, start: int, end: int, maxCalls: nat, source: Source): Progress {
    VisitDays(Fresh(files), start, end, maxCalls, source)
  }

  lemma {:induction false} MarketsStayStopped(p: Progress, day: int, k: nat, maxCalls: nat, source: Source)
    requires k <= 3 && VisitMarkets(p, day, k, maxCalls, source).stop.Some?
    ensures VisitMarkets(p, day, 3, maxCalls, source) == VisitMarkets(p, day, k, maxCalls, source)
    decreases 3 - k
  {
    if k < 3 { MarketsStayStopped(p, day, k + 1, maxCalls, source); }
  }

  lemma {:induction false} MarketsOfStopped(p: Progress, day: int, k: nat, maxCalls: nat, source: Source)
    requires k <= 3 && p.stop.Some?
    ensures VisitMarkets(p, day, k, maxCalls, source) == p
  {
    if k > 0 { MarketsOfStopped(p, day, k - 1, maxCalls, source); }
  }

  lemma {:induction false} DaysStayStopped(p: Progress, start: int, day: int, end: int, maxCalls: nat, source: Source)
    requires start <= day <= end && VisitDays(p, start, day, maxCalls, source).stop.Some?
    ensures VisitDays(p, start, end, maxCalls, source) == VisitDays(p, start, day, maxCalls, source)
    decreases end - day
  {
    if day < end {
      MarketsOfStopped(VisitDays(p, start, day, maxCalls, source), day + 1, 3, maxCalls, source);
      DaysStayStopped(p, start, day + 1, end, maxCalls, source);
    }
  }

  lemma KeepsLastCompleted(p: Progress, slot: Slot, maxCalls: nat, source: Source)
    ensures VisitMarket(p, slot, maxCalls, source).lastCompleted == p.lastCompleted
  {
  }

  /** The directory of collected files. */
  class Archive {
    var files: set<Slot>

    constructor (found: set<Slot>)
      ensures files == found
    {
      files := found;
    }

    method Collect(start: int, end: int, maxCalls: nat, source: Source) returns (report: Progress)
      requires start <= end && maxCalls > 0
      modifies this
      ensures report == Collected(old(files), start, end, maxCalls, source)
      ensures files == report.files
    {
      hide VisitMarket, Settled, Store;
      ghost var p0 := Fresh(files);
      var calls, written, skipped, empty := 0, 0, 0, 0;
      var streak: map<Market, nat> := map[KOSPI := 0, KOSDAQ := 0, KONEX := 0];
      var last: Option<int> := None;
      var day := start;
      while day <= end
        invariant start <= day <= end + 1
        invariant VisitDays(p0, start, day - 1, maxCalls, source) == Progress(files, calls, written, skipped, empty, streak, last, None)
      {
        if !Weekday(day) { day := day + 1; continue; }
        ghost var before := VisitDays(p0, start, day - 1, maxCalls, source);
        for k := 0 to 3
          invariant VisitMarkets(before, day, k, maxCalls, source) == Progress(files, calls, written, skipped, empty, streak, last, None)
        {
          KeepsLastCompleted(VisitMarkets(before, day, k, maxCalls, source), (MARKETS[k], day), maxCalls, source);
          report := VisitOne((MARKETS[k], day), maxCalls, source, calls, written, skipped, empty, streak, last);
          calls, written, skipped, empty, streak := report.calls, report.written, report.skipped, report.empty, report.streak;
          if report.stop.Some? {
            MarketsStayStopped(before, day, k + 1, maxCalls, source);
            DaysStayStopped(p0, start, day, end, maxCalls, source);
            return;
          }
        }
        last := Some(day);
        day := day + 1;
      }
      return Progress(files, calls, written, skipped, empty, streak, last, None);
    }

    // One turn of the market loop: skip, stop, or fetch and write.
    method VisitOne(slot: Slot, maxCalls: nat, source: Source, calls: nat, written: nat, skipped: nat, empty: nat,
                    streak: map<Market, nat>, last: Option<int>) returns (report: Progress)
      modifies this
      ensures report == VisitMarket(Progress(old(files), calls, written, skipped, empty, streak, last, None), slot, maxCalls, source)
      ensures files == report.files
    {
      report := Progress(files, calls, written, skipped, empty, streak, last, None);
      if slot.0 == KONEX && slot.1 < KONEX_OPENED { return; }
      if slot in files { report := report.(skipped := skipped + 1); return; }
      if calls >= maxCalls { report := report.(stop := Some(BudgetExhausted(slot.0, slot.1))); return; }
      var answer := Fetch(source, slot);
      match answer
      case TransportError => report := report.(stop := Some(TransportFailure(slot.0, slot.1)));
      case ContractError => report := report.(stop := Some(ContractFailure(slot.0, slot.1)));
      case KeyboardInterrupt => report := report.(stop := Some(Interrupted(slot.0, slot.1)));
      case Rows(count) =>
        files := files + {slot};
        report := report.(files := files, calls := calls + 1, written := written + 1);
        if count > 0 {
          report := report.(streak := streak[slot.0 := 0]);
        } else {
          var length := Length(streak, slot.0) + 1;
          report := report.(empty := empty + 1, streak := streak[slot.0 := length]);
          if length >= EMPTY_STREAK_LIMIT { report := report.(stop := Some(DataUnavailable(slot.0, slot.1, length))); }
        }
    }
  }

  // ----- What a collection leaves in the directory -----

  // The state of a run that began with files and has dealt with the slots in seen.
  ghost predicate Accounted(files: set<Slot>, p: Progress, seen: set<Slot>, maxCalls: nat) {
    && files <= p.files <= files + seen
    && p.written == p.calls <= maxCalls
    && |p.files| == |files| + p.written
    && (p.stop.None? ==> seen <= p.files)
    && (p.stop.Some? && p.stop.value.BudgetExhausted? ==>
          p.calls == maxCalls && (p.stop.value.market, p.stop.value.day) in seen - p.files)
  }

  lemma MarketAccounted(files: set<Slot>, p: Progress, seen: set<Slot>, slot: Slot, maxCalls: nat, source: Source)
    requires Accounted(files, p, seen, maxCalls) && slot !in seen
    ensures Accounted(files, VisitMarket(p, slot, maxCalls, source),
                      if slot.0 == KONEX && slot.1 < KONEX_OPENED then seen else seen + {slot}, maxCalls)
  {
  }

  // The slots of one day, of the first k markets.
  ghost function DaySlots(day: int, k: nat): set<Slot>
    requires k <= 3
  {
    set i: nat | i < k && Due((MARKETS[i], day)) :: (MARKETS[i], day)
  }

  lemma {:induction false} MarketsAccounted(files: set<Slot>, p: Progress, seen: set<Slot>, day: int, k: nat, maxCalls: nat, source: Source)
    requires Accounted(files, p, seen, maxCalls) && k <= 3 && Weekday(day)
    requires forall s | s in seen :: s.1 != day
    ensures Accounted(files, VisitMarkets(p, day, k, maxCalls, source), seen + DaySlots(day, k), maxCalls)
  {
    hide VisitMarket, Accounted;
    if k == 0 {
      assert seen + DaySlots(day, 0) == seen;
    } else {
      var slot := (MARKETS[k - 1], day);
      MarketsAccounted(files, p, seen, day, k - 1, maxCalls, source);
      MarketAccounted(files, VisitMarkets(p, day, k - 1, maxCalls, source), seen + DaySlots(day, k - 1), slot, maxCalls, source);
      assert seen + DaySlots(day, k) == if Due(slot) then seen + DaySlots(day, k - 1) + {slot} else seen + DaySlots(day, k - 1);
    }
  }

  lemma AllSlotsOfADay(start: int, day: int)
    requires start <= day
    ensures Required(start, day) == if Weekday(day) then Required(start, day - 1) + DaySlots(day, 3) else Required(start, day - 1)
  {
    forall m: Market, d: int | start <= d <= day && Due((m, d))
      ensures (m, d) in Required(start, day - 1) || (Weekday(day) && (m, d) in DaySlots(day, 3))
    {
      var i: nat := match m case KOSPI => 0 case KOSDAQ => 1 case KONEX => 2;
      assert MARKETS[i] == m;
    }
  }

  lemma {:induction false} DaysAccounted(files: set<Slot>, start: int, end: int, maxCalls: nat, source: Source)
    requires start <= end + 1
    ensures Accounted(files, VisitDays(Fresh(files), start, end, maxCalls, source), Required(start, end), maxCalls)
    decreases end - start + 1
  {
    hide VisitMarkets;
    if end < start {
      assert Required(start, end) == {};
    } else {
      DaysAccounted(files, start, end - 1, maxCalls, source);
      AllSlotsOfADay(start, end);
      if Weekday(end) {
        MarketsAccounted(files, VisitDays(Fresh(files), start, end - 1, maxCalls, source), Required(start, end - 1), end, 3, maxCalls, source);
      }
    }
  }

  ghost function Missing(files: set<Slot>, start: int, end: int): set<Slot> { Required(start, end) - files }

  /** A collection keeps every file, adds only slots it was asked for, one a call, and is complete exactly when none is missing. */
  lemma CollectionIsAccounted(files: set<Slot>, start: int, end: int, maxCalls: nat, source: Source)
    requires start <= end
    ensures var p := Collected(files, start, end, maxCalls, source);
            && files <= p.files <= files + Required(start, end)
            && p.written == p.calls <= maxCalls && |p.files| == |files| + p.written
            && |Missing(p.files, start, end)| == |Missing(files, start, end)| - p.written
            && (StatusOf(p).Complete? ==> Missing(p.files, start, end) == {})
  {
    DaysAccounted(files, start, end, maxCalls, source);
    hide VisitDays, Required;
    MissingShrinks(files, Collected(files, start, end, maxCalls, source).files, Required(start, end));
  }

  lemma MissingShrinks(before: set<Slot>, after: set<Slot>, required: set<Slot>)
    requires before <= after <= before + required
    ensures |required - after| == |required - before| - (|after| - |before|)
  {
    var added := after - before;
    assert after == before + added;
    assert required - before == (required - after) + added;
  }

  // Neither a failing request nor a source without data ended the run.
  ghost predicate Unhindered(p: Progress) { p.stop.None? || p.stop.value.BudgetExhausted? }

  /** An unhindered run completes exactly when the budget covers what is missing; otherwise it spends the whole budget,
      one new file a call. */
  lemma BudgetDecides(files: set<Slot>, start: int, end: int, maxCalls: nat, source: Source)
    requires start <= end && Unhindered(Collected(files, start, end, maxCalls, source))
    ensures var p := Collected(files, start, end, maxCalls, source);
            && (StatusOf(p).Complete? <==> |Missing(files, start, end)| <= maxCalls)
            && (!StatusOf(p).Complete? ==> |p.files| == |files| + maxCalls && |Missing(p.files, start, end)| == |Missing(files, start, end)| - maxCalls)
  {
    CollectionIsAccounted(files, start, end, maxCalls, source);
    DaysAccounted(files, start, end, maxCalls, source);
    hide VisitDays, Required;
    var p := Collected(files, start, end, maxCalls, source);
    if p.stop.Some? {
      assert (p.stop.value.market, p.stop.value.day) in Missing(p.files, start, end);
    }
  }

  // The same command run again and again, against whatever the exchange answers each time.
  ghost function Resumed(files: set<Slot>, start: int, end: int, maxCalls: nat, sources: seq<Source>): set<Slot>
    decreases |sources|
  {
    if sources == [] then files
    else Resumed(Collected(files, start, end, maxCalls, sources[0]).files, start, end, maxCalls, sources[1..])
  }

  ghost predicate AllUnhindered(files: set<Slot>, start: int, end: int, maxCalls: nat, sources: seq<Source>)
    decreases |sources|
  {
    sources != [] ==>
      var p := Collected(files, start, end, maxCalls, sources[0]);
      Unhindered(p) && AllUnhindered(p.files, start, end, maxCalls, sources[1..])
  }

  /** Resuming gets there: as many unhindered runs as the budget needs leave nothing missing. */
  lemma {:induction false} ResumingTerminates(files: set<Slot>, start: int, end: int, maxCalls: nat, sources: seq<Source>)
    requires start <= end && AllUnhindered(files, start, end, maxCalls, sources)
    requires |Missing(files, start, end)| <= |sources| * maxCalls
    ensures Missing(Resumed(files, start, end, maxCalls, sources), start, end) == {}
    decreases |sources|
  {
    hide Collected, Missing;
    if sources != [] {
      var p := Collected(files, start, end, maxCalls, sources[0]);
      CollectionIsAccounted(files, start, end, maxCalls, sources[0]);
      BudgetDecides(files, start, end, maxCalls, sources[0]);
      assert |sources| * maxCalls == (|sources| - 1) * maxCalls + maxCalls;
      assert |Missing(p.files, start, end)| <= |sources[1..]| * maxCalls;
      ResumingTerminates(p.files, start, end, maxCalls, sources[1..]);
    }
  }

  // ----- When a source counts as having no data -----

  // The market's requests at the end of the range that came back empty, with no full answer between them.
  function TrailingEmpty(files: set<Slot>, market: Market, start: int, end: int, source: Source): nat
    decreases end - start + 1
  {
    if end < start then 0
    else NextStreak(files, (market, end), TrailingEmpty(files, market, start, end - 1, source), source)
  }

  function NextStreak(files: set<Slot>, slot: Slot, before: nat, source: Source): nat {
    if !Due(slot) || slot in files then before
    else if Settled(source, slot, 0) == Rows(0) then before + 1
    else 0
  }

  lemma MarketStreak(files: set<Slot>, p: Progress, slot: Slot, maxCalls: nat, source: Source)
    requires VisitMarket(p, slot, maxCalls, source).stop.None? && Weekday(slot.1)
    requires slot in p.files <==> slot in files
    ensures var q := VisitMarket(p, slot, maxCalls, source);
            && Length(q.streak, slot.0) == NextStreak(files, slot, Length(p.streak, slot.0), source)
            && forall m | m != slot.0 :: Length(q.streak, m) == Length(p.streak, m)
  {
  }

  lemma MarketFiles(p: Progress, slot: Slot, maxCalls: nat, source: Source)
    requires VisitMarket(p, slot, maxCalls, source).stop.None?
    ensures p.stop.None? && p.files <= VisitMarket(p, slot, maxCalls, source).files <= p.files + {slot}
  {
  }

  lemma DayStreak(files: set<Slot>, p: Progress, day: int, maxCalls: nat, source: Source)
    requires Weekday(day) && VisitMarkets(p, day, 3, maxCalls, source).stop.None?
    requires forall m: Market :: (m, day) in p.files <==> (m, day) in files
    ensures p.stop.None?
    ensures forall m ::
              Length(VisitMarkets(p, day, 3, maxCalls, source).streak, m) == NextStreak(files, (m, day), Length(p.streak, m), source)
  {
    hide VisitMarket, NextStreak, Length;
    var p1, p2 := VisitMarkets(p, day, 1, maxCalls, source), VisitMarkets(p, day, 2, maxCalls, source);
    assert VisitMarkets(p, day, 0, maxCalls, source) == p;
    MarketFiles(p2, (KONEX, day), maxCalls, source);
    MarketFiles(p1, (KOSDAQ, day), maxCalls, source);
    MarketFiles(p, (KOSPI, day), maxCalls, source);
    MarketStreak(files, p2, (KONEX, day), maxCalls, source);
    MarketStreak(files, p1, (KOSDAQ, day), maxCalls, source);
    MarketStreak(files, p, (KOSPI, day), maxCalls, source);
    forall m ensures Length(VisitMarkets(p, day, 3, maxCalls, source).streak, m) == NextStreak(files, (m, day), Length(p.streak, m), source) {
      match m case KOSPI => case KOSDAQ => case KONEX =>
    }
  }

  /** The streak a run keeps counts the latest empty answers of the market, and a day already on file does not end it. */
  lemma {:induction false} StreakCountsAcrossSkippedDays(files: set<Slot>, start: int, end: int, maxCalls: nat, source: Source)
    requires start <= end + 1 && VisitDays(Fresh(files), start, end, maxCalls, source).stop.None?
    ensures forall m :: Length(VisitDays(Fresh(files), start, end, maxCalls, source).streak, m) == TrailingEmpty(files, m, start, end, source)
    decreases end - start + 1
  {
    hide VisitMarkets, NextStreak;
    if start <= end {
      var p := VisitDays(Fresh(files), start, end - 1, maxCalls, source);
      DaysAccounted(files, start, end - 1, maxCalls, source);
      assert forall m: Market :: (m, end) in p.files <==> (m, end) in files;
      if Weekday(end) {
        DayStreak(files, p, end, maxCalls, source);
      } else {
        Weekend(files, end, source);
      }
      StreakCountsAcrossSkippedDays(files, start, end - 1, maxCalls, source);
    }
  }

  lemma Weekend(files: set<Slot>, day: int, source: Source)
    requires !Weekday(day)
    ensures forall m: Market, before: nat :: NextStreak(files, (m, day), before, source) == before
  {
  }

  // Due, not on file before the call, and answered without rows.
  predicate AskedEmpty(files: set<Slot>, source: Source, market: Market, day: int) {
    Due((market, day)) && (market, day) !in files && Settled(source, (market, day), 0) == Rows(0)
  }

  function EmptyCount(files: set<Slot>, source: Source, market: Market, a: int, b: int): nat
    decreases b - a + 1
  {
    if b < a then 0 else EmptyCount(files, source, market, a, b - 1) + if AskedEmpty(files, source, market, b) then 1 else 0
  }

  function DueCount(market: Market, a: int, b: int): nat
    decreases b - a + 1
  {
    if b < a then 0 else DueCount(market, a, b - 1) + if Due((market, b)) then 1 else 0
  }

  // From first to last the market was asked n times and answered each time without rows.
  ghost predicate Counted(files: set<Slot>, source: Source, market: Market, first: int, last: int, n: nat) {
    && first <= last && AskedEmpty(files, source, market, first) && EmptyCount(files, source, market, first, last) == n
    && forall d | first <= d <= last && Due((market, d)) && (market, d) !in files :: AskedEmpty(files, source, market, d)
  }

  // The last n weekdays the market owes, up to this one, were all asked and all empty.
  ghost predicate InARow(files: set<Slot>, source: Source, market: Market, last: int, n: nat) {
    exists g :: g <= last && DueCount(market, g, last) == n && AllEmpty(files, source, market, g, last)
  }

  ghost predicate AllEmpty(files: set<Slot>, source: Source, market: Market, a: int, b: int) {
    forall d | a <= d <= b && Due((market, d)) :: AskedEmpty(files, source, market, d)
  }

  lemma {:induction false} TrailingIsCounted(files: set<Slot>, market: Market, start: int, end: int, source: Source)
    requires TrailingEmpty(files, market, start, end, source) > 0
    ensures exists first :: start <= first && Counted(files, source, market, first, end, TrailingEmpty(files, market, start, end, source))
    decreases end - start + 1
  {
    var before := TrailingEmpty(files, market, start, end - 1, source);
    if before == 0 {
      assert EmptyCount(files, source, market, end, end - 1) == 0;
      assert Counted(files, source, market, end, end, 1);
    } else {
      TrailingIsCounted(files, market, start, end - 1, source);
      var first :| start <= first && Counted(files, source, market, first, end - 1, before);
      assert Counted(files, source, market, first, end, TrailingEmpty(files, market, start, end, source));
    }
  }

  lemma {:induction false} AllEmptyCounts(files: set<Slot>, source: Source, market: Market, a: int, b: int)
    ensures EmptyCount(files, source, market, a, b) <= DueCount(market, a, b)
    ensures EmptyCount(files, source, market, a, b) == DueCount(market, a, b) <==> AllEmpty(files, source, market, a, b)
    decreases b - a + 1
  {
    if a <= b { AllEmptyCounts(files, source, market, a, b - 1); }
  }

  lemma {:induction false} EmptyCountSplits(files: set<Slot>, source: Source, market: Market, a: int, m: int, b: int)
    requires a <= m <= b + 1
    ensures EmptyCount(files, source, market, a, b) == EmptyCount(files, source, market, a, m - 1) + EmptyCount(files, source, market, m, b)
    decreases b - m + 1
  {
    if m <= b { EmptyCountSplits(files, source, market, a, m, b - 1); }
  }

  // Counted answers are the last n owed weekdays exactly when no file interrupts them.
  lemma CountedInARow(files: set<Slot>, source: Source, market: Market, first: int, last: int, n: nat)
    requires Counted(files, source, market, first, last, n)
    ensures InARow(files, source, market, last, n) <==> forall d | first <= d <= last && Due((market, d)) :: (market, d) !in files
  {
    AllEmptyCounts(files, source, market, first, last);
    if InARow(files, source, market, last, n) {
      var g :| g <= last && DueCount(market, g, last) == n && AllEmpty(files, source, market, g, last);
      AllEmptyCounts(files, source, market, g, last);
      LongestSpan(files, source, market, first, g, last);
    }
  }

  // Starting later, one counts fewer.
  lemma LongestSpan(files: set<Slot>, source: Source, market: Market, first: int, g: int, last: int)
    requires g <= last && first <= last && AskedEmpty(files, source, market, first)
    ensures EmptyCount(files, source, market, g, last) == EmptyCount(files, source, market, first, last) ==> g <= first
  {
    hide AskedEmpty;
    if first < g {
      EmptyCountSplits(files, source, market, first, g, last);
      EmptyCountSplits(files, source, market, first, first + 1, g - 1);
      assert EmptyCount(files, source, market, first, first) == 1 by {
        assert EmptyCount(files, source, market, first, first - 1) == 0;
      }
    }
  }

  lemma MarketStop(p: Progress, slot: Slot, maxCalls: nat, source: Source)
    requires p.stop.None? && Weekday(slot.1)
    ensures var q := VisitMarket(p, slot, maxCalls, source);
            q.stop.Some? && q.stop.value.DataUnavailable? ==>
              && q.stop.value == DataUnavailable(slot.0, slot.1, Length(p.streak, slot.0) + 1)
              && Due(slot) && slot !in p.files && Settled(source, slot, 0) == Rows(0) && Length(p.streak, slot.0) + 1 >= EMPTY_STREAK_LIMIT
    ensures var q := VisitMarket(p, slot, maxCalls, source);
            q.stop.None? && (forall m | m == slot.0 :: Length(p.streak, m) < EMPTY_STREAK_LIMIT) ==> Length(q.streak, slot.0) < EMPTY_STREAK_LIMIT
  {
  }

  // A stop for missing data on some day comes from a market's streak as the day found it.
  lemma DayStop(files: set<Slot>, p: Progress, day: int, maxCalls: nat, source: Source)
    requires Weekday(day) && p.stop.None? && forall m: Market :: (m, day) in p.files <==> (m, day) in files
    requires forall m: Market :: Length(p.streak, m) < EMPTY_STREAK_LIMIT
    ensures var q := VisitMarkets(p, day, 3, maxCalls, source);
            q.stop.Some? && q.stop.value.DataUnavailable? ==>
              var m := q.stop.value.market;
              q.stop.value == DataUnavailable(m, day, EMPTY_STREAK_LIMIT) && Length(p.streak, m) + 1 == EMPTY_STREAK_LIMIT && AskedEmpty(files, source, m, day)
    ensures var q := VisitMarkets(p, day, 3, maxCalls, source); q.stop.None? ==> forall m: Market :: Length(q.streak, m) < EMPTY_STREAK_LIMIT
  {
    hide VisitMarket, NextStreak, Length, Settled;
    var p1, p2, p3 := VisitMarkets(p, day, 1, maxCalls, source), VisitMarkets(p, day, 2, maxCalls, source), VisitMarkets(p, day, 3, maxCalls, source);
    assert VisitMarkets(p, day, 0, maxCalls, source) == p;
    MarketStop(p, (KOSPI, day), maxCalls, source);
    if p1.stop.None? {
      MarketFiles(p, (KOSPI, day), maxCalls, source);
      MarketStreak(files, p, (KOSPI, day), maxCalls, source);
      MarketStop(p1, (KOSDAQ, day), maxCalls, source);
      if p2.stop.None? {
        MarketFiles(p1, (KOSDAQ, day), maxCalls, source);
        MarketStreak(files, p1, (KOSDAQ, day), maxCalls, source);
        MarketStop(p2, (KONEX, day), maxCalls, source);
        if p3.stop.None? { MarketStreak(files, p2, (KONEX, day), maxCalls, source); }
      } else {
        MarketsStayStopped(p, day, 2, maxCalls, source);
      }
    } else {
      MarketsStayStopped(p, day, 1, maxCalls, source);
    }
    forall m: Market | p3.stop.None? ensures Length(p3.streak, m) < EMPTY_STREAK_LIMIT {
      match m case KOSPI => case KOSDAQ => case KONEX =>
    }
  }

  // What a stop for missing data says of its market's latest answers; a run that goes on has every streak below the limit.
  ghost predicate StopAccounted(files: set<Slot>, start: int, end: int, source: Source, p: Progress) {
    && (p.stop.None? ==> forall m: Market :: Length(p.streak, m) < EMPTY_STREAK_LIMIT)
    && (p.stop.Some? && p.stop.value.DataUnavailable? ==>
          var DataUnavailable(m, day, n) := p.stop.value;
          && start <= day <= end && n == EMPTY_STREAK_LIMIT && AskedEmpty(files, source, m, day)
          && TrailingEmpty(files, m, start, day, source) == n)
  }

  lemma {:induction false} StopIsCounted(files: set<Slot>, start: int, end: int, maxCalls: nat, source: Source)
    requires start <= end + 1
    ensures StopAccounted(files, start, end, source, VisitDays(Fresh(files), start, end, maxCalls, source))
    decreases end - start + 1
  {
    hide *;
    if end < start {
      NoDays(files, start, end, maxCalls, source);
    } else {
      var p := VisitDays(Fresh(files), start, end - 1, maxCalls, source);
      StopIsCounted(files, start, end - 1, maxCalls, source);
      LastDay(Fresh(files), start, end, maxCalls, source);
      if p.stop.Some? {
        if start <= end - 1 { DaysStayStopped(Fresh(files), start, end - 1, end, maxCalls, source); } else { NoDays(files, start, end - 1, maxCalls, source); }
        StillAccounted(files, start, end - 1, source, p);
      } else if Weekday(end) {
        DaysAccounted(files, start, end - 1, maxCalls, source);
        StreakCountsAcrossSkippedDays(files, start, end - 1, maxCalls, source);
        NotYetCollected(files, p, Required(start, end - 1), start, end, maxCalls);
        DayIsAccounted(files, start, p, end, maxCalls, source);
      } else {
        StillAccounted(files, start, end - 1, source, p);
      }
    }
  }

  lemma NoDays(files: set<Slot>, start: int, end: int, maxCalls: nat, source: Source)
    requires end < start
    ensures var p := VisitDays(Fresh(files), start, end, maxCalls, source); p.stop.None? && StopAccounted(files, start, end, source, p)
  {
  }

  lemma LastDay(p: Progress, start: int, end: int, maxCalls: nat, source: Source)
    requires start <= end
    ensures var before := VisitDays(p, start, end - 1, maxCalls, source);
            VisitDays(p, start, end, maxCalls, source) == VisitDay(before, end, maxCalls, source)
            && (!Weekday(end) ==> VisitDays(p, start, end, maxCalls, source) == before)
  {
    hide VisitMarkets;
  }

  lemma StillAccounted(files: set<Slot>, start: int, end: int, source: Source, p: Progress)
    requires StopAccounted(files, start, end, source, p)
    ensures StopAccounted(files, start, end + 1, source, p)
  {
    hide AskedEmpty, TrailingEmpty;
  }

  // A run's own files are of the days it has been through.
  lemma NotYetCollected(files: set<Slot>, p: Progress, seen: set<Slot>, start: int, day: int, maxCalls: nat)
    requires Accounted(files, p, seen, maxCalls) && seen == Required(start, day - 1)
    ensures forall m: Market :: (m, day) in p.files <==> (m, day) in files
  {
    assert forall m: Market :: (m, day) !in seen;
    hide Required;
  }

  lemma DayIsAccounted(files: set<Slot>, start: int, p: Progress, day: int, maxCalls: nat, source: Source)
    requires Weekday(day) && start <= day && p.stop.None? && forall m: Market :: (m, day) in p.files <==> (m, day) in files
    requires StopAccounted(files, start, day - 1, source, p)
    requires forall m :: Length(p.streak, m) == TrailingEmpty(files, m, start, day - 1, source)
    ensures StopAccounted(files, start, day, source, VisitDay(p, day, maxCalls, source))
  {
    hide VisitMarkets, NextStreak, Settled, AskedEmpty;
    DayStop(files, p, day, maxCalls, source);
    forall m: Market | AskedEmpty(files, source, m, day) ensures NextStreak(files, (m, day), Length(p.streak, m), source) == Length(p.streak, m) + 1 {
      AskedCounts(files, source, m, day, Length(p.streak, m));
    }
  }

  lemma AskedCounts(files: set<Slot>, source: Source, market: Market, day: int, before: nat)
    requires AskedEmpty(files, source, market, day)
    ensures NextStreak(files, (market, day), before, source) == before + 1
  {
    hide Settled;
  }

  /** A run that reports DATA_UNAVAILABLE had fifteen empty answers of one market with no full one between them. They are
      the market's last fifteen weekdays exactly when none of its weekdays between them was on file before the call. */
  lemma ConsecutiveExactlyWhen(files: set<Slot>, start: int, end: int, maxCalls: nat, source: Source)
    requires start <= end && Collected(files, start, end, maxCalls, source).stop.Some?
    requires Collected(files, start, end, maxCalls, source).stop.value.DataUnavailable?
    ensures var DataUnavailable(market, day, n) := Collected(files, start, end, maxCalls, source).stop.value;
            && n == EMPTY_STREAK_LIMIT && start <= day <= end && AskedEmpty(files, source, market, day)
            && exists first ::
                 && start <= first && Counted(files, source, market, first, day, n)
                 && (InARow(files, source, market, day, n) <==> forall d | first <= d <= day && Due((market, d)) :: (market, d) !in files)
  {
    hide VisitDays, TrailingEmpty, Counted, InARow, AskedEmpty;
    StopIsCounted(files, start, end, maxCalls, source);
    var DataUnavailable(market, day, n) := Collected(files, start, end, maxCalls, source).stop.value;
    TrailingIsCounted(files, market, start, day, source);
    var first :| start <= first && Counted(files, source, market, first, day, n);
    CountedInARow(files, source, market, first, day, n);
  }

  // A run over a source that never has rows ends for missing data, if the budget allows and it has enough to ask.
  lemma EmptySourceStops(files: set<Slot>, start: int, end: int, maxCalls: nat, source: Source, market: Market)
    requires start <= end && (forall m, d, k :: source(m, d, k) == Rows(0)) && |Missing(files, start, end)| <= maxCalls
    requires EmptyCount(files, source, market, start, end) >= EMPTY_STREAK_LIMIT
    ensures var p := Collected(files, start, end, maxCalls, source); p.stop.Some? && p.stop.value.DataUnavailable?
  {
    var p := Collected(files, start, end, maxCalls, source);
    OnlyTwoStops(files, start, end, maxCalls, source);
    if p.stop.None? {
      StreakCountsAcrossSkippedDays(files, start, end, maxCalls, source);
      StopIsCounted(files, start, end, maxCalls, source);
      EmptySourceTrails(files, market, start, end, source);
      assert false;
    } else if p.stop.value.BudgetExhausted? {
      BudgetDecides(files, start, end, maxCalls, source);
      assert false;
    }
  }

  lemma {:induction false} EmptySourceTrails(files: set<Slot>, market: Market, start: int, end: int, source: Source)
    requires forall m, d, k :: source(m, d, k) == Rows(0)
    ensures TrailingEmpty(files, market, start, end, source) == EmptyCount(files, source, market, start, end)
    decreases end - start + 1
  {
    if start <= end { EmptySourceTrails(files, market, start, end - 1, source); }
  }

  lemma {:induction false} OnlyTwoStops(files: set<Slot>, start: int, end: int, maxCalls: nat, source: Source)
    requires start <= end + 1 && forall m, d, k :: source(m, d, k) == Rows(0)
    ensures var p := VisitDays(Fresh(files), start, end, maxCalls, source);
            p.stop.None? || p.stop.value.BudgetExhausted? || p.stop.value.DataUnavailable?
    decreases end - start + 1
  {
    hide VisitMarket;
    if start <= end {
      var p := VisitDays(Fresh(files), start, end - 1, maxCalls, source);
      OnlyTwoStops(files, start, end - 1, maxCalls, source);
      if Weekday(end) {
        var p1, p2 := VisitMarkets(p, end, 1, maxCalls, source), VisitMarkets(p, end, 2, maxCalls, source);
        assert VisitMarkets(p, end, 0, maxCalls, source) == p;
        OneOfTwoStops(p, (KOSPI, end), maxCalls, source);
        OneOfTwoStops(p1, (KOSDAQ, end), maxCalls, source);
        OneOfTwoStops(p2, (KONEX, end), maxCalls, source);
      }
    }
  }

  lemma OneOfTwoStops(p: Progress, slot: Slot, maxCalls: nat, source: Source)
    requires p.stop.None? || p.stop.value.BudgetExhausted? || p.stop.value.DataUnavailable?
    requires forall m, d, k :: source(m, d, k) == Rows(0)
    ensures var q := VisitMarket(p, slot, maxCalls, source); q.stop.None? || q.stop.value.BudgetExhausted? || q.stop.value.DataUnavailable?
  {
  }

  lemma CountNext(files: set<Slot>, source: Source, market: Market, a: int, b: int)
    requires a <= b
    ensures EmptyCount(files, source, market, a, b)
            == EmptyCount(files, source, market, a, b - 1) + if AskedEmpty(files, source, market, b) then 1 else 0
    ensures a == b ==> EmptyCount(files, source, market, a, b - 1) == 0
  {
  }

  // A working week, and the weekend after it.
  lemma WeekCounts(files: set<Slot>, source: Source, market: Market, start: int, monday: int, n: nat)
    requires start <= monday && monday % 7 == 1
    requires forall d | monday <= d <= monday + 4 && d != monday + 1 :: AskedEmpty(files, source, market, d)
    requires n == if AskedEmpty(files, source, market, monday + 1) then 5 else 4
    ensures EmptyCount(files, source, market, start, monday + 6) == EmptyCount(files, source, market, start, monday - 1) + n
  {
    NotAskedOnWeekends(files, source, market, monday + 5);
    NotAskedOnWeekends(files, source, market, monday + 6);
    hide EmptyCount, AskedEmpty, Settled;
    CountNext(files, source, market, start, monday);
    CountNext(files, source, market, start, monday + 1);
    CountNext(files, source, market, start, monday + 2);
    CountNext(files, source, market, start, monday + 3);
    CountNext(files, source, market, start, monday + 4);
    CountNext(files, source, market, start, monday + 5);
    CountNext(files, source, market, start, monday + 6);
  }

  // KOSPI's first Tuesday is on file, and so is all of KOSDAQ; KONEX has not opened.
  function TuesdayOnFile(start: int): set<Slot> { {(KOSPI, start + 1)} + set d | start <= d <= start + 21 :: (KOSDAQ, d) }

  lemma FifteenAsked(source: Source, start: int)
    requires start % 7 == 1 && forall m, d, k :: source(m, d, k) == Rows(0)
    ensures EmptyCount(TuesdayOnFile(start), source, KOSPI, start, start + 21) == 15
    ensures AskedEmpty(TuesdayOnFile(start), source, KOSPI, start) && AskedEmpty(TuesdayOnFile(start), source, KOSPI, start + 21)
  {
    hide *;
    var files := TuesdayOnFile(start);
    WeekAsked(source, start, start);
    WeekAsked(source, start, start + 7);
    WeekAsked(source, start, start + 14);
    AskedAllBut(source, start, start);
    AskedAllBut(source, start, start + 21);
    TuesdayOnly(source, start);
    CountNext(files, source, KOSPI, start, start);
    WeekCounts(files, source, KOSPI, start, start, 4);
    WeekCounts(files, source, KOSPI, start, start + 7, 5);
    WeekCounts(files, source, KOSPI, start, start + 14, 5);
    CountNext(files, source, KOSPI, start, start + 21);
  }

  lemma TuesdayOnly(source: Source, start: int)
    ensures !AskedEmpty(TuesdayOnFile(start), source, KOSPI, start + 1)
  {
    hide Settled;
  }

  lemma WeekAsked(source: Source, start: int, monday: int)
    requires start % 7 == 1 && monday % 7 == 1 && forall m, d, k :: source(m, d, k) == Rows(0)
    ensures forall d | monday <= d <= monday + 4 && d != start + 1 :: AskedEmpty(TuesdayOnFile(start), source, KOSPI, d)
  {
    hide AskedEmpty, TuesdayOnFile;
    forall d | monday <= d <= monday + 4 && d != start + 1 ensures AskedEmpty(TuesdayOnFile(start), source, KOSPI, d) {
      AskedAllBut(source, start, d);
    }
  }

  lemma AskedAllBut(source: Source, start: int, d: int)
    requires (d + 6) % 7 < 5 && d != start + 1 && forall m, d, k :: source(m, d, k) == Rows(0)
    ensures AskedEmpty(TuesdayOnFile(start), source, KOSPI, d)
  {
  }

  lemma NotAskedOnWeekends(files: set<Slot>, source: Source, market: Market, day: int)
    requires !Weekday(day)
    ensures !AskedEmpty(files, source, market, day)
  {
  }

  /** With one Tuesday already on file, fifteen empty answers over sixteen weekdays end the run as if they were in a row. */
  lemma StreakSpansAFile(start: int, maxCalls: nat, source: Source)
    requires start % 7 == 1 && start + 21 < KONEX_OPENED && forall m, d, k :: source(m, d, k) == Rows(0)
    requires |Missing(TuesdayOnFile(start), start, start + 21)| <= maxCalls
    ensures Collected(TuesdayOnFile(start), start, start + 21, maxCalls, source).stop == Some(DataUnavailable(KOSPI, start + 21, 15))
    ensures !InARow(TuesdayOnFile(start), source, KOSPI, start + 21, 15)
  {
    hide Collected, Counted, InARow, EmptyCount, AskedEmpty, TuesdayOnFile, Settled, Required, Due, Missing;
    var files, end := TuesdayOnFile(start), start + 21;
    FifteenAsked(source, start);
    EmptySourceStops(files, start, end, maxCalls, source, KOSPI);
    ConsecutiveExactlyWhen(files, start, end, maxCalls, source);
    var DataUnavailable(market, day, n) := Collected(files, start, end, maxCalls, source).stop.value;
    OnlyKospiIsAsked(source, start, market, day);
    var first :| start <= first && Counted(files, source, market, first, day, n)
                 && (InARow(files, source, market, day, n) <==> forall d | first <= d <= day && Due((market, d)) :: (market, d) !in files);
    WholeSpan(files, source, start, end, first, day, n);
    TuesdayIsDue(start);
  }

  lemma OnlyKospiIsAsked(source: Source, start: int, market: Market, day: int)
    requires start <= day <= start + 21 < KONEX_OPENED && AskedEmpty(TuesdayOnFile(start), source, market, day)
    ensures market == KOSPI
  {
    hide Settled;
  }

  lemma TuesdayIsDue(start: int)
    requires start % 7 == 1
    ensures Due((KOSPI, start + 1)) && (KOSPI, start + 1) in TuesdayOnFile(start)
  {
  }

  // Where the range holds n empty answers, the first and the last day among them, the span of n of them is the whole range.
  lemma WholeSpan(files: set<Slot>, source: Source, start: int, end: int, first: int, day: int, n: nat)
    requires start <= first && day <= end && Counted(files, source, KOSPI, first, day, n)
    requires EmptyCount(files, source, KOSPI, start, end) == n
    requires AskedEmpty(files, source, KOSPI, start) && AskedEmpty(files, source, KOSPI, end)
    ensures first == start && day == end
  {
    hide AskedEmpty, EmptyCount;
    EmptyCountSplits(files, source, KOSPI, start, first, end);
    EmptyCountSplits(files, source, KOSPI, first, day + 1, end);
    if first > start { AtLeastOne(files, source, start, first - 1, start); }
    if day < end { AtLeastOne(files, source, day + 1, end, end); }
  }

  lemma {:induction false} AtLeastOne(files: set<Slot>, source: Source, a: int, b: int, day: int)
    requires a <= day <= b && AskedEmpty(files, source, KOSPI, day)
    ensures EmptyCount(files, source, KOSPI, a, b) >= 1
    decreases b - a
  {
    if day < b { AtLeastOne(files, source, a, b - 1, day); }
  }

  // ----- The corpus builder's demand -----

  function DaysOf(files: set<Slot>, market: Market): set<int> { set f | f in files && f.0 == market :: f.1 }

  // Every weekday between the first and the last file is there.
  ghost predicate Covered(present: set<int>) {
    forall a, d, b | a in present && b in present && a <= d <= b && Weekday(d) :: d in present
  }

  method RequireWeekdayCoverage(entries: seq<int>) returns (missing: seq<int>)
    requires entries != []
    ensures missing == [] <==> Covered(set d | d in entries)
    ensures forall d :: d in missing <==>
              Weekday(d) && d !in entries && exists a, b :: a in entries && b in entries && a <= d <= b
    ensures forall i, j | 0 <= i < j < |missing| :: missing[i] < missing[j]
  {
    var first, last := entries[0], entries[0];
    for i := 1 to |entries|
      invariant first in entries && last in entries && forall j | 0 <= j < i :: first <= entries[j] <= last
    {
      if entries[i] < first { first := entries[i]; }
      if entries[i] > last { last := entries[i]; }
    }
    missing := [];
    var day := first;
    while day <= last
      invariant first <= day <= last + 1
      invariant forall d :: d in missing <==> first <= d < day && Weekday(d) && d !in entries
      invariant forall i | 0 <= i < |missing| :: missing[i] < day
      invariant forall i, j | 0 <= i < j < |missing| :: missing[i] < missing[j]
    {
      if Weekday(day) && day !in entries { missing := missing + [day]; }
      day := day + 1;
    }
    MissingMeansUncovered(entries, first, last, missing);
  }

  lemma MissingMeansUncovered(entries: seq<int>, first: int, last: int, missing: seq<int>)
    requires first in entries && last in entries && forall d | d in entries :: first <= d <= last
    requires forall d :: d in missing <==> first <= d < last + 1 && Weekday(d) && d !in entries
    ensures missing == [] <==> Covered(set d | d in entries)
  {
    var present := set d | d in entries;
    if missing != [] {
      var d := missing[0];
      assert d in missing;
      assert d !in entries;
      assert d !in present && first in present && last in present;
    } else {
      forall a, d, b | a in present && b in present && a <= d <= b && Weekday(d) ensures d in present {
        assert d !in missing;
      }
    }
  }

  // Decided before the call: every weekday between the market's first and last day, on file or asked for, is one of these.
  ghost predicate WillBeCovered(files: set<Slot>, start: int, end: int, market: Market) {
    var days := DaysOf(files + Required(start, end), market);
    forall a, d, b | a in days && b in days && a <= d <= b && Weekday(d) && (market, d) !in Required(start, end) :: (market, d) in files
  }

  /** A complete collection leaves what was there and what was asked for, and a market passes the check after it exactly when
      the weekdays between those days that the collection does not answer for were on file beforehand. */
  lemma CompleteRunCovers(files: set<Slot>, start: int, end: int, maxCalls: nat, source: Source, market: Market)
    requires start <= end && StatusOf(Collected(files, start, end, maxCalls, source)).Complete?
    ensures Collected(files, start, end, maxCalls, source).files == files + Required(start, end)
    ensures Covered(DaysOf(Collected(files, start, end, maxCalls, source).files, market)) <==> WillBeCovered(files, start, end, market)
  {
    CollectionIsAccounted(files, start, end, maxCalls, source);
    hide Collected, Required;
    var after := Collected(files, start, end, maxCalls, source).files;
    forall slot | slot in Required(start, end) ensures slot in after {
      assert slot !in Missing(after, start, end);
    }
    assert after == files + Required(start, end);
    var days := DaysOf(after, market);
    forall d ensures d in days <==> (market, d) in after {
      assert (market, d) in after ==> (market, d).1 in days;
    }
  }

  /** A directory holding only files this collection would itself have asked for passes the builder's check. */
  lemma InRangeDirectoryIsCovered(files: set<Slot>, start: int, end: int, maxCalls: nat, source: Source, market: Market)
    requires start <= end && StatusOf(Collected(files, start, end, maxCalls, source)).Complete?
    requires files <= Required(start, end)
    ensures Covered(DaysOf(Collected(files, start, end, maxCalls, source).files, market))
  {
    CompleteRunCovers(files, start, end, maxCalls, source, market);
    hide Collected, Covered;
    assert files + Required(start, end) == Required(start, end);
    forall d | d in DaysOf(Required(start, end), market) ensures (market, d) in Required(start, end) {}
  }

  /** A KONEX file from before that market opened, with a weekday missing before the opening, makes a complete collection
      that reaches the opened market fail the check: the missing day is never asked for. */
  lemma EarlyKonexFileBreaksCoverage(files: set<Slot>, start: int, end: int, maxCalls: nat, source: Source, early: int, hole: int, later: int)
    requires start <= end && StatusOf(Collected(files, start, end, maxCalls, source)).Complete?
    requires (KONEX, early) in files && early <= hole < KONEX_OPENED && Weekday(hole) && (KONEX, hole) !in files
    requires start <= later <= end && Due((KONEX, later))
    ensures !Covered(DaysOf(Collected(files, start, end, maxCalls, source).files, KONEX))
  {
    CompleteRunCovers(files, start, end, maxCalls, source, KONEX);
    var days := DaysOf(files + Required(start, end), KONEX);
    assert (KONEX, later) in Required(start, end) && (KONEX, hole) !in Required(start, end);
    hide Collected, Required, Covered;
    assert (KONEX, early).1 in days && (KONEX, later).1 in days;
  }
}
