/** packages/events/reconciliation.py: one after-close pass over a day's Events, written through the Event writer. */
module Reconciliation {
  import opened Results
  import opened Sorting
  import opened DomainState
  import opened EventModels
  import opened EventStore
  import opened EventWriting
  import opened EventHistory
  import opened EventRuns

  datatype Confirmation = Confirmation(themeId: string, eventDate: int, direction: string, summary: string, lineage: LineageRef)

  datatype HistoryEntry = HistoryEntry(key: string, eventDate: Option<int>, direction: string, rawText: string, contentHash: Option<string>)

  datatype ThemeDetail = ThemeDetail(sourceThemeId: string, history: seq<HistoryEntry>)

  // The texts that name a pass: message ids by Event and article digest, the correlation id, and the order of Event ids.
  datatype Texts = Texts(
    name: (EventId, Option<seq<(string, Option<string>)>>) -> string, correlationId: string, idLe: (EventId, EventId) -> bool)

  datatype Settings = Settings(marketDate: int, now: int, catalystKey: string, texts: Texts)

  datatype Plan = Skip(id: EventId) | Submit(matches: bool, command: Command)

  datatype Outcome = Outcome(matched: seq<WriteResult>, unmatched: seq<WriteResult>, skipped: seq<EventId>)

  datatype PassError = CommandRefused | WriteFailed(error: EventError)

  const RECONCILIATION_SOURCE: string := "after-close-reconciliation"
  const POLICY: string := "after-close-reconcile-2026.08.1"
  const LINEAGE_KIND: string := "INFOSTOCK_THEME_HISTORY"

  // ----- Confirmations from the theme details -----

  function IdentifierOf(d: ThemeDetail, e: HistoryEntry): string { d.sourceThemeId + ":" + e.key }

  ghost predicate DistinctLineage(confirmations: seq<Confirmation>) {
    forall i, j | 0 <= i < j < |confirmations| :: confirmations[i].lineage.identifier != confirmations[j].lineage.identifier
  }

  // The confirmation states what one dated entry of one theme recorded.
  ghost predicate ComesFrom(c: Confirmation, details: seq<ThemeDetail>) {
    exists d, e :: d in details && e in d.history && e.eventDate == Some(c.eventDate)
      && c == Confirmation("thm_" + d.sourceThemeId, c.eventDate, e.direction, e.rawText,
                           LineageRef(LINEAGE_KIND, IdentifierOf(d, e), None, e.contentHash))
  }

  /** Every dated entry is confirmed once: under a new identifier, and never twice under one. */
  method ConfirmationsFromThemeDetails(details: seq<ThemeDetail>) returns (confirmations: seq<Confirmation>)
    ensures DistinctLineage(confirmations)
    ensures forall c | c in confirmations :: ComesFrom(c, details)
    ensures forall d, e | d in details && e in d.history && e.eventDate.Some? ::
              exists c :: c in confirmations && c.lineage.identifier == IdentifierOf(d, e)
  {
    confirmations := [];
    var seen: set<string> := {};
    for i := 0 to |details|
      invariant seen == set c | c in confirmations :: c.lineage.identifier
      invariant DistinctLineage(confirmations)
      invariant forall c | c in confirmations :: ComesFrom(c, details)
      invariant forall j, e | 0 <= j < i && e in details[j].history && e.eventDate.Some? :: IdentifierOf(details[j], e) in seen
    {
      var d := details[i];
      for k := 0 to |d.history|
        invariant seen == set c | c in confirmations :: c.lineage.identifier
        invariant DistinctLineage(confirmations)
        invariant forall c | c in confirmations :: ComesFrom(c, details)
        invariant forall j, e | 0 <= j < i && e in details[j].history && e.eventDate.Some? :: IdentifierOf(details[j], e) in seen
        invariant forall m | 0 <= m < k && d.history[m].eventDate.Some? :: IdentifierOf(d, d.history[m]) in seen
      {
        var entry := d.history[k];
        if entry.eventDate.None? { continue; }
        var identifier := IdentifierOf(d, entry);
        if identifier in seen { continue; }
        var c := Confirmation("thm_" + d.sourceThemeId, entry.eventDate.value, entry.direction, entry.rawText,
                              LineageRef(LINEAGE_KIND, identifier, None, entry.contentHash));
        assert d in details && entry in d.history;
        NewIdentifier(confirmations, c);
        seen := seen + {identifier};
        confirmations := confirmations + [c];
      }
    }
    forall d, e | d in details && e in d.history && e.eventDate.Some?
      ensures exists c :: c in confirmations && c.lineage.identifier == IdentifierOf(d, e)
    {
      var j :| 0 <= j < |details| && details[j] == d;
      assert IdentifierOf(details[j], e) in seen;
    }
  }

  lemma NewIdentifier(confirmations: seq<Confirmation>, c: Confirmation)
    requires DistinctLineage(confirmations) && forall x | x in confirmations :: x.lineage.identifier != c.lineage.identifier
    ensures DistinctLineage(confirmations + [c])
  {
    forall i | 0 <= i < |confirmations| ensures confirmations[i].lineage.identifier != c.lineage.identifier {
      assert confirmations[i] in confirmations;
    }
  }

  // ----- The day's rising articles, by theme -----

  predicate IsUp(c: Confirmation, date: int) { c.eventDate == date && c.direction == "UP" }

  function UpOn(confirmations: seq<Confirmation>, date: int, theme: string): seq<Confirmation> {
    if confirmations == [] then [] else
    var last := confirmations[|confirmations| - 1];
    if IsUp(last, date) && last.themeId == theme then UpOn(confirmations[..|confirmations| - 1], date, theme) + [last]
    else UpOn(confirmations[..|confirmations| - 1], date, theme)
  }

  predicate ByIdentifier(a: Confirmation, b: Confirmation) { StrLe(a.lineage.identifier, b.lineage.identifier) }

  function Articles(confirmations: seq<Confirmation>, date: int, theme: string): seq<Confirmation> {
    Sort(UpOn(confirmations, date, theme), ByIdentifier)
  }

  lemma {:induction false} UpOnAre(confirmations: seq<Confirmation>, date: int, theme: string)
    ensures forall c :: c in UpOn(confirmations, date, theme) <==> c in confirmations && IsUp(c, date) && c.themeId == theme
    ensures forall c :: multiset(UpOn(confirmations, date, theme))[c]
                        == if IsUp(c, date) && c.themeId == theme then multiset(confirmations)[c] else 0
  {
    hide IsUp;
    if confirmations != [] {
      var front, last := confirmations[..|confirmations| - 1], confirmations[|confirmations| - 1];
      UpOnAre(front, date, theme);
      assert confirmations == front + [last];
    }
  }

  lemma {:induction false} UpOnDistinct(confirmations: seq<Confirmation>, date: int, theme: string)
    requires DistinctLineage(confirmations)
    ensures DistinctLineage(UpOn(confirmations, date, theme))
  {
    hide IsUp;
    if confirmations != [] {
      var front, last := confirmations[..|confirmations| - 1], confirmations[|confirmations| - 1];
      UpOnDistinct(front, date, theme);
      UpOnAre(front, date, theme);
      forall x | x in UpOn(front, date, theme) ensures x.lineage.identifier != last.lineage.identifier {
        var i :| 0 <= i < |front| && front[i] == x;
        assert confirmations[i] == x && confirmations[|front|] == last;
      }
      NewIdentifier(UpOn(front, date, theme), last);
    }
  }

  lemma ByIdentifierIsTotal()
    ensures TotalPreorder(ByIdentifier)
  {
    StrLeIsTotalOrder();
  }

  lemma ArticlesAre(confirmations: seq<Confirmation>, date: int, theme: string)
    ensures forall c :: c in Articles(confirmations, date, theme) <==> c in confirmations && IsUp(c, date) && c.themeId == theme
    ensures DistinctLineage(confirmations) ==> DistinctLineage(Articles(confirmations, date, theme))
    ensures forall c :: multiset(Articles(confirmations, date, theme))[c]
                        == if IsUp(c, date) && c.themeId == theme then multiset(confirmations)[c] else 0
  {
    ByIdentifierIsTotal();
    UpOnAre(confirmations, date, theme);
    SortCorrect(UpOn(confirmations, date, theme), ByIdentifier);
    hide Sort, UpOn, IsUp;
    if DistinctLineage(confirmations) {
      UpOnDistinct(confirmations, date, theme);
      SameIdentifiers(UpOn(confirmations, date, theme), Articles(confirmations, date, theme));
    }
  }

  lemma SameIdentifiers(a: seq<Confirmation>, b: seq<Confirmation>)
    requires DistinctLineage(a) && multiset(a) == multiset(b)
    ensures DistinctLineage(b)
  {
    assert Distinct(a);
    DistinctOfMultiset(a, b);
    forall i, j | 0 <= i < j < |b| ensures b[i].lineage.identifier != b[j].lineage.identifier {
      assert b[i] in multiset(a) && b[j] in multiset(a);
      var x :| 0 <= x < |a| && a[x] == b[i];
      var y :| 0 <= y < |a| && a[y] == b[j];
    }
  }

  // ----- What each Event is due -----

  function Eligible(events: seq<CanonicalEvent>, s: Settings): seq<CanonicalEvent> {
    if events == [] then [] else
    var last := events[|events| - 1];
    if last.identityKey.marketDate == s.marketDate && last.identityKey.catalystKey == s.catalystKey
    then Eligible(events[..|events| - 1], s) + [last] else Eligible(events[..|events| - 1], s)
  }

  predicate EventLe(texts: Texts, a: CanonicalEvent, b: CanonicalEvent) { texts.idLe(a.eventId, b.eventId) }

  function InIdOrder(events: seq<CanonicalEvent>, s: Settings): seq<CanonicalEvent> {
    Sort(Eligible(events, s), (a, b) => EventLe(s.texts, a, b))
  }

  // The whole second of the pass, rounded toward zero.
  function Sequence(now: int): int { if now >= 0 then now / 1_000_000 else -((-now) / 1_000_000) }

  function Decimal(n: nat): string { if n < 10 then ["0123456789"[n]] else Decimal(n / 10) + ["0123456789"[n % 10]] }

  function Lineages(articles: seq<Confirmation>): seq<LineageRef> {
    seq(|articles|, i requires 0 <= i < |articles| => articles[i].lineage)
  }

  function DigestOf(articles: seq<Confirmation>): seq<(string, Option<string>)> {
    seq(|articles|, i requires 0 <= i < |articles| => (articles[i].lineage.identifier, articles[i].lineage.contentHash))
  }

  function MetadataOf(s: Settings, messageId: string, lineage: seq<LineageRef>): Metadata {
    Metadata(messageId, RECONCILIATION_SOURCE, Sequence(s.now), s.now, s.now, s.texts.correlationId, None, lineage)
  }

  function MatchCommand(s: Settings, e: CanonicalEvent, articles: seq<Confirmation>): Command {
    ReconcileEvent(MetadataOf(s, s.texts.name(e.eventId, Some(DigestOf(articles))), Lineages(articles)), e.eventId, Matched,
                   e.stateVersion, "장후 인포스탁 확정 기사 " + Decimal(|articles|) + "건 정합", POLICY)
  }

  function UnmatchCommand(s: Settings, e: CanonicalEvent): Command {
    ReconcileEvent(MetadataOf(s, s.texts.name(e.eventId, None), []), e.eventId, Unmatched, e.stateVersion, "장후 인포스탁 확정 기사 없음", POLICY)
  }

  function PlanFor(s: Settings, e: CanonicalEvent, articles: seq<Confirmation>): Plan {
    if e.reconciliation == Matched || (articles == [] && e.reconciliation == Unmatched) then Skip(e.eventId)
    else if articles != [] then Submit(true, MatchCommand(s, e, articles))
    else Submit(false, UnmatchCommand(s, e))
  }

  function Plans(s: Settings, eligible: seq<CanonicalEvent>, confirmations: seq<Confirmation>): seq<Plan> {
    seq(|eligible|, i requires 0 <= i < |eligible| =>
      PlanFor(s, eligible[i], Articles(confirmations, s.marketDate, eligible[i].identityKey.canonicalThemeId)))
  }

  function Noted(o: Outcome, p: Plan, r: WriteResult): Outcome {
    if p.Skip? then o.(skipped := o.skipped + [p.id])
    else if p.matches then o.(matched := o.matched + [r])
    else o.(unmatched := o.unmatched + [r])
  }

  // The pass over the plans; a refused command or a failed write ends it where it stands.
  function Perform(t: Tables, commitFails: bool, plans: seq<Plan>, so: Outcome): (Tables, Result<Outcome, PassError>)
    decreases |plans|
  {
    if plans == [] then (t, Success(so)) else
    var p := plans[0];
    if p.Skip? then Perform(t, commitFails, plans[1..], so.(skipped := so.skipped + [p.id])) else
    if !ValidCommand(p.command) then (t, Failure(CommandRefused)) else
    var (t', r) := Write(t, p.command, commitFails);
    if r.Failure? then (t', Failure(WriteFailed(r.error))) else Perform(t', commitFails, plans[1..], Noted(so, p, r.value))
  }

  const EMPTY_OUTCOME: Outcome := Outcome([], [], [])

  function Pass(t: Tables, commitFails: bool, events: seq<CanonicalEvent>, confirmations: seq<Confirmation>, s: Settings)
    : (Tables, Result<Outcome, PassError>)
  {
    Perform(t, commitFails, Plans(s, InIdOrder(events, s), confirmations), EMPTY_OUTCOME)
  }

  // ----- The pass as the source runs it -----

  method GroupByTheme(confirmations: seq<Confirmation>, date: int) returns (byTheme: map<string, seq<Confirmation>>)
    ensures forall theme :: theme in byTheme <==> Articles(confirmations, date, theme) != []
    ensures forall theme | theme in byTheme :: byTheme[theme] == Articles(confirmations, date, theme)
  {
    hide Sort, UpOn, Grouped;
    var up: map<string, seq<Confirmation>> := map[];
    NothingGrouped(date);
    assert confirmations[..0] == [];
    for i := 0 to |confirmations|
      invariant Grouped(confirmations[..i], date, up)
    {
      assert confirmations[..i + 1] == confirmations[..i] + [confirmations[i]];
      var c := confirmations[i];
      GroupNext(confirmations[..i], date, up, c);
      if c.eventDate != date || c.direction != "UP" { continue; }
      var before := if c.themeId in up then up[c.themeId] else [];
      up := up[c.themeId := before + [c]];
    }
    assert confirmations[..|confirmations|] == confirmations;
    byTheme := map theme | theme in up :: Sort(up[theme], ByIdentifier);
    SortedGroups(confirmations, date, up);
  }

  ghost predicate Grouped(confirmations: seq<Confirmation>, date: int, up: map<string, seq<Confirmation>>) {
    && (forall theme :: theme in up <==> UpOn(confirmations, date, theme) != [])
    && (forall theme | theme in up :: up[theme] == UpOn(confirmations, date, theme))
  }

  lemma NothingGrouped(date: int)
    ensures Grouped([], date, map[])
  {
  }

  lemma GroupNext(confirmations: seq<Confirmation>, date: int, up: map<string, seq<Confirmation>>, c: Confirmation)
    requires Grouped(confirmations, date, up)
    ensures Grouped(confirmations + [c], date,
                    if IsUp(c, date) then up[c.themeId := (if c.themeId in up then up[c.themeId] else []) + [c]] else up)
  {
    assert (confirmations + [c])[..|confirmations|] == confirmations;
    hide IsUp;
  }

  lemma SortedGroups(confirmations: seq<Confirmation>, date: int, up: map<string, seq<Confirmation>>)
    requires Grouped(confirmations, date, up)
    ensures forall theme :: theme in up <==> Articles(confirmations, date, theme) != []
    ensures forall theme | theme in up :: Sort(up[theme], ByIdentifier) == Articles(confirmations, date, theme)
  {
    hide Sort, UpOn;
    forall theme ensures UpOn(confirmations, date, theme) != [] <==> Articles(confirmations, date, theme) != [] {
      ByIdentifierIsTotal();
      SortCorrect(UpOn(confirmations, date, theme), ByIdentifier);
    }
  }

  method ReconcileAfterClose(writer: EventWriter, events: seq<CanonicalEvent>, confirmations: seq<Confirmation>, s: Settings)
    returns (r: Result<Outcome, PassError>)
    modifies writer.store
    ensures (writer.store.State(), r) == Pass(old(writer.store.State()), old(writer.store.failNextCommit), events, confirmations, s)
  {
    hide Write, ValidCommand, Articles, Sort, WriteBody;
    var byTheme := GroupByTheme(confirmations, s.marketDate);
    var eligible := InIdOrder(events, s);
    ghost var plans, t0, fails := Plans(s, eligible, confirmations), writer.store.State(), writer.store.failNextCommit;
    var outcome := EMPTY_OUTCOME;
    for i := 0 to |eligible|
      invariant writer.store.failNextCommit == fails
      invariant Perform(t0, fails, plans, EMPTY_OUTCOME) == Perform(writer.store.State(), fails, plans[i..], outcome)
    {
      var event := eligible[i];
      var theme := event.identityKey.canonicalThemeId;
      var articles := if theme in byTheme then byTheme[theme] else [];
      assert plans[i..][0] == PlanFor(s, event, articles) && plans[i..][1..] == plans[i + 1..];
      if event.reconciliation == Matched || (articles == [] && event.reconciliation == Unmatched) {
        outcome := outcome.(skipped := outcome.skipped + [event.eventId]);
        continue;
      }
      var command := if articles != [] then MatchCommand(s, event, articles) else UnmatchCommand(s, event);
      if !ValidCommand(command) { return Failure(CommandRefused); }
      ghost var before := writer.store.State();
      var result := writer.Submit(command);
      SubmitSucceedsUnmarked(before, command, fails);
      if result.Failure? { return Failure(WriteFailed(result.error)); }
      if articles != [] {
        outcome := outcome.(matched := outcome.matched + [result.value]);
      } else {
        outcome := outcome.(unmatched := outcome.unmatched + [result.value]);
      }
    }
    return Success(outcome);
  }

  lemma SubmitSucceedsUnmarked(t: Tables, c: Command, commitFails: bool)
    ensures Write(t, c, commitFails).1.Success? ==> !commitFails && WriteBody(t, c).Success?
  {
  }

  method SortedThemes(byTheme: map<string, seq<Confirmation>>) returns (themes: seq<string>)
    ensures Distinct(themes) && forall theme :: theme in themes <==> theme in byTheme
    ensures SortedBy(themes, StrLe)
  {
    hide StrLe;
    StrLeIsTotalOrder();
    var left: set<string> := byTheme.Keys;
    themes := [];
    while left != {}
      invariant left <= byTheme.Keys && forall theme :: theme in themes <==> theme in byTheme && theme !in left
      invariant SortedBy(themes, StrLe) && Distinct(themes)
      decreases left
    {
      var theme :| theme in left;
      ghost var before := themes;
      SortedInsert(themes, theme);
      themes := Insert(theme, themes, StrLe);
      left := left - {theme};
    }
  }

  lemma SortedInsert(themes: seq<string>, theme: string)
    requires SortedBy(themes, StrLe) && Distinct(themes) && theme !in themes
    ensures SortedBy(Insert(theme, themes, StrLe), StrLe) && Distinct(Insert(theme, themes, StrLe))
    ensures forall x :: x in Insert(theme, themes, StrLe) <==> x == theme || x in themes
  {
    StrLeIsTotalOrder();
    hide StrLe;
    InsertKeepsElements(theme, themes, StrLe);
    InsertKeepsSorted(theme, themes, StrLe);
    var after := Insert(theme, themes, StrLe);
    assert multiset(after) == multiset([theme] + themes);
    DistinctOfMultiset([theme] + themes, after);
    forall x ensures x in after <==> x == theme || x in themes {
      assert x in after <==> x in multiset(after);
    }
  }

  // The articles of some themes, theme after theme.
  function ArticlesOf(confirmations: seq<Confirmation>, date: int, themes: seq<string>): seq<Confirmation> {
    if themes == [] then [] else
    ArticlesOf(confirmations, date, themes[..|themes| - 1]) + Articles(confirmations, date, themes[|themes| - 1])
  }

  ghost predicate HasEvent(events: seq<CanonicalEvent>, s: Settings, theme: string) {
    exists e :: e in Eligible(events, s) && e.identityKey.canonicalThemeId == theme
  }

  // The themes with articles of the day but no Event, each once, in the order of their names.
  ghost predicate Uncovered(events: seq<CanonicalEvent>, confirmations: seq<Confirmation>, s: Settings, themes: seq<string>) {
    && Distinct(themes) && SortedBy(themes, StrLe)
    && forall theme :: theme in themes <==> Articles(confirmations, s.marketDate, theme) != [] && !HasEvent(events, s, theme)
  }

  /** The articles handed back are those of the themes without an Event, by theme and within it by identifier: each of the
      day's rising ones as often as it was given. */
  method UnmatchedConfirmations(events: seq<CanonicalEvent>, confirmations: seq<Confirmation>, s: Settings)
    returns (unmatched: seq<Confirmation>)
    ensures exists themes :: Uncovered(events, confirmations, s, themes) && unmatched == ArticlesOf(confirmations, s.marketDate, themes)
    ensures forall c :: multiset(unmatched)[c] ==
              if IsUp(c, s.marketDate) && !HasEvent(events, s, c.themeId) then multiset(confirmations)[c] else 0
  {
    hide Articles, Eligible, StrLe, IsUp, Sort;
    var byTheme := GroupByTheme(confirmations, s.marketDate);
    var eligible := Eligible(events, s);
    var covered := set e | e in eligible :: e.identityKey.canonicalThemeId;
    var themes := SortedThemes(byTheme);
    unmatched := [];
    ghost var kept: seq<string> := [];
    hide ArticlesOf, Distinct, SortedBy, Uncovered, HasEvent, KeptSoFar;
    NothingKept(confirmations, s.marketDate, themes, covered);
    for i := 0 to |themes|
      invariant unmatched == ArticlesOf(confirmations, s.marketDate, kept) && KeptSoFar(themes, i, covered, kept)
    {
      var theme := themes[i];
      KeepNext(confirmations, s.marketDate, themes, i, covered, kept);
      if theme in covered { continue; }
      assert theme in themes;
      unmatched := unmatched + byTheme[theme];
      kept := kept + [theme];
    }
    AllKept(events, confirmations, s, byTheme, themes, covered, kept);
    CountHandedBack(events, confirmations, s, kept);
  }

  // The themes kept are those of the first i that are not covered, in order.
  ghost predicate KeptSoFar(themes: seq<string>, i: nat, covered: set<string>, kept: seq<string>) {
    && i <= |themes| && SortedBy(kept, StrLe) && Distinct(kept)
    && forall theme :: theme in kept <==> theme in themes[..i] && theme !in covered
  }

  lemma NothingKept(confirmations: seq<Confirmation>, date: int, themes: seq<string>, covered: set<string>)
    ensures KeptSoFar(themes, 0, covered, []) && ArticlesOf(confirmations, date, []) == []
  {
  }

  lemma KeepNext(confirmations: seq<Confirmation>, date: int, themes: seq<string>, i: nat, covered: set<string>, kept: seq<string>)
    requires i < |themes| && Distinct(themes) && SortedBy(themes, StrLe) && KeptSoFar(themes, i, covered, kept)
    ensures KeptSoFar(themes, i + 1, covered, if themes[i] in covered then kept else kept + [themes[i]])
    ensures ArticlesOf(confirmations, date, kept + [themes[i]]) == ArticlesOf(confirmations, date, kept) + Articles(confirmations, date, themes[i])
  {
    hide Articles, StrLe;
    var theme := themes[i];
    assert themes[..i + 1] == themes[..i] + [theme] && theme !in themes[..i];
    forall x | x in kept ensures StrLe(x, theme) {
      var j :| 0 <= j < i && themes[j] == x;
    }
    assert (kept + [theme])[..|kept|] == kept;
  }

  lemma AllKept(events: seq<CanonicalEvent>, confirmations: seq<Confirmation>, s: Settings, byTheme: map<string, seq<Confirmation>>,
                themes: seq<string>, covered: set<string>, kept: seq<string>)
    requires KeptSoFar(themes, |themes|, covered, kept) && forall theme :: theme in themes <==> theme in byTheme
    requires forall theme :: theme in byTheme <==> Articles(confirmations, s.marketDate, theme) != []
    requires covered == set e | e in Eligible(events, s) :: e.identityKey.canonicalThemeId
    ensures Uncovered(events, confirmations, s, kept)
  {
    hide Articles, StrLe, Eligible;
    assert themes[..|themes|] == themes;
  }

  lemma {:induction false} CountArticlesOf(confirmations: seq<Confirmation>, date: int, themes: seq<string>)
    requires Distinct(themes)
    ensures forall c :: multiset(ArticlesOf(confirmations, date, themes))[c]
                        == if IsUp(c, date) && c.themeId in themes then multiset(confirmations)[c] else 0
  {
    hide Articles, IsUp;
    if themes != [] {
      var front, last := themes[..|themes| - 1], themes[|themes| - 1];
      assert themes == front + [last] && last !in front;
      CountArticlesOf(confirmations, date, front);
      ArticlesAre(confirmations, date, last);
    }
  }

  lemma CountHandedBack(events: seq<CanonicalEvent>, confirmations: seq<Confirmation>, s: Settings, themes: seq<string>)
    requires Uncovered(events, confirmations, s, themes)
    ensures forall c :: multiset(ArticlesOf(confirmations, s.marketDate, themes))[c] ==
              if IsUp(c, s.marketDate) && !HasEvent(events, s, c.themeId) then multiset(confirmations)[c] else 0
  {
    hide Articles, IsUp, StrLe, HasEvent, ArticlesOf;
    CountArticlesOf(confirmations, s.marketDate, themes);
    forall c | IsUp(c, s.marketDate) && Articles(confirmations, s.marketDate, c.themeId) == []
      ensures multiset(confirmations)[c] == 0
    {
      ArticlesAre(confirmations, s.marketDate, c.themeId);
    }
  }

  // ----- Commands are well formed -----

  // Names are text, and different Events or articles have different names.
  ghost predicate Naming(texts: Texts) {
    && HasText(texts.correlationId)
    && (forall id, d :: HasText(texts.name(id, d)))
    && (forall a, x, b, y | texts.name(a, x) == texts.name(b, y) :: a == b && x == y)
  }

  lemma TextsHaveText(n: nat)
    ensures HasText(RECONCILIATION_SOURCE) && HasText(POLICY) && HasText("장후 인포스탁 확정 기사 없음")
    ensures HasText("장후 인포스탁 확정 기사 " + Decimal(n) + "건 정합")
  {
    hide Decimal;
    assert RECONCILIATION_SOURCE[0] == 'a' && POLICY[0] == 'a';
    assert ("장후 인포스탁 확정 기사 없음")[0] == '장';
    assert ("장후 인포스탁 확정 기사 " + Decimal(n) + "건 정합")[0] == '장';
  }

  lemma LineagesDistinct(articles: seq<Confirmation>)
    requires DistinctLineage(articles)
    ensures forall i, j | 0 <= i < j < |Lineages(articles)| ::
              (Lineages(articles)[i].kind, Lineages(articles)[i].identifier, Lineages(articles)[i].version)
              != (Lineages(articles)[j].kind, Lineages(articles)[j].identifier, Lineages(articles)[j].version)
  {
  }

  /** Articles from deduplicated confirmations never repeat a lineage reference, so no command is refused. */
  lemma PlannedCommandsAreValid(s: Settings, e: CanonicalEvent, confirmations: seq<Confirmation>)
    requires Naming(s.texts) && DistinctLineage(confirmations) && e.stateVersion >= 1 && s.now >= 0
    ensures var p := PlanFor(s, e, Articles(confirmations, s.marketDate, e.identityKey.canonicalThemeId));
            p.Submit? ==> ValidCommand(p.command)
  {
    var articles := Articles(confirmations, s.marketDate, e.identityKey.canonicalThemeId);
    ArticlesAre(confirmations, s.marketDate, e.identityKey.canonicalThemeId);
    LineagesDistinct(articles);
    TextsHaveText(|articles|);
    hide Articles, HasText, Decimal, Lineages, DigestOf;
  }

  // ----- One pass -----

  ghost predicate AllValid(plans: seq<Plan>) { forall p | p in plans :: p.Submit? ==> ValidCommand(p.command) }

  // Every command of the plans has been answered, in some order that no longer matters.
  ghost predicate AllCommitted(t: Tables, plans: seq<Plan>) {
    forall p | p in plans && p.Submit? :: exists r :: Committed(t, p.command, r)
  }

  lemma {:induction false} PerformKeepsInv(t: Tables, commitFails: bool, plans: seq<Plan>, so: Outcome)
    requires Inv(t)
    ensures Inv(Perform(t, commitFails, plans, so).0) && Grows(t, Perform(t, commitFails, plans, so).0)
    decreases |plans|
  {
    hide Write, Inv, Grows, ValidCommand;
    GrowsReflexive(t);
    if plans != [] {
      var p := plans[0];
      if p.Skip? {
        PerformKeepsInv(t, commitFails, plans[1..], so.(skipped := so.skipped + [p.id]));
      } else if ValidCommand(p.command) {
        var (t', r) := Write(t, p.command, commitFails);
        WriteKeepsInv(t, p.command, commitFails);
        WriteGrows(t, p.command, commitFails);
        if r.Success? {
          PerformKeepsInv(t', commitFails, plans[1..], Noted(so, p, r.value));
          GrowsTransitive(t, t', Perform(t, commitFails, plans, so).0);
        }
      }
    }
  }

  lemma GrowsCommitted(t: Tables, u: Tables, c: Command, r: WriteResult)
    requires Grows(t, u) && Committed(t, c, r)
    ensures Committed(u, c, r)
  {
  }

  // A finished pass: what its outcome adds, and where each command's receipt is.
  lemma {:induction false} FinishedPass(t: Tables, commitFails: bool, plans: seq<Plan>, so: Outcome)
    requires Inv(t) && Perform(t, commitFails, plans, so).1.Success?
    ensures AllValid(plans) && AllCommitted(Perform(t, commitFails, plans, so).0, plans)
    decreases |plans|
  {
    hide Write, Inv, Grows, ValidCommand, Committed;
    if plans != [] {
      var p := plans[0];
      assert plans == [p] + plans[1..];
      if p.Skip? {
        FinishedPass(t, commitFails, plans[1..], so.(skipped := so.skipped + [p.id]));
      } else {
        var (t', r) := Write(t, p.command, commitFails);
        WriteKeepsInv(t, p.command, commitFails);
        SuccessIsCommitted(t, p.command, commitFails);
        FinishedPass(t', commitFails, plans[1..], Noted(so, p, r.value));
        PerformKeepsInv(t', commitFails, plans[1..], Noted(so, p, r.value));
        GrowsCommitted(t', Perform(t, commitFails, plans, so).0, p.command, r.value);
      }
    }
  }

  // Replaying answered commands gives the recorded answers and touches nothing.
  lemma {:induction false} ReplayedPass(t: Tables, u: Tables, commitFails: bool, plans: seq<Plan>, so: Outcome)
    requires Inv(t) && Perform(t, commitFails, plans, so).1.Success?
    requires Grows(Perform(t, commitFails, plans, so).0, u)
    ensures Perform(u, false, plans, so) == (u, Perform(t, commitFails, plans, so).1)
    decreases |plans|
  {
    hide Write, Inv, Grows, ValidCommand, Committed;
    if plans != [] {
      var p := plans[0];
      if p.Skip? {
        ReplayedPass(t, u, commitFails, plans[1..], so.(skipped := so.skipped + [p.id]));
      } else {
        var (t', r) := Write(t, p.command, commitFails);
        WriteKeepsInv(t, p.command, commitFails);
        SuccessIsCommitted(t, p.command, commitFails);
        PerformKeepsInv(t', commitFails, plans[1..], Noted(so, p, r.value));
        GrowsTransitive(t', Perform(t, commitFails, plans, so).0, u);
        GrowsCommitted(t', u, p.command, r.value);
        CommittedIsReplayed(u, p.command, r.value, false);
        ReplayedPass(t', u, commitFails, plans[1..], Noted(so, p, r.value));
      }
    }
  }

  /** Running a finished pass again, at the same time and on the same inputs, repeats its answers and leaves the store as it is. */
  lemma SameInputRerunIsInvisible(t: Tables, commitFails: bool, events: seq<CanonicalEvent>, confirmations: seq<Confirmation>, s: Settings)
    requires Inv(t) && Pass(t, commitFails, events, confirmations, s).1.Success?
    ensures var (after, outcome) := Pass(t, commitFails, events, confirmations, s);
            Pass(after, false, events, confirmations, s) == (after, outcome)
  {
    var plans := Plans(s, InIdOrder(events, s), confirmations);
    hide Plans, InIdOrder, Perform, Inv;
    GrowsReflexive(Perform(t, commitFails, plans, EMPTY_OUTCOME).0);
    ReplayedPass(t, Perform(t, commitFails, plans, EMPTY_OUTCOME).0, commitFails, plans, EMPTY_OUTCOME);
  }

  // ----- Every eligible Event is dealt with once -----

  lemma {:induction false} EligibleAre(events: seq<CanonicalEvent>, s: Settings)
    ensures forall e :: e in Eligible(events, s) <==>
              e in events && e.identityKey.marketDate == s.marketDate && e.identityKey.catalystKey == s.catalystKey
  {
    if events != [] {
      var front, last := events[..|events| - 1], events[|events| - 1];
      EligibleAre(front, s);
      assert events == front + [last];
    }
  }

  predicate HasArticle(confirmations: seq<Confirmation>, s: Settings, e: CanonicalEvent) {
    exists c :: c in confirmations && IsUp(c, s.marketDate) && c.themeId == e.identityKey.canonicalThemeId
  }

  // An Event is left alone once it is matched, and while it is unmatched and still has no article.
  predicate IsSkipped(confirmations: seq<Confirmation>, s: Settings, e: CanonicalEvent) {
    e.reconciliation == Matched || (e.reconciliation == Unmatched && !HasArticle(confirmations, s, e))
  }

  predicate IsMatched(confirmations: seq<Confirmation>, s: Settings, e: CanonicalEvent) {
    e.reconciliation != Matched && HasArticle(confirmations, s, e)
  }

  predicate IsUnmatched(confirmations: seq<Confirmation>, s: Settings, e: CanonicalEvent) {
    e.reconciliation == Pending && !HasArticle(confirmations, s, e)
  }

  lemma PlanKinds(confirmations: seq<Confirmation>, s: Settings, e: CanonicalEvent)
    ensures var p := PlanFor(s, e, Articles(confirmations, s.marketDate, e.identityKey.canonicalThemeId));
            && (p.Skip? <==> IsSkipped(confirmations, s, e))
            && (p.Submit? && p.matches <==> IsMatched(confirmations, s, e))
            && (p.Submit? && !p.matches <==> IsUnmatched(confirmations, s, e))
            && (p.Skip? ==> p.id == e.eventId)
            && (p.Submit? ==> p.command.ReconcileEvent? && p.command.eventId == e.eventId
                              && p.command.reconciliationTarget == if p.matches then Matched else Unmatched)
  {
    var articles := Articles(confirmations, s.marketDate, e.identityKey.canonicalThemeId);
    ArticlesAre(confirmations, s.marketDate, e.identityKey.canonicalThemeId);
    hide Articles, IsUp, Decimal;
    assert articles != [] ==> articles[0] in articles;
    assert articles != [] <==> HasArticle(confirmations, s, e);
  }

  // The ids of the Events of one kind, in the order given.
  function IdsWhere(events: seq<CanonicalEvent>, keep: CanonicalEvent -> bool): seq<EventId> {
    if events == [] then []
    else if keep(events[0]) then [events[0].eventId] + IdsWhere(events[1..], keep)
    else IdsWhere(events[1..], keep)
  }

  function IdsOf(results: seq<WriteResult>): seq<EventId> { seq(|results|, i requires 0 <= i < |results| => results[i].event.eventId) }

  lemma WriteAnswersItsEvent(t: Tables, c: Command, commitFails: bool)
    requires Inv(t) && !c.CreateEvent? && Write(t, c, commitFails).1.Success?
    ensures Write(t, c, commitFails).1.value.event.eventId == c.eventId
  {
    WriteKeepsInv(t, c, commitFails);
    SuccessIsCommitted(t, c, commitFails);
    hide Write, Bijection, Histories, VersionsUnique, Sequences, Outbox, Acknowledged, Wrote, Took;
  }

  lemma {:induction false} PassDealsWith(t: Tables, commitFails: bool, eligible: seq<CanonicalEvent>, confirmations: seq<Confirmation>,
                                        s: Settings, so: Outcome)
    requires Inv(t) && Perform(t, commitFails, Plans(s, eligible, confirmations), so).1.Success?
    ensures var o := Perform(t, commitFails, Plans(s, eligible, confirmations), so).1.value;
            && o.skipped == so.skipped + IdsWhere(eligible, e => IsSkipped(confirmations, s, e))
            && IdsOf(o.matched) == IdsOf(so.matched) + IdsWhere(eligible, e => IsMatched(confirmations, s, e))
            && IdsOf(o.unmatched) == IdsOf(so.unmatched) + IdsWhere(eligible, e => IsUnmatched(confirmations, s, e))
    decreases |eligible|
  {
    hide Write, Inv, ValidCommand, Articles, IsSkipped, IsMatched, IsUnmatched, PlanFor;
    var plans := Plans(s, eligible, confirmations);
    if eligible != [] {
      var p, rest := plans[0], eligible[1..];
      PlanKinds(confirmations, s, eligible[0]);
      assert plans[1..] == Plans(s, rest, confirmations);
      if p.Skip? {
        PassDealsWith(t, commitFails, rest, confirmations, s, so.(skipped := so.skipped + [p.id]));
      } else {
        var (t', r) := Write(t, p.command, commitFails);
        WriteKeepsInv(t, p.command, commitFails);
        WriteAnswersItsEvent(t, p.command, commitFails);
        PassDealsWith(t', commitFails, rest, confirmations, s, Noted(so, p, r.value));
        NotedIds(so, p, r.value);
      }
    }
  }

  lemma NotedIds(so: Outcome, p: Plan, r: WriteResult)
    requires p.Submit?
    ensures IdsOf(Noted(so, p, r).matched) == if p.matches then IdsOf(so.matched) + [r.event.eventId] else IdsOf(so.matched)
    ensures IdsOf(Noted(so, p, r).unmatched) == if p.matches then IdsOf(so.unmatched) else IdsOf(so.unmatched) + [r.event.eventId]
    ensures Noted(so, p, r).skipped == so.skipped
  {
  }

  lemma {:induction false} KindsPartition(events: seq<CanonicalEvent>, confirmations: seq<Confirmation>, s: Settings)
    ensures |IdsWhere(events, e => IsSkipped(confirmations, s, e))| + |IdsWhere(events, e => IsMatched(confirmations, s, e))|
            + |IdsWhere(events, e => IsUnmatched(confirmations, s, e))| == |events|
  {
    hide HasArticle;
    if events != [] { KindsPartition(events[1..], confirmations, s); }
  }

  /** A finished pass deals with every eligible Event once, in id order: matched when it has a rising article, left
      unmatched when it is pending without one, and skipped otherwise. */
  lemma PassPartitions(t: Tables, commitFails: bool, events: seq<CanonicalEvent>, confirmations: seq<Confirmation>, s: Settings)
    requires Inv(t) && Pass(t, commitFails, events, confirmations, s).1.Success?
    ensures var o, order := Pass(t, commitFails, events, confirmations, s).1.value, InIdOrder(events, s);
            && multiset(order) == multiset(Eligible(events, s))
            && o.skipped == IdsWhere(order, e => IsSkipped(confirmations, s, e))
            && IdsOf(o.matched) == IdsWhere(order, e => IsMatched(confirmations, s, e))
            && IdsOf(o.unmatched) == IdsWhere(order, e => IsUnmatched(confirmations, s, e))
            && |o.skipped| + |o.matched| + |o.unmatched| == |order|
  {
    SortKeepsElements(Eligible(events, s), (a, b) => EventLe(s.texts, a, b));
    hide Perform, Plans, Inv, IsSkipped, IsMatched, IsUnmatched, Sort, Eligible;
    var order := InIdOrder(events, s);
    PassDealsWith(t, commitFails, order, confirmations, s, EMPTY_OUTCOME);
    KindsPartition(order, confirmations, s);
    var o := Pass(t, commitFails, events, confirmations, s).1.value;
    assert [] + IdsOf(o.matched) == IdsOf(o.matched);
    assert IdsOf(EMPTY_OUTCOME.matched) == [] && IdsOf(EMPTY_OUTCOME.unmatched) == [];
    assert |IdsOf(o.matched)| == |o.matched| && |IdsOf(o.unmatched)| == |o.unmatched|;
  }

  lemma {:induction false} SortKeepsElements(events: seq<CanonicalEvent>, le: (CanonicalEvent, CanonicalEvent) -> bool)
    ensures multiset(Sort(events, le)) == multiset(events)
  {
    if events != [] {
      SortKeepsElements(events[1..], le);
      InsertKeepsElements(events[0], Sort(events[1..], le), le);
      assert events == [events[0]] + events[1..];
    }
  }

  // ----- A pass that applies everything leaves nothing to do -----

  ghost predicate DistinctIds(events: seq<CanonicalEvent>) { forall i, j | 0 <= i < j < |events| :: events[i].eventId != events[j].eventId }

  // The Events given are the stored rows.
  ghost predicate Current(t: Tables, events: seq<CanonicalEvent>) {
    forall e | e in events :: e.eventId in t.events && t.events[e.eventId] == e
  }

  // Nothing in the store makes this change stale, and its name is not taken.
  ghost predicate DueCommand(t: Tables, e: CanonicalEvent, s: Settings, c: Command) {
    && e.changedAt <= s.now
    && ((e.eventId, RECONCILIATION_SOURCE) in t.sourceSequences ==> t.sourceSequences[(e.eventId, RECONCILIATION_SOURCE)] < Sequence(s.now))
    && c.metadata.messageId !in t.receipts
  }

  function PlanOf(confirmations: seq<Confirmation>, s: Settings, e: CanonicalEvent): Plan {
    PlanFor(s, e, Articles(confirmations, s.marketDate, e.identityKey.canonicalThemeId))
  }

  // The change planned for the Event, if any, is due.
  ghost predicate Due(t: Tables, e: CanonicalEvent, confirmations: seq<Confirmation>, s: Settings) {
    var p := PlanOf(confirmations, s, e);
    p.Submit? ==> DueCommand(t, e, s, p.command)
  }

  ghost predicate AllDue(t: Tables, events: seq<CanonicalEvent>, confirmations: seq<Confirmation>, s: Settings) {
    forall e | e in events :: Due(t, e, confirmations, s)
  }

  // A reconciliation command of one Event, named after it.
  ghost predicate Names(s: Settings, e: CanonicalEvent, c: Command) {
    && c.ReconcileEvent? && c.eventId == e.eventId && c.expectedStateVersion == e.stateVersion
    && c.metadata.source == RECONCILIATION_SOURCE && c.metadata.sourceSequence == Sequence(s.now) && c.metadata.occurredAt == s.now
    && exists d :: c.metadata.messageId == s.texts.name(e.eventId, d)
  }

  // An edge of the reconciliation axis out of the Event's present state.
  ghost predicate Edge(e: CanonicalEvent, c: Command) {
    c.ReconcileEvent? && c.reconciliationTarget != e.reconciliation && c.reconciliationTarget in ReconciliationTargets(e.reconciliation)
  }

  lemma PlanNames(confirmations: seq<Confirmation>, s: Settings, e: CanonicalEvent)
    requires PlanOf(confirmations, s, e).Submit?
    ensures Names(s, e, PlanOf(confirmations, s, e).command) && Edge(e, PlanOf(confirmations, s, e).command)
  {
    hide Articles, Decimal, Lineages, DigestOf;
  }

  predicate IsApplied(r: Result<WriteResult, EventError>) { r.Success? && r.value.disposition == Applied }

  // A due change of a current Event is applied.
  lemma DueIsApplied(t: Tables, s: Settings, e: CanonicalEvent, c: Command)
    requires Inv(t) && e.eventId in t.events && t.events[e.eventId] == e && DueCommand(t, e, s, c) && Names(s, e, c) && Edge(e, c)
    ensures Decide(t, c).Revised? && Decide(t, c).revision == ReconciledEvent(e, c)
    ensures IsApplied(Write(t, c, false).1)
    ensures var Revised(revision, entry, message) := Decide(t, c); Write(t, c, false).0 == Posted(t, c, revision, entry, message)
  {
    hide Inv;
    assert Decide(t, c) == DecideFresh(t, c);
    assert PassGate(t, e, c.metadata, c.expectedStateVersion, false) == Open;
    WriteIs(t, c, false);
  }

  // A change of a current Event that is not due is not applied: its name is taken, or it is answered as stale.
  lemma AppliedWasDue(t: Tables, s: Settings, e: CanonicalEvent, c: Command)
    requires Inv(t) && e.eventId in t.events && t.events[e.eventId] == e && Names(s, e, c) && IsApplied(Write(t, c, false).1)
    ensures DueCommand(t, e, s, c)
  {
    hide Inv, Write, Decide;
    WriteIs(t, c, false);
    if c.metadata.messageId in t.receipts {
      NoCurrentReplay(t, s, e, c);
    } else {
      FreshIsDue(t, s, e, c);
    }
  }

  // An applied receipt took its Event away from the version the command expects.
  lemma NoCurrentReplay(t: Tables, s: Settings, e: CanonicalEvent, c: Command)
    requires Inv(t) && e.eventId in t.events && t.events[e.eventId] == e && Names(s, e, c) && c.metadata.messageId in t.receipts
    ensures Decide(t, c).Rejected? || (Decide(t, c).Replayed? && Decide(t, c).result.disposition != Applied)
  {
    hide Bijection, Histories, VersionsUnique, Sequences, Outbox, Wrote, DecideFresh;
    assert SoundReceipt(t, c.metadata.messageId);
  }

  lemma FreshIsDue(t: Tables, s: Settings, e: CanonicalEvent, c: Command)
    requires e.eventId in t.events && t.events[e.eventId] == e && Names(s, e, c) && c.metadata.messageId !in t.receipts
    ensures DueCommand(t, e, s, c) || Decide(t, c).Rejected? || (Decide(t, c).Settled? && Decide(t, c).disposition != Applied)
  {
  }

  // Changing one Event leaves the others' rows alone, and their changes as due as they were.
  lemma OthersUntouched(t: Tables, s: Settings, e: CanonicalEvent, c: Command, other: CanonicalEvent, d: Command)
    requires Naming(s.texts) && Names(s, e, c) && Names(s, other, d) && other.eventId != e.eventId
    requires Decide(t, c).Revised? && Decide(t, c).revision.eventId == e.eventId
    ensures var after := Posted(t, c, Decide(t, c).revision, Decide(t, c).entry, Decide(t, c).message);
            DueCommand(after, other, s, d) <==> DueCommand(t, other, s, d)
  {
    hide Decide;
  }

  predicate AllApplied(results: seq<WriteResult>) { forall r | r in results :: r.disposition == Applied }

  predicate FullyApplied(r: Result<Outcome, PassError>) { r.Success? && AllApplied(r.value.matched) && AllApplied(r.value.unmatched) }

  // What the pass owes an Event: its row says what the plan meant.
  ghost predicate Reflects(t: Tables, confirmations: seq<Confirmation>, s: Settings, e: CanonicalEvent) {
    && e.eventId in t.events && t.events[e.eventId].identityKey == e.identityKey
    && t.events[e.eventId].reconciliation ==
         if IsMatched(confirmations, s, e) then Matched else if IsUnmatched(confirmations, s, e) then Unmatched else e.reconciliation
  }

  lemma Tail(t: Tables, eligible: seq<CanonicalEvent>)
    requires eligible != [] && DistinctIds(eligible) && Current(t, eligible)
    ensures DistinctIds(eligible[1..]) && Current(t, eligible[1..])
    ensures eligible[0] in eligible && forall e | e in eligible[1..] :: e.eventId != eligible[0].eventId
    ensures eligible[0].eventId in t.events && t.events[eligible[0].eventId] == eligible[0]
  {
    assert eligible == [eligible[0]] + eligible[1..];
    forall e | e in eligible[1..] ensures e.eventId != eligible[0].eventId {
      var i :| 0 <= i < |eligible[1..]| && eligible[1..][i] == e;
      assert eligible[i + 1] == e;
    }
  }

  // The store after the first planned change: still current for the rest, and the rest as due as before.
  lemma AfterFirst(t: Tables, eligible: seq<CanonicalEvent>, confirmations: seq<Confirmation>, s: Settings)
    requires Inv(t) && Naming(s.texts) && eligible != [] && DistinctIds(eligible) && Current(t, eligible)
    requires PlanOf(confirmations, s, eligible[0]).Submit? && Due(t, eligible[0], confirmations, s)
    ensures var e, c := eligible[0], PlanOf(confirmations, s, eligible[0]).command;
            var (after, r) := Write(t, c, false);
            && c.ReconcileEvent? && IsApplied(r) && Current(after, eligible[1..])
            && (AllDue(after, eligible[1..], confirmations, s) <==> AllDue(t, eligible[1..], confirmations, s))
            && e.eventId in after.events && after.events[e.eventId] == ReconciledEvent(e, c)
            && (forall id | id in t.events && id != e.eventId :: id in after.events && after.events[id] == t.events[id])
  {
    hide Inv, Write, Decide, Naming, Names, PlanOf, DueCommand, ReconciledEvent, Edge, Posted;
    var e, c := eligible[0], PlanOf(confirmations, s, eligible[0]).command;
    Tail(t, eligible);
    PlanNames(confirmations, s, e);
    DueIsApplied(t, s, e, c);
    NamesReconcile(s, e, c);
    RevisedId(e, c);
    forall other | other in eligible[1..]
      ensures Due(Write(t, c, false).0, other, confirmations, s) <==> Due(t, other, confirmations, s)
    {
      if PlanOf(confirmations, s, other).Submit? {
        PlanNames(confirmations, s, other);
        OthersUntouched(t, s, e, c, other, PlanOf(confirmations, s, other).command);
      }
    }
    PostedRows(t, c, Decide(t, c).revision, Decide(t, c).entry, Decide(t, c).message);
  }

  lemma NamesReconcile(s: Settings, e: CanonicalEvent, c: Command)
    requires Names(s, e, c)
    ensures c.ReconcileEvent?
  {
  }

  lemma RevisedId(e: CanonicalEvent, c: Command)
    requires c.ReconcileEvent?
    ensures ReconciledEvent(e, c).eventId == e.eventId
  {
  }

  lemma PostedRows(t: Tables, c: Command, e: CanonicalEvent, entry: StateLog, m: OutboxMessage)
    ensures Posted(t, c, e, entry, m).events == t.events[e.eventId := e]
  {
  }

  // A pass that is due applies every change, and rows outside it stay as they are.
  lemma {:induction false} DuePassApplies(t: Tables, eligible: seq<CanonicalEvent>, confirmations: seq<Confirmation>, s: Settings, so: Outcome)
    requires Inv(t) && Naming(s.texts) && DistinctIds(eligible) && Current(t, eligible) && AllDue(t, eligible, confirmations, s)
    requires AllValid(Plans(s, eligible, confirmations)) && AllApplied(so.matched) && AllApplied(so.unmatched)
    ensures var (after, r) := Perform(t, false, Plans(s, eligible, confirmations), so);
            && FullyApplied(r)
            && (forall e | e in eligible :: Reflects(after, confirmations, s, e))
            && (forall id | id in t.events && forall e | e in eligible :: e.eventId != id :: id in after.events && after.events[id] == t.events[id])
    decreases |eligible|
  {
    hide Inv, Write, Naming, Names, ValidCommand, Articles, PlanFor, Decide, Due, DistinctIds, Current, ReconciledEvent, IsSkipped, IsMatched, IsUnmatched, Reflects;
    if eligible != [] {
      var e, plans := eligible[0], Plans(s, eligible, confirmations);
      Tail(t, eligible);
      PlanKinds(confirmations, s, e);
      assert plans == [plans[0]] + plans[1..] && plans[1..] == Plans(s, eligible[1..], confirmations);
      assert eligible == [e] + eligible[1..] && plans[0] == PlanOf(confirmations, s, e);
      if plans[0].Skip? {
        DuePassApplies(t, eligible[1..], confirmations, s, so.(skipped := so.skipped + [plans[0].id]));
        SkippedReflects(Perform(t, false, plans, so).0, confirmations, s, e);
      } else {
        AfterFirst(t, eligible, confirmations, s);
        var (after, r) := Write(t, plans[0].command, false);
        WriteKeepsInv(t, plans[0].command, false);
        DuePassApplies(after, eligible[1..], confirmations, s, Noted(so, plans[0], r.value));
        RevisedId(e, plans[0].command);
        ChangedReflects(after, Perform(t, false, plans, so).0, confirmations, s, e, plans[0].command);
      }
    }
  }

  lemma SkippedReflects(after: Tables, confirmations: seq<Confirmation>, s: Settings, e: CanonicalEvent)
    requires e.eventId in after.events && after.events[e.eventId] == e
    requires IsSkipped(confirmations, s, e)
    ensures Reflects(after, confirmations, s, e)
  {
    hide HasArticle;
  }

  lemma ChangedReflects(mid: Tables, after: Tables, confirmations: seq<Confirmation>, s: Settings, e: CanonicalEvent, c: Command)
    requires c.ReconcileEvent? && e.eventId in mid.events && mid.events[e.eventId] == ReconciledEvent(e, c)
    requires e.eventId in after.events && after.events[e.eventId] == mid.events[e.eventId]
    requires c.reconciliationTarget == if IsMatched(confirmations, s, e) then Matched else Unmatched
    requires IsMatched(confirmations, s, e) || IsUnmatched(confirmations, s, e)
    ensures Reflects(after, confirmations, s, e)
  {
    hide HasArticle;
  }

  // Answers already noted stay in the outcome.
  lemma {:induction false} AppliedSoFar(t: Tables, plans: seq<Plan>, so: Outcome)
    requires FullyApplied(Perform(t, false, plans, so).1)
    ensures AllApplied(so.matched) && AllApplied(so.unmatched)
    decreases |plans|
  {
    hide Write, ValidCommand;
    if plans != [] {
      var p := plans[0];
      if p.Skip? {
        AppliedSoFar(t, plans[1..], so.(skipped := so.skipped + [p.id]));
      } else {
        var (t', r) := Write(t, p.command, false);
        AppliedSoFar(t', plans[1..], Noted(so, p, r.value));
      }
    }
  }

  lemma {:induction false} AppliedPassWasDue(t: Tables, eligible: seq<CanonicalEvent>, confirmations: seq<Confirmation>, s: Settings, so: Outcome)
    requires Inv(t) && Naming(s.texts) && DistinctIds(eligible) && Current(t, eligible)
    requires FullyApplied(Perform(t, false, Plans(s, eligible, confirmations), so).1)
    ensures AllDue(t, eligible, confirmations, s)
    decreases |eligible|
  {
    hide Inv, Write, Naming, Names, ValidCommand, Articles, PlanFor, Decide, DueCommand, DistinctIds, Current, ReconciledEvent;
    if eligible != [] {
      var e, plans := eligible[0], Plans(s, eligible, confirmations);
      Tail(t, eligible);
      assert plans[1..] == Plans(s, eligible[1..], confirmations) && plans[0] == PlanOf(confirmations, s, e);
      assert eligible == [e] + eligible[1..];
      if plans[0].Skip? {
        AppliedPassWasDue(t, eligible[1..], confirmations, s, so.(skipped := so.skipped + [plans[0].id]));
      } else {
        var (after, r) := Write(t, plans[0].command, false);
        AppliedSoFar(after, plans[1..], Noted(so, plans[0], r.value));
        NotedApplied(so, plans[0], r.value);
        PlanNames(confirmations, s, e);
        AppliedWasDue(t, s, e, plans[0].command);
        AfterFirst(t, eligible, confirmations, s);
        WriteKeepsInv(t, plans[0].command, false);
        AppliedPassWasDue(after, eligible[1..], confirmations, s, Noted(so, plans[0], r.value));
      }
    }
  }

  lemma NotedApplied(so: Outcome, p: Plan, r: WriteResult)
    requires p.Submit? && AllApplied(Noted(so, p, r).matched) && AllApplied(Noted(so, p, r).unmatched)
    ensures r.disposition == Applied
  {
    assert r in Noted(so, p, r).matched || r in Noted(so, p, r).unmatched;
  }

  lemma PlansAreValid(order: seq<CanonicalEvent>, confirmations: seq<Confirmation>, s: Settings)
    requires Naming(s.texts) && DistinctLineage(confirmations) && s.now >= 0 && forall e | e in order :: e.stateVersion >= 1
    ensures AllValid(Plans(s, order, confirmations))
  {
    hide ValidCommand, Naming, DistinctLineage, PlanFor;
    var plans := Plans(s, order, confirmations);
    forall p | p in plans && p.Submit? ensures ValidCommand(p.command) {
      var i :| 0 <= i < |plans| && plans[i] == p;
      assert order[i] in order;
      PlannedCommandsAreValid(s, order[i], confirmations);
    }
  }

  /** Over current Events a pass is applied in full exactly when each planned change is later than its Event and than its
      Event's last pass, and has a name of its own; every row then says what its article meant. */
  lemma CurrentPassIsApplied(t: Tables, events: seq<CanonicalEvent>, confirmations: seq<Confirmation>, s: Settings)
    requires Inv(t) && Naming(s.texts) && DistinctLineage(confirmations) && s.now >= 0
    requires DistinctIds(InIdOrder(events, s)) && Current(t, InIdOrder(events, s))
    ensures var (after, r) := Pass(t, false, events, confirmations, s);
            && (FullyApplied(r) <==> AllDue(t, InIdOrder(events, s), confirmations, s))
            && (FullyApplied(r) ==> forall e | e in InIdOrder(events, s) :: Reflects(after, confirmations, s, e))
  {
    var order := InIdOrder(events, s);
    hide InIdOrder, Perform, Inv, DistinctIds, Reflects, Due, Naming, DistinctLineage, AllValid, Current, Plans, FullyApplied;
    CurrentVersionsArePositive(t, order);
    PlansAreValid(order, confirmations, s);
    assert AllApplied([]);
    if AllDue(t, order, confirmations, s) { DuePassApplies(t, order, confirmations, s, EMPTY_OUTCOME); }
    if FullyApplied(Pass(t, false, events, confirmations, s).1) { AppliedPassWasDue(t, order, confirmations, s, EMPTY_OUTCOME); }
  }

  lemma CurrentVersionsArePositive(t: Tables, events: seq<CanonicalEvent>)
    requires Inv(t) && Current(t, events)
    ensures forall e | e in events :: e.stateVersion >= 1
  {
    hide Inv;
    forall e | e in events ensures e.stateVersion >= 1 { StoredEventIsItsLog(t, e.eventId); }
  }

  // Where every Event is one to leave alone, a pass writes nothing and says so.
  lemma {:induction false} SkippedPassWritesNothing(t: Tables, order: seq<CanonicalEvent>, confirmations: seq<Confirmation>, s: Settings,
                                                    commitFails: bool, so: Outcome)
    requires forall e | e in order :: IsSkipped(confirmations, s, e)
    ensures Perform(t, commitFails, Plans(s, order, confirmations), so)
            == (t, Success(so.(skipped := so.skipped + IdsWhere(order, e => true))))
    decreases |order|
  {
    hide *;
    if order != [] {
      var e := order[0];
      assert e in order;
      forall x | x in order[1..] ensures x in order {}
      FirstIsSkipped(t, order, confirmations, s, commitFails, so);
      SkippedPassWritesNothing(t, order[1..], confirmations, s, commitFails, so.(skipped := so.skipped + [e.eventId]));
      OneMoreSkipped(so, order);
    } else {
      NothingPlanned(t, commitFails, confirmations, s, so);
    }
  }

  lemma FirstIsSkipped(t: Tables, order: seq<CanonicalEvent>, confirmations: seq<Confirmation>, s: Settings, commitFails: bool, so: Outcome)
    requires order != [] && IsSkipped(confirmations, s, order[0])
    ensures Perform(t, commitFails, Plans(s, order, confirmations), so)
            == Perform(t, commitFails, Plans(s, order[1..], confirmations), so.(skipped := so.skipped + [order[0].eventId]))
  {
    hide Write, ValidCommand, Articles, IsSkipped, PlanFor;
    PlanKinds(confirmations, s, order[0]);
    assert Plans(s, order, confirmations)[1..] == Plans(s, order[1..], confirmations);
  }

  lemma OneMoreSkipped(so: Outcome, order: seq<CanonicalEvent>)
    requires order != []
    ensures so.skipped + IdsWhere(order, e => true) == so.skipped + [order[0].eventId] + IdsWhere(order[1..], e => true)
  {
  }

  lemma NothingPlanned(t: Tables, commitFails: bool, confirmations: seq<Confirmation>, s: Settings, so: Outcome)
    ensures Perform(t, commitFails, Plans(s, [], confirmations), so) == (t, Success(so))
    ensures so == so.(skipped := so.skipped + IdsWhere([], e => true))
  {
    assert so.skipped + [] == so.skipped;
  }

  // The same Events as the store now has them.
  ghost predicate Refreshed(t: Tables, events: seq<CanonicalEvent>, again: seq<CanonicalEvent>) {
    |again| == |events| && forall i | 0 <= i < |again| :: events[i].eventId in t.events && again[i] == t.events[events[i].eventId]
  }

  /** After such a pass, another over the refreshed Events skips them all, whatever its time, unless an article has come for
      an Event left unmatched. */
  lemma RefreshedPassWritesNothing(after: Tables, order: seq<CanonicalEvent>, again: seq<CanonicalEvent>, old_: seq<Confirmation>,
                                   new_: seq<Confirmation>, s: Settings, later: Settings, commitFails: bool, so: Outcome)
    requires forall e | e in order :: Reflects(after, old_, s, e)
    requires Refreshed(after, order, again)
    requires forall e | e in again && e.reconciliation == Unmatched :: !HasArticle(new_, later, e)
    ensures var (end, r) := Perform(after, commitFails, Plans(later, again, new_), so);
            end == after && r == Success(so.(skipped := so.skipped + IdsWhere(again, e => true)))
  {
    hide HasArticle, Perform, Plans;
    forall e | e in again ensures IsSkipped(new_, later, e) {
      var i :| 0 <= i < |again| && again[i] == e;
      assert order[i] in order;
    }
    SkippedPassWritesNothing(after, again, new_, later, commitFails, so);
  }
}
