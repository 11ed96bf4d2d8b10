/** packages/catalyst/policy.py and revisions.py: deciding what an Event's evidence amounts to, and keeping the history. */
module Evidence {
  import opened Results

  datatype Status = Searching | SingleSource | MultiSourceConfirmed | NoNewCatalyst | Reemergence | AfterCloseConfirmed

  // The digest of a theme and the folded entities of its evidence.
  datatype CatalystKey = CatalystKey(themeId: string, entities: set<string>)

  datatype Context = Context(eventId: string, themeId: string, activatedAt: int, knownCatalystKeys: set<CatalystKey>)

  datatype Article = Article(newsId: string, publisher: string, title: string, summary: string, entities: seq<string>)

  datatype Reason =
    | ConfirmedAfterClose | IndependentPublishers(count: nat) | SeenBefore | OnePublisher
    | KeptEvidence | CollectionDelayed | NothingFound | StillSearching

  datatype Decision = Decision(status: Status, summary: Option<string>, newsIds: seq<string>, key: Option<CatalystKey>, reason: Reason)

  datatype Revision = Revision(
    eventId: string, revision: int, status: Status, summary: Option<string>, newsIds: seq<string>, key: Option<CatalystKey>,
    reason: Reason, decidedAt: int, confirmedAt: Option<int>)

  // Stripping and case folding, with every run of blanks in a title made one; blank text folds to nothing.
  datatype Folding = Folding(name: string -> string, title: string -> string)

  // One look at an Event's evidence.
  datatype Inquiry = Inquiry(context: Context, evidence: seq<Article>, now: int, degraded: bool, afterClose: Option<string>)

  const NO_NEW_CATALYST_AFTER := 1200

  function Strength(s: Status): nat {
    match s
    case Searching => 0
    case NoNewCatalyst => 0
    case SingleSource => 1
    case Reemergence => 1
    case MultiSourceConfirmed => 2
    case AfterCloseConfirmed => 3
  }

  // ----- The decision -----

  function Publishers(evidence: seq<Article>, f: Folding): set<string> {
    set a | a in evidence && f.name(a.publisher) != "" :: f.name(a.publisher)
  }

  function Titles(evidence: seq<Article>, f: Folding): set<string> { set a | a in evidence && f.title(a.title) != "" :: f.title(a.title) }

  function Key(context: Context, evidence: seq<Article>, f: Folding): Option<CatalystKey> {
    if forall a | a in evidence :: a.entities == [] then None
    else Some(CatalystKey(context.themeId, set a, e | a in evidence && e in a.entities && f.name(e) != "" :: f.name(e)))
  }

  function NewsIds(evidence: seq<Article>): seq<string> { seq(|evidence|, i requires 0 <= i < |evidence| => evidence[i].newsId) }

  function Unique(ids: seq<string>): seq<string> {
    if ids == [] then [] else
    var front, last := Unique(ids[..|ids| - 1]), ids[|ids| - 1];
    if last in front then front else front + [last]
  }

  function WithoutEvidence(q: Inquiry, previous: Option<Revision>): Decision {
    if previous.Some? && Strength(previous.value.status) > 0 then
      var p := previous.value;
      Decision(p.status, p.summary, p.newsIds, p.key, KeptEvidence)
    else if q.degraded then Decision(Searching, None, [], None, CollectionDelayed)
    else if q.now - q.context.activatedAt >= NO_NEW_CATALYST_AFTER then Decision(NoNewCatalyst, None, [], None, NothingFound)
    else Decision(Searching, None, [], None, StillSearching)
  }

  function Decide(q: Inquiry, previous: Option<Revision>, f: Folding): Decision {
    if q.afterClose.Some? then
      Decision(AfterCloseConfirmed, q.afterClose, NewsIds(q.evidence), Key(q.context, q.evidence, f), ConfirmedAfterClose)
    else if q.evidence == [] then WithoutEvidence(q, previous)
    else
      var publishers, key := Publishers(q.evidence, f), Key(q.context, q.evidence, f);
      var (status, reason) :=
        if |publishers| >= 2 && |Titles(q.evidence, f)| >= 2 then (MultiSourceConfirmed, IndependentPublishers(|publishers|))
        else if key.Some? && key.value in q.context.knownCatalystKeys then (Reemergence, SeenBefore)
        else (SingleSource, OnePublisher);
      Decision(status, Some(q.evidence[0].summary), Unique(NewsIds(q.evidence)), key, reason)
  }

  lemma TwoDiffer(s: set<string>)
    ensures |s| >= 2 <==> exists a, b :: a in s && b in s && a != b
  {
    if |s| >= 2 {
      var a :| a in s;
      var rest := s - {a};
      assert |rest| >= 1;
      var b :| b in rest;
      assert a in s && b in s && a != b;
    }
    if a, b :| a in s && b in s && a != b {
      assert s == {a, b} + (s - {a, b});
      assert |{a, b}| == 2;
    }
  }

  ghost predicate TwoPublishers(evidence: seq<Article>, f: Folding) {
    exists a, b :: a in evidence && b in evidence && f.name(a.publisher) != "" && f.name(b.publisher) != "" && f.name(a.publisher) != f.name(b.publisher)
  }

  ghost predicate TwoTitles(evidence: seq<Article>, f: Folding) {
    exists a, b :: a in evidence && b in evidence && f.title(a.title) != "" && f.title(b.title) != "" && f.title(a.title) != f.title(b.title)
  }

  lemma CountPublishers(evidence: seq<Article>, f: Folding)
    ensures |Publishers(evidence, f)| >= 2 <==> TwoPublishers(evidence, f)
  {
    var publishers := Publishers(evidence, f);
    TwoDiffer(publishers);
    if |publishers| >= 2 {
      var x, y :| x in publishers && y in publishers && x != y;
      var a :| a in evidence && f.name(a.publisher) == x && x != "";
      var b :| b in evidence && f.name(b.publisher) == y && y != "";
      assert TwoPublishers(evidence, f);
    }
    if TwoPublishers(evidence, f) {
      var a, b :| a in evidence && b in evidence && f.name(a.publisher) != "" && f.name(b.publisher) != "" && f.name(a.publisher) != f.name(b.publisher);
      assert f.name(a.publisher) in publishers && f.name(b.publisher) in publishers;
    }
  }

  lemma CountTitles(evidence: seq<Article>, f: Folding)
    ensures |Titles(evidence, f)| >= 2 <==> TwoTitles(evidence, f)
  {
    var titles := Titles(evidence, f);
    TwoDiffer(titles);
    if |titles| >= 2 {
      var x, y :| x in titles && y in titles && x != y;
      var a :| a in evidence && f.title(a.title) == x && x != "";
      var b :| b in evidence && f.title(b.title) == y && y != "";
      assert TwoTitles(evidence, f);
    }
    if TwoTitles(evidence, f) {
      var a, b :| a in evidence && b in evidence && f.title(a.title) != "" && f.title(b.title) != "" && f.title(a.title) != f.title(b.title);
      assert f.title(a.title) in titles && f.title(b.title) in titles;
    }
  }

  /** Several sources confirm only when two articles name different publishers and two carry different titles. */
  lemma ConfirmationNeedsTwo(q: Inquiry, previous: Option<Revision>, f: Folding)
    requires q.afterClose.None? && q.evidence != []
    ensures Decide(q, previous, f).status == MultiSourceConfirmed <==> TwoPublishers(q.evidence, f) && TwoTitles(q.evidence, f)
  {
    hide Publishers, Titles, Key, Unique, TwoPublishers, TwoTitles;
    CountPublishers(q.evidence, f);
    CountTitles(q.evidence, f);
  }

  function StrengthOf(previous: Option<Revision>): nat { if previous.None? then 0 else Strength(previous.value.status) }

  /** No state is strengthened without evidence, and only new evidence weakens one: any overtakes an after-close confirmation,
      and a confirmation by several sources falls to evidence that has not two publishers and two titles. None takes an Event
      with evidence back to having none. */
  lemma StrengthMovesOnlyOnEvidence(q: Inquiry, previous: Option<Revision>, f: Folding)
    ensures Strength(Decide(q, previous, f).status) > StrengthOf(previous) ==> q.evidence != [] || q.afterClose.Some?
    ensures Strength(Decide(q, previous, f).status) < StrengthOf(previous) <==>
              q.afterClose.None? && q.evidence != []
              && (StrengthOf(previous) == 3 || (StrengthOf(previous) == 2 && !(TwoPublishers(q.evidence, f) && TwoTitles(q.evidence, f))))
    ensures StrengthOf(previous) > 0 ==> Strength(Decide(q, previous, f).status) > 0
  {
    if q.afterClose.None? && q.evidence != [] { ConfirmationNeedsTwo(q, previous, f); }
    hide Publishers, Titles, Key, Unique, TwoPublishers, TwoTitles;
  }

  // ----- The history -----

  function Unchanged(p: Revision, d: Decision): bool {
    p.status == d.status && p.summary == d.summary && p.newsIds == d.newsIds && p.key == d.key
  }

  function Last(history: seq<Revision>): Option<Revision> { if history == [] then None else Some(history[|history| - 1]) }

  function ConfirmedAt(previous: Option<Revision>, d: Decision, now: int): Option<int> {
    if d.newsIds != [] && (previous.None? || previous.value.newsIds != d.newsIds) then Some(now)
    else if previous.Some? then previous.value.confirmedAt
    else None
  }

  function Recorded(history: seq<Revision>, eventId: string, d: Decision, now: int): seq<Revision> {
    var previous := Last(history);
    if previous.Some? && Unchanged(previous.value, d) then history
    else history + [Revision(eventId, |history| + 1, d.status, d.summary, d.newsIds, d.key, d.reason, now, ConfirmedAt(previous, d, now))]
  }

  function HistoryOf(revisions: map<string, seq<Revision>>, eventId: string): seq<Revision> {
    if eventId in revisions then revisions[eventId] else []
  }

  class EvidenceRevisionStore {
    var revisions: map<string, seq<Revision>>

    constructor ()
      ensures revisions == map[]
    {
      revisions := map[];
    }

    method Current(eventId: string) returns (current: Option<Revision>)
      ensures current == Last(HistoryOf(revisions, eventId))
    {
      if eventId !in revisions { return None; }
      var history := revisions[eventId];
      return if history != [] then Some(history[|history| - 1]) else None;
    }

    method Record(eventId: string, d: Decision, now: int) returns (revision: Revision)
      modifies this
      ensures revisions == old(revisions)[eventId := Recorded(HistoryOf(old(revisions), eventId), eventId, d, now)]
      ensures Some(revision) == Last(HistoryOf(revisions, eventId))
    {
      if eventId !in revisions { revisions := revisions[eventId := []]; }
      var history := revisions[eventId];
      var previous := Last(history);
      if previous.Some? && Unchanged(previous.value, d) {
        assert revisions[eventId := history] == revisions;
        return previous.value;
      }
      var confirmedAt := if d.newsIds != [] && (previous.None? || previous.value.newsIds != d.newsIds) then Some(now)
                         else if previous.Some? then previous.value.confirmedAt else None;
      revision := Revision(eventId, |history| + 1, d.status, d.summary, d.newsIds, d.key, d.reason, now, confirmedAt);
      revisions := revisions[eventId := history + [revision]];
    }
  }

  // ----- Deciding and recording, over and over -----

  function Step(revisions: map<string, seq<Revision>>, q: Inquiry, f: Folding): map<string, seq<Revision>> {
    var id := q.context.eventId;
    var history := HistoryOf(revisions, id);
    revisions[id := Recorded(history, id, Decide(q, Last(history), f), q.now)]
  }

  function Run(inquiries: seq<Inquiry>, f: Folding): map<string, seq<Revision>> {
    if inquiries == [] then map[] else Step(Run(inquiries[..|inquiries| - 1], f), inquiries[|inquiries| - 1], f)
  }

  // The pipeline's loop body.
  method DecideAndRecord(store: EvidenceRevisionStore, q: Inquiry, f: Folding) returns (revision: Revision)
    modifies store
    ensures store.revisions == Step(old(store.revisions), q, f)
    ensures Some(revision) == Last(HistoryOf(store.revisions, q.context.eventId))
  {
    var previous := store.Current(q.context.eventId);
    revision := store.Record(q.context.eventId, Decide(q, previous, f), q.now);
  }

  ghost predicate Same(a: Revision, b: Revision) { a.status == b.status && a.summary == b.summary && a.newsIds == b.newsIds && a.key == b.key }

  // The revision whose news ids are still those of revision j, and which brought them in.
  ghost predicate BroughtIn(h: seq<Revision>, i: nat, j: nat) {
    i <= j < |h| && h[i].newsIds == h[j].newsIds && (forall k | i <= k <= j :: h[k].newsIds == h[j].newsIds)
    && (i == 0 || h[i - 1].newsIds != h[i].newsIds)
  }

  ghost predicate Numbered(h: seq<Revision>, eventId: string) { forall i | 0 <= i < |h| :: h[i].revision == i + 1 && h[i].eventId == eventId }

  ghost predicate NeighboursDiffer(h: seq<Revision>) { forall i, j | 0 <= i < j < |h| && j == i + 1 :: !Same(h[i], h[j]) }

  ghost predicate Dated(h: seq<Revision>, j: nat)
    requires j < |h|
  {
    exists i: nat :: BroughtIn(h, i, j) && h[j].confirmedAt == Some(h[i].decidedAt)
  }

  ghost predicate NewsIsDated(h: seq<Revision>) { forall j: nat | j < |h| && h[j].newsIds != [] :: Dated(h, j) }

  ghost predicate NeverBackToNothing(h: seq<Revision>) { forall i, j | 0 <= i < j < |h| && Strength(h[i].status) > 0 :: Strength(h[j].status) > 0 }

  ghost predicate SoundHistory(h: seq<Revision>, eventId: string) {
    Numbered(h, eventId) && NeighboursDiffer(h) && NewsIsDated(h) && NeverBackToNothing(h)
  }

  lemma StillDated(h: seq<Revision>, r: Revision)
    requires NewsIsDated(h)
    requires r.confirmedAt == if r.newsIds != [] && (h == [] || h[|h| - 1].newsIds != r.newsIds) then Some(r.decidedAt)
                              else if h != [] then h[|h| - 1].confirmedAt else None
    ensures NewsIsDated(h + [r])
  {
    hide Dated;
    var all, n := h + [r], |h|;
    forall j: nat | j < |all| && all[j].newsIds != [] ensures Dated(all, j) {
      if j < n {
        assert h[j] == all[j];
        EarlierDated(h, r, j);
      } else if n > 0 && h[n - 1].newsIds == r.newsIds {
        SameNewsDated(h, r);
      } else {
        NewNewsDated(h, r);
      }
    }
  }

  lemma EarlierDated(h: seq<Revision>, r: Revision, j: nat)
    requires j < |h| && Dated(h, j)
    ensures Dated(h + [r], j)
  {
    var i: nat :| BroughtIn(h, i, j) && h[j].confirmedAt == Some(h[i].decidedAt);
    assert forall k | 0 <= k < |h| :: (h + [r])[k] == h[k];
    assert BroughtIn(h + [r], i, j);
  }

  lemma SameNewsDated(h: seq<Revision>, r: Revision)
    requires h != [] && Dated(h, |h| - 1) && h[|h| - 1].newsIds == r.newsIds && r.confirmedAt == h[|h| - 1].confirmedAt
    ensures Dated(h + [r], |h|)
  {
    var i: nat :| BroughtIn(h, i, |h| - 1) && h[|h| - 1].confirmedAt == Some(h[i].decidedAt);
    assert forall k | 0 <= k < |h| :: (h + [r])[k] == h[k];
    assert BroughtIn(h + [r], i, |h|);
  }

  lemma NewNewsDated(h: seq<Revision>, r: Revision)
    requires (h == [] || h[|h| - 1].newsIds != r.newsIds) && r.confirmedAt == Some(r.decidedAt)
    ensures Dated(h + [r], |h|)
  {
    assert BroughtIn(h + [r], |h|, |h|);
  }

  lemma OneMoreRevision(h: seq<Revision>, r: Revision, eventId: string)
    requires SoundHistory(h, eventId) && r.revision == |h| + 1 && r.eventId == eventId
    requires h != [] ==> !Same(h[|h| - 1], r) && (Strength(h[|h| - 1].status) > 0 ==> Strength(r.status) > 0)
    requires r.confirmedAt == if r.newsIds != [] && (h == [] || h[|h| - 1].newsIds != r.newsIds) then Some(r.decidedAt)
                              else if h != [] then h[|h| - 1].confirmedAt else None
    ensures SoundHistory(h + [r], eventId)
  {
    hide Strength, Same, Dated;
    StillDated(h, r);
    hide NewsIsDated;
    assert NeverBackToNothing(h + [r]) by {
      var all, n := h + [r], |h|;
      forall i, j | 0 <= i < j < |all| && Strength(all[i].status) > 0 ensures Strength(all[j].status) > 0 {
        assert all[i] == h[i] && (j < n ==> all[j] == h[j]);
      }
    }
  }

  lemma RecordedIsSound(history: seq<Revision>, q: Inquiry, f: Folding)
    requires SoundHistory(history, q.context.eventId)
    ensures SoundHistory(Recorded(history, q.context.eventId, Decide(q, Last(history), f), q.now), q.context.eventId)
    ensures history <= Recorded(history, q.context.eventId, Decide(q, Last(history), f), q.now)
  {
    var d, previous := Decide(q, Last(history), f), Last(history);
    StrengthMovesOnlyOnEvidence(q, previous, f);
    hide Decide, SoundHistory;
    if !(previous.Some? && Unchanged(previous.value, d)) {
      OneMoreRevision(history, Revision(q.context.eventId, |history| + 1, d.status, d.summary, d.newsIds, d.key, d.reason, q.now,
                                        ConfirmedAt(previous, d, q.now)), q.context.eventId);
    }
  }

  /** On every run and for every Event: revisions count from 1, neighbours differ, cited news has the time it was brought in,
      and once there is evidence the Event never goes back to searching or to having none. */
  lemma {:induction false} EveryHistoryIsSound(inquiries: seq<Inquiry>, f: Folding, eventId: string)
    ensures SoundHistory(HistoryOf(Run(inquiries, f), eventId), eventId)
  {
    hide Recorded, Decide, SoundHistory;
    if inquiries == [] {
      NoHistory(eventId);
    } else {
      EveryHistoryIsSound(inquiries[..|inquiries| - 1], f, eventId);
      var q := inquiries[|inquiries| - 1];
      if q.context.eventId == eventId { RecordedIsSound(HistoryOf(Run(inquiries[..|inquiries| - 1], f), eventId), q, f); }
    }
  }

  lemma NoHistory(eventId: string)
    ensures SoundHistory([], eventId)
  {
  }

  /** Histories are only ever extended. */
  lemma {:induction false} HistoriesGrow(inquiries: seq<Inquiry>, f: Folding, i: nat, eventId: string)
    requires i <= |inquiries|
    ensures HistoryOf(Run(inquiries[..i], f), eventId) <= HistoryOf(Run(inquiries, f), eventId)
    decreases |inquiries| - i
  {
    hide Recorded, Decide;
    if i == |inquiries| {
      assert inquiries[..i] == inquiries;
    } else {
      HistoriesGrow(inquiries, f, i + 1, eventId);
      assert inquiries[..i + 1][..i] == inquiries[..i];
      RecordedExtends(HistoryOf(Run(inquiries[..i], f), inquiries[i].context.eventId), inquiries[i], f);
    }
  }

  lemma RecordedExtends(history: seq<Revision>, q: Inquiry, f: Folding)
    ensures history <= Recorded(history, q.context.eventId, Decide(q, Last(history), f), q.now)
  {
    hide Decide;
  }

  /** An empty look at an Event that has evidence leaves no trace: neither in its history nor in anything that follows. */
  lemma {:induction false} EmptyLooksAreInvisible(before: seq<Inquiry>, q: Inquiry, after: seq<Inquiry>, f: Folding)
    requires q.evidence == [] && q.afterClose.None? && StrengthOf(Last(HistoryOf(Run(before, f), q.context.eventId))) > 0
    ensures Run(before + [q] + after, f) == Run(before + after, f)
    decreases |after|
  {
    hide Run, Step, HistoryOf, Last, StrengthOf;
    if after == [] {
      RunMore(before, q, f);
      assert before + [q] + [] == before + [q] && before + [] == before;
      EmptyStep(Run(before, f), q, f);
    } else {
      var n := |after| - 1;
      EmptyLooksAreInvisible(before, q, after[..n], f);
      RunMore(before + [q] + after[..n], after[n], f);
      RunMore(before + after[..n], after[n], f);
      assert after == after[..n] + [after[n]];
      assert before + [q] + after == before + [q] + after[..n] + [after[n]];
      assert before + after == before + after[..n] + [after[n]];
    }
  }

  lemma EmptyStep(revisions: map<string, seq<Revision>>, q: Inquiry, f: Folding)
    requires q.evidence == [] && q.afterClose.None? && StrengthOf(Last(HistoryOf(revisions, q.context.eventId))) > 0
    ensures Step(revisions, q, f) == revisions
  {
    EmptyLookAddsNothing(HistoryOf(revisions, q.context.eventId), q, f);
    HistoryIsThere(revisions, q.context.eventId);
    hide Decide, Recorded;
  }

  lemma HistoryIsThere(revisions: map<string, seq<Revision>>, eventId: string)
    requires HistoryOf(revisions, eventId) != []
    ensures revisions[eventId := HistoryOf(revisions, eventId)] == revisions
  {
  }

  lemma EmptyLookAddsNothing(history: seq<Revision>, q: Inquiry, f: Folding)
    requires q.evidence == [] && q.afterClose.None? && StrengthOf(Last(history)) > 0
    ensures Recorded(history, q.context.eventId, Decide(q, Last(history), f), q.now) == history
  {
    hide Publishers, Titles, Key, Unique;
  }

  /** An after-close confirmation is not final: whatever led to it, a look overtakes it exactly when it brings an article
      and no after-close text of its own, and then leaves weaker evidence. */
  lemma ConfirmationCanBeOvertaken(inquiries: seq<Inquiry>, q: Inquiry, f: Folding)
    requires var last := Last(HistoryOf(Run(inquiries, f), q.context.eventId)); last.Some? && last.value.status == AfterCloseConfirmed
    ensures var history := HistoryOf(Run(inquiries + [q], f), q.context.eventId);
            && history != [] && HistoryOf(Run(inquiries, f), q.context.eventId) <= history
            && (Strength(history[|history| - 1].status) < Strength(AfterCloseConfirmed) <==> q.afterClose.None? && q.evidence != [])
            && (history[|history| - 1].status == AfterCloseConfirmed <==> q.afterClose.Some? || q.evidence == [])
  {
    RunMore(inquiries, q, f);
    var before := HistoryOf(Run(inquiries, f), q.context.eventId);
    StrengthMovesOnlyOnEvidence(q, Last(before), f);
    hide Decide, Key, Publishers, Titles;
    assert Last(Recorded(before, q.context.eventId, Decide(q, Last(before), f), q.now)).value.status == Decide(q, Last(before), f).status;
    StrongestIsAfterClose(Decide(q, Last(before), f).status);
  }

  lemma StrongestIsAfterClose(s: Status)
    ensures Strength(s) <= 3 && (Strength(s) == 3 <==> s == AfterCloseConfirmed)
  {
  }

  lemma RunMore(inquiries: seq<Inquiry>, q: Inquiry, f: Folding)
    ensures Run(inquiries + [q], f) == Step(Run(inquiries, f), q, f)
  {
    hide Step;
    assert (inquiries + [q])[..|inquiries|] == inquiries;
  }

  /** One after-close confirmation and one article later are enough. */
  lemma OvertakenWitness(context: Context, article: Article, summary: string, f: Folding)
    ensures var confirm, look := Inquiry(context, [], 0, false, Some(summary)), Inquiry(context, [article], 1, false, None);
            var history := HistoryOf(Run([confirm, look], f), context.eventId);
            |history| == 2 && history[0].status == AfterCloseConfirmed && history[1].status != AfterCloseConfirmed
  {
    var confirm, look := Inquiry(context, [], 0, false, Some(summary)), Inquiry(context, [article], 1, false, None);
    RunMore([], confirm, f);
    assert [] + [confirm] == [confirm] && [confirm] + [look] == [confirm, look];
    var first := HistoryOf(Run([confirm], f), context.eventId);
    assert |first| == 1 && first[0].status == AfterCloseConfirmed by { hide Key; assert Run([], f) == map[]; }
    RunMore([confirm], look, f);
    hide Decide, Run;
    ConfirmationCanBeOvertaken([confirm], look, f);
  }
}
