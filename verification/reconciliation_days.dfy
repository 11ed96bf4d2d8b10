/** packages/events/reconciliation.py over whole days: passes one after another, and passes over Events read too early. */
module ReconciliationDays {
  import opened Results
  import opened DomainState
  import opened EventModels
  import opened EventStore
  import opened EventWriting
  import opened EventHistory
  import opened EventRuns
  import opened Reconciliation
  import Sorting

  // ----- When a pass fails -----

  // The name the change wants was given to a different command.
  ghost predicate Reused(t: Tables, c: Command) {
    c.metadata.messageId in t.receipts && t.receipts[c.metadata.messageId].fingerprint != Sha256(c)
  }

  // The Events are stored rows, or rows the store has since moved on from.
  ghost predicate ReadEarlier(t: Tables, events: seq<CanonicalEvent>) {
    forall e | e in events ::
      && e.stateVersion >= 1 && e.eventId in t.events
      && (e.stateVersion < t.events[e.eventId].stateVersion || t.events[e.eventId] == e)
  }

  ghost predicate NameIsFree(t: Tables, confirmations: seq<Confirmation>, s: Settings, e: CanonicalEvent) {
    PlanOf(confirmations, s, e).Submit? ==> !Reused(t, PlanOf(confirmations, s, e).command)
  }

  lemma EarlierRow(t: Tables, events: seq<CanonicalEvent>, e: CanonicalEvent)
    requires ReadEarlier(t, events) && e in events
    ensures e.stateVersion >= 1 && e.eventId in t.events
    ensures e.stateVersion < t.events[e.eventId].stateVersion || t.events[e.eventId] == e
  {
  }

  // A change planned from a row the store had is answered, unless its name is reused.
  lemma EarlierRowIsAnswered(t: Tables, s: Settings, e: CanonicalEvent, c: Command)
    requires Inv(t) && e.eventId in t.events && (e.stateVersion < t.events[e.eventId].stateVersion || t.events[e.eventId] == e)
    requires Names(s, e, c) && Edge(e, c)
    ensures var r := Write(t, c, false).1; if Reused(t, c) then r == Failure(MessageIdReused) else r.Success?
  {
    hide Inv, Write;
    WriteIs(t, c, false);
  }

  // What the tables hold of one Event under the after-close source.
  ghost predicate SameLedger(t: Tables, u: Tables, s: Settings, id: EventId) {
    var key := (id, RECONCILIATION_SOURCE);
    && (key in u.sourceSequences <==> key in t.sourceSequences)
    && (key in t.sourceSequences ==> u.sourceSequences[key] == t.sourceSequences[key])
    && (forall d {:trigger s.texts.name(id, d)} :: s.texts.name(id, d) in u.receipts <==> s.texts.name(id, d) in t.receipts)
    && (forall d {:trigger s.texts.name(id, d)} | s.texts.name(id, d) in t.receipts ::
          u.receipts[s.texts.name(id, d)] == t.receipts[s.texts.name(id, d)])
    && (id in u.events <==> id in t.events) && (id in t.events ==> u.events[id] == t.events[id])
  }

  // At most this change's name and sequence were added to what is held of its Event.
  ghost predicate Marked(t: Tables, u: Tables, s: Settings, e: CanonicalEvent, c: Command) {
    var key := (e.eventId, RECONCILIATION_SOURCE);
    && (key in u.sourceSequences ==>
          (key in t.sourceSequences && u.sourceSequences[key] == t.sourceSequences[key]) || u.sourceSequences[key] == Sequence(s.now))
    && (forall d {:trigger s.texts.name(e.eventId, d)} | s.texts.name(e.eventId, d) in u.receipts ::
          s.texts.name(e.eventId, d) in t.receipts || s.texts.name(e.eventId, d) == c.metadata.messageId)
  }

  lemma PostKeepsLedgers(t: Tables, s: Settings, e: CanonicalEvent, c: Command, row: CanonicalEvent, entry: StateLog, m: OutboxMessage, id: EventId)
    requires Naming(s.texts) && Names(s, e, c) && row.eventId == e.eventId
    ensures id != e.eventId ==> SameLedger(t, Posted(t, c, row, entry, m), s, id)
    ensures Marked(t, Posted(t, c, row, entry, m), s, e, c)
  {
    hide HasText, FreshRecord;
  }

  lemma AckKeepsLedgers(t: Tables, s: Settings, e: CanonicalEvent, c: Command, row: CanonicalEvent, d: Disposition, id: EventId)
    requires Naming(s.texts) && Names(s, e, c) && row.eventId == e.eventId
    ensures id != e.eventId ==> SameLedger(t, Acked(t, c, row, d), s, id)
    ensures Marked(t, Acked(t, c, row, d), s, e, c)
  {
    hide HasText;
  }

  lemma NoLedgerChange(t: Tables, s: Settings, e: CanonicalEvent, c: Command, id: EventId)
    ensures SameLedger(t, t, s, id) && Marked(t, t, s, e, c)
  {
  }

  // A change of one Event adds at most its own name and sequence, and leaves what is held of any other.
  lemma WriteKeepsLedgers(t: Tables, s: Settings, e: CanonicalEvent, c: Command, id: EventId)
    requires Inv(t) && Naming(s.texts) && Names(s, e, c)
    ensures id != e.eventId ==> SameLedger(t, Write(t, c, false).0, s, id)
    ensures Marked(t, Write(t, c, false).0, s, e, c)
  {
    hide Histories, VersionsUnique, Receipts, Sequences, Outbox, Write, Moves, SameLedger, Marked, Naming, Decide, Bijection, Posted, Acked;
    WriteIs(t, c, false);
    NoLedgerChange(t, s, e, c, id);
    var d := Decide(t, c);
    if d.Revised? {
      RevisionIsKeyed(t, c);
      PostKeepsLedgers(t, s, e, c, d.revision, d.entry, d.message, id);
    } else if d.Settled? {
      SettledEventIsStored(t, c);
      AckKeepsLedgers(t, s, e, c, d.event, d.disposition, id);
    }
  }

  lemma DistinctTail(events: seq<CanonicalEvent>)
    requires events != [] && DistinctIds(events)
    ensures DistinctIds(events[1..]) && events[0] in events
    ensures forall e | e in events[1..] :: e in events && e.eventId != events[0].eventId
  {
    assert events == [events[0]] + events[1..];
    forall e | e in events[1..] ensures e.eventId != events[0].eventId {
      var i :| 0 <= i < |events[1..]| && events[1..][i] == e;
      assert events[i + 1] == e;
    }
  }

  lemma NameStaysFree(t: Tables, u: Tables, confirmations: seq<Confirmation>, s: Settings, e: CanonicalEvent)
    requires SameLedger(t, u, s, e.eventId)
    ensures NameIsFree(u, confirmations, s, e) <==> NameIsFree(t, confirmations, s, e)
  {
    hide PlanOf;
    if PlanOf(confirmations, s, e).Submit? { PlanNames(confirmations, s, e); }
  }

  lemma EarlierStays(t: Tables, u: Tables, s: Settings, events: seq<CanonicalEvent>)
    requires ReadEarlier(t, events) && forall e | e in events :: SameLedger(t, u, s, e.eventId)
    ensures ReadEarlier(u, events)
  {
  }

  lemma {:induction false} PassEnds(t: Tables, eligible: seq<CanonicalEvent>, confirmations: seq<Confirmation>, s: Settings, so: Outcome)
    requires Inv(t) && Naming(s.texts) && DistinctIds(eligible) && ReadEarlier(t, eligible) && AllValid(Plans(s, eligible, confirmations))
    ensures var r := Perform(t, false, Plans(s, eligible, confirmations), so).1;
            if forall e | e in eligible :: NameIsFree(t, confirmations, s, e) then r.Success? else r == Failure(WriteFailed(MessageIdReused))
    decreases |eligible|
  {
    hide Inv, Write, Naming, Names, ValidCommand, Articles, PlanOf, PlanFor, DistinctIds, ReadEarlier, Reused, SameLedger;
    if eligible != [] {
      var e, plans := eligible[0], Plans(s, eligible, confirmations);
      DistinctTail(eligible);
      PlansStart(s, eligible, confirmations);
      assert plans == [plans[0]] + plans[1..] && eligible == [e] + eligible[1..];
      EarlierRow(t, eligible, e);
      TailReadEarlier(t, eligible);
      if plans[0].Skip? {
        PassEnds(t, eligible[1..], confirmations, s, so.(skipped := so.skipped + [plans[0].id]));
      } else {
        PlanNames(confirmations, s, e);
        EarlierRowIsAnswered(t, s, e, plans[0].command);
        if NameIsFree(t, confirmations, s, e) {
          var (after, r) := Write(t, plans[0].command, false);
          WriteKeepsInv(t, plans[0].command, false);
          forall other | other in eligible[1..]
            ensures SameLedger(t, after, s, other.eventId)
            ensures NameIsFree(after, confirmations, s, other) <==> NameIsFree(t, confirmations, s, other)
          {
            WriteKeepsLedgers(t, s, e, plans[0].command, other.eventId);
            NameStaysFree(t, after, confirmations, s, other);
          }
          EarlierStays(t, after, s, eligible[1..]);
          PassEnds(after, eligible[1..], confirmations, s, Noted(so, plans[0], r.value));
        }
      }
    }
  }

  lemma PlansStart(s: Settings, eligible: seq<CanonicalEvent>, confirmations: seq<Confirmation>)
    requires eligible != []
    ensures Plans(s, eligible, confirmations)[0] == PlanOf(confirmations, s, eligible[0])
    ensures Plans(s, eligible, confirmations)[1..] == Plans(s, eligible[1..], confirmations)
  {
  }

  lemma TailReadEarlier(t: Tables, events: seq<CanonicalEvent>)
    requires events != [] && ReadEarlier(t, events)
    ensures ReadEarlier(t, events[1..])
  {
  }

  /** Whenever its Events were read, a pass goes through exactly when no planned change wants a name that another command
      bears; that conflict is the only way it can fail. */
  lemma PassFailsOnlyOnReusedNames(t: Tables, events: seq<CanonicalEvent>, confirmations: seq<Confirmation>, s: Settings)
    requires Inv(t) && Naming(s.texts) && DistinctLineage(confirmations) && s.now >= 0
    requires DistinctIds(InIdOrder(events, s)) && ReadEarlier(t, InIdOrder(events, s))
    ensures var r := Pass(t, false, events, confirmations, s).1;
            if forall e | e in InIdOrder(events, s) :: NameIsFree(t, confirmations, s, e) then r.Success?
            else r == Failure(WriteFailed(MessageIdReused))
  {
    var order := InIdOrder(events, s);
    hide InIdOrder, Perform, Plans, Inv, Naming, DistinctLineage, DistinctIds, AllValid, NameIsFree;
    forall e | e in order ensures e.stateVersion >= 1 { EarlierRow(t, order, e); }
    PlansAreValid(order, confirmations, s);
    PassEnds(t, order, confirmations, s, EMPTY_OUTCOME);
  }

  // ----- A second pass over the same Events -----

  // At another time the same change is another command under the same name.
  lemma SameNameAtAnotherTime(u: Tables, confirmations: seq<Confirmation>, s: Settings, later: Settings, e: CanonicalEvent)
    requires later == s.(now := later.now) && later.now != s.now && later.now >= 0
    requires PlanOf(confirmations, s, e).Submit? && ValidCommand(PlanOf(confirmations, s, e).command)
    requires exists r :: Committed(u, PlanOf(confirmations, s, e).command, r)
    ensures PlanOf(confirmations, later, e).Submit?
    ensures ValidCommand(PlanOf(confirmations, later, e).command)
    ensures Write(u, PlanOf(confirmations, later, e).command, false) == (u, Failure(MessageIdReused))
  {
    hide Articles, HasText, Decimal, Lineages, DigestOf;
  }

  lemma PlanAtAnotherTime(confirmations: seq<Confirmation>, s: Settings, later: Settings, e: CanonicalEvent)
    requires later == s.(now := later.now)
    ensures PlanOf(confirmations, later, e).Skip? <==> PlanOf(confirmations, s, e).Skip?
    ensures PlanOf(confirmations, s, e).Skip? ==> PlanOf(confirmations, later, e) == PlanOf(confirmations, s, e)
  {
    hide Articles;
  }

  lemma {:induction false} SecondPassStops(u: Tables, order: seq<CanonicalEvent>, confirmations: seq<Confirmation>, s: Settings, later: Settings,
                                           so: Outcome)
    requires later == s.(now := later.now) && later.now != s.now && later.now >= 0
    requires AllValid(Plans(s, order, confirmations)) && AllCommitted(u, Plans(s, order, confirmations))
    requires exists e :: e in order && PlanOf(confirmations, s, e).Submit?
    ensures Perform(u, false, Plans(later, order, confirmations), so) == (u, Failure(WriteFailed(MessageIdReused)))
    decreases |order|
  {
    hide Write, ValidCommand, PlanOf, PlanFor, Articles, Committed;
    var e := order[0];
    PlansStart(s, order, confirmations);
    PlansStart(later, order, confirmations);
    PlanAtAnotherTime(confirmations, s, later, e);
    var plans := Plans(s, order, confirmations);
    assert plans == [plans[0]] + plans[1..] && order == [e] + order[1..];
    if plans[0].Skip? {
      SecondPassStops(u, order[1..], confirmations, s, later, so.(skipped := so.skipped + [plans[0].id]));
    } else {
      assert plans[0] in plans;
      SameNameAtAnotherTime(u, confirmations, s, later, e);
    }
  }

  /** After a finished pass, one over the same Events and articles at any other time writes nothing: it only skips when there
      was nothing to write in the first place, and otherwise stops on the reused name. */
  lemma UnrefreshedPassStops(t: Tables, commitFails: bool, events: seq<CanonicalEvent>, confirmations: seq<Confirmation>, s: Settings,
                             u: Tables, later: Settings)
    requires Inv(t) && Pass(t, commitFails, events, confirmations, s).1.Success?
    requires Grows(Pass(t, commitFails, events, confirmations, s).0, u)
    requires later == s.(now := later.now) && later.now != s.now && later.now >= 0
    ensures Pass(u, false, events, confirmations, later) ==
              if forall e | e in InIdOrder(events, s) :: IsSkipped(confirmations, s, e)
              then (u, Success(EMPTY_OUTCOME.(skipped := IdsWhere(InIdOrder(events, s), e => true))))
              else (u, Failure(WriteFailed(MessageIdReused)))
  {
    hide *;
    var order, plans := InIdOrder(events, s), Plans(s, InIdOrder(events, s), confirmations);
    SameOrder(events, s, later);
    PassIs(t, commitFails, events, confirmations, s);
    PassIs(u, false, events, confirmations, later);
    if forall e | e in order :: IsSkipped(confirmations, s, e) {
      forall e | e in order ensures IsSkipped(confirmations, later, e) { SkippedAtAnotherTime(confirmations, s, later, e); }
      SkippedPassWritesNothing(u, order, confirmations, later, false, EMPTY_OUTCOME);
      NoneSkippedBefore(IdsWhere(order, e => true));
    } else {
      var e :| e in order && !IsSkipped(confirmations, s, e);
      PlannedSubmits(confirmations, s, e);
      FinishedPass(t, commitFails, plans, EMPTY_OUTCOME);
      StillCommitted(Pass(t, commitFails, events, confirmations, s).0, u, plans);
      SecondPassStops(u, order, confirmations, s, later, EMPTY_OUTCOME);
    }
  }

  lemma PassIs(t: Tables, commitFails: bool, events: seq<CanonicalEvent>, confirmations: seq<Confirmation>, s: Settings)
    ensures Pass(t, commitFails, events, confirmations, s) == Perform(t, commitFails, Plans(s, InIdOrder(events, s), confirmations), EMPTY_OUTCOME)
  {
  }

  lemma PlannedSubmits(confirmations: seq<Confirmation>, s: Settings, e: CanonicalEvent)
    requires !IsSkipped(confirmations, s, e)
    ensures PlanOf(confirmations, s, e).Submit?
  {
    PlanKinds(confirmations, s, e);
    hide IsSkipped, PlanFor;
  }

  lemma SameOrder(events: seq<CanonicalEvent>, s: Settings, later: Settings)
    requires later == s.(now := later.now)
    ensures InIdOrder(events, later) == InIdOrder(events, s)
  {
    RereadKeepsOrder(EMPTY, events, s, later);
    hide InIdOrder;
    assert Reread(EMPTY, events) == events;
    assert Reread(EMPTY, InIdOrder(events, s)) == InIdOrder(events, s);
  }

  lemma SkippedAtAnotherTime(confirmations: seq<Confirmation>, s: Settings, later: Settings, e: CanonicalEvent)
    requires later == s.(now := later.now)
    ensures IsSkipped(confirmations, later, e) <==> IsSkipped(confirmations, s, e)
  {
  }

  lemma StillCommitted(t: Tables, u: Tables, plans: seq<Plan>)
    requires AllCommitted(t, plans) && Grows(t, u)
    ensures AllCommitted(u, plans)
  {
    hide Grows, Committed;
    forall p | p in plans && p.Submit? ensures exists r :: Committed(u, p.command, r) {
      var r :| Committed(t, p.command, r);
      GrowsCommitted(t, u, p.command, r);
    }
  }

  // ----- Reading the Events again -----

  // The Event as the store now has it.
  function Row(t: Tables, e: CanonicalEvent): CanonicalEvent { if e.eventId in t.events then t.events[e.eventId] else e }

  function Reread(t: Tables, events: seq<CanonicalEvent>): seq<CanonicalEvent> { Sorting.Map(events, e => Row(t, e)) }

  lemma {:induction false} RereadEligible(t: Tables, events: seq<CanonicalEvent>, s: Settings, later: Settings)
    requires later == s.(now := later.now)
    requires forall e | e in events :: Row(t, e).identityKey == e.identityKey
    ensures Eligible(Reread(t, events), later) == Reread(t, Eligible(events, s))
  {
    if events != [] {
      var n := |events| - 1;
      assert events == events[..n] + [events[n]];
      RereadEligible(t, events[..n], s, later);
      assert Reread(t, events)[..n] == Reread(t, events[..n]);
      assert Reread(t, Eligible(events[..n], s) + [events[n]]) == Reread(t, Eligible(events[..n], s)) + [Row(t, events[n])];
    }
  }

  // Reading again changes neither which Events are eligible nor their order.
  lemma RereadKeepsOrder(t: Tables, events: seq<CanonicalEvent>, s: Settings, later: Settings)
    requires later == s.(now := later.now)
    requires forall e | e in events :: Row(t, e).eventId == e.eventId && Row(t, e).identityKey == e.identityKey
    ensures InIdOrder(Reread(t, events), later) == Reread(t, InIdOrder(events, s))
  {
    RereadEligible(t, events, s, later);
    var eligible := Eligible(events, s);
    forall e | e in eligible ensures e in events { EligibleAre(events, s); }
    hide Eligible, Sorting.Sort;
    Sorting.SortMapped(eligible, e => Row(t, e), (a, b) => EventLe(s.texts, a, b), (a, b) => EventLe(later.texts, a, b));
  }

  // ----- A day of passes -----

  // No after-close change of this row at this time can be stale, and the names its next changes will want are not taken.
  ghost predicate Open(t: Tables, e: CanonicalEvent, s: Settings) {
    var key := (e.eventId, RECONCILIATION_SOURCE);
    e.reconciliation != Matched ==>
      && e.changedAt <= s.now
      && (key in t.sourceSequences ==> t.sourceSequences[key] < Sequence(s.now))
      && (forall digest :: s.texts.name(e.eventId, Some(digest)) !in t.receipts)
      && (e.reconciliation == Pending ==> s.texts.name(e.eventId, None) !in t.receipts)
  }

  lemma OpenIsDue(t: Tables, e: CanonicalEvent, confirmations: seq<Confirmation>, s: Settings)
    requires Open(t, e, s)
    ensures Due(t, e, confirmations, s)
  {
    hide Articles, Decimal, Lineages;
  }

  lemma LaterSequence(a: int, b: int)
    requires Sequence(a) < Sequence(b)
    ensures a < b
  {
  }

  // What a pass leaves of one of its Events.
  ghost predicate Leaves(t: Tables, u: Tables, confirmations: seq<Confirmation>, s: Settings, e: CanonicalEvent) {
    var p := PlanOf(confirmations, s, e);
    if p.Skip? then SameLedger(t, u, s, e.eventId)
    else p.command.ReconcileEvent? && Marked(t, u, s, e, p.command)
         && e.eventId in u.events && u.events[e.eventId] == ReconciledEvent(e, p.command)
  }

  // So the Event is open for the next pass.
  lemma OpenAgain(t: Tables, u: Tables, confirmations: seq<Confirmation>, s: Settings, later: Settings, e: CanonicalEvent)
    requires Naming(s.texts) && later == s.(now := later.now) && Sequence(s.now) < Sequence(later.now)
    requires e.eventId in t.events && t.events[e.eventId] == e && Open(t, e, s) && Leaves(t, u, confirmations, s, e)
    ensures Open(u, Row(u, e), later)
  {
    LaterSequence(s.now, later.now);
    hide Articles, Decimal, Lineages, HasText, Sequence;
  }

  lemma LedgerTransitive(t: Tables, u: Tables, v: Tables, s: Settings, id: EventId)
    requires SameLedger(t, u, s, id) && SameLedger(u, v, s, id)
    ensures SameLedger(t, v, s, id)
  {
  }

  lemma LedgerReflexive(t: Tables, s: Settings, id: EventId)
    ensures SameLedger(t, t, s, id)
  {
  }

  // What one write leaves of its Event, the rest of the pass does not touch.
  lemma MarkStays(t: Tables, u: Tables, v: Tables, s: Settings, e: CanonicalEvent, c: Command)
    requires Marked(t, u, s, e, c) && SameLedger(u, v, s, e.eventId)
    ensures Marked(t, v, s, e, c) && (e.eventId in u.events ==> e.eventId in v.events && v.events[e.eventId] == u.events[e.eventId])
  {
  }

  // The rest of the pass starts from the same ledger of the others, so leaves the same of them.
  lemma LeavesFrom(t: Tables, u: Tables, v: Tables, confirmations: seq<Confirmation>, s: Settings, e: CanonicalEvent)
    requires SameLedger(t, u, s, e.eventId) && Leaves(u, v, confirmations, s, e)
    ensures Leaves(t, v, confirmations, s, e)
  {
    hide PlanOf, ReconciledEvent;
  }

  ghost predicate Outside(events: seq<CanonicalEvent>, id: EventId) { forall e | e in events :: e.eventId != id }

  lemma OutsideTail(events: seq<CanonicalEvent>)
    requires events != [] && DistinctIds(events)
    ensures Outside(events[1..], events[0].eventId)
    ensures forall id | Outside(events, id) :: Outside(events[1..], id) && id != events[0].eventId
  {
    DistinctTail(events);
  }

  lemma {:induction false} PassLeaves(t: Tables, eligible: seq<CanonicalEvent>, confirmations: seq<Confirmation>, s: Settings, so: Outcome)
    requires Inv(t) && Naming(s.texts) && DistinctIds(eligible) && Current(t, eligible) && AllDue(t, eligible, confirmations, s)
    requires AllValid(Plans(s, eligible, confirmations))
    ensures var u := Perform(t, false, Plans(s, eligible, confirmations), so).0;
            && (forall e | e in eligible :: Leaves(t, u, confirmations, s, e))
            && (forall id | Outside(eligible, id) :: SameLedger(t, u, s, id))
    decreases |eligible|
  {
    hide Inv, Write, Naming, Names, ValidCommand, Articles, PlanOf, PlanFor, Due, DistinctIds, Current, SameLedger, Leaves, Marked, ReconciledEvent, Outside;
    var u, plans := Perform(t, false, Plans(s, eligible, confirmations), so).0, Plans(s, eligible, confirmations);
    if eligible == [] {
      forall id ensures SameLedger(t, u, s, id) { LedgerReflexive(t, s, id); }
    } else {
      var e := eligible[0];
      Tail(t, eligible);
      OutsideTail(eligible);
      PlansStart(s, eligible, confirmations);
      assert plans == [plans[0]] + plans[1..] && eligible == [e] + eligible[1..];
      if plans[0].Skip? {
        PassLeaves(t, eligible[1..], confirmations, s, so.(skipped := so.skipped + [plans[0].id]));
        SkippedLeaves(t, u, confirmations, s, e);
      } else {
        var c := plans[0].command;
        AfterFirst(t, eligible, confirmations, s);
        PlanNames(confirmations, s, e);
        var (mid, r) := Write(t, c, false);
        WriteKeepsInv(t, c, false);
        PassLeaves(mid, eligible[1..], confirmations, s, Noted(so, plans[0], r.value));
        RestLeaves(t, eligible, confirmations, s, mid, u);
      }
    }
  }

  lemma SkippedLeaves(t: Tables, u: Tables, confirmations: seq<Confirmation>, s: Settings, e: CanonicalEvent)
    requires PlanOf(confirmations, s, e).Skip? && SameLedger(t, u, s, e.eventId)
    ensures Leaves(t, u, confirmations, s, e)
  {
    hide PlanOf, SameLedger;
  }

  lemma ChangedLeaves(t: Tables, mid: Tables, u: Tables, confirmations: seq<Confirmation>, s: Settings, e: CanonicalEvent, c: Command)
    requires PlanOf(confirmations, s, e).Submit? && c == PlanOf(confirmations, s, e).command && c.ReconcileEvent?
    requires Marked(t, mid, s, e, c) && SameLedger(mid, u, s, e.eventId)
    requires e.eventId in mid.events && mid.events[e.eventId] == ReconciledEvent(e, c)
    ensures Leaves(t, u, confirmations, s, e)
  {
    MarkStays(t, mid, u, s, e, c);
    hide PlanOf, SameLedger, Marked, ReconciledEvent;
  }

  lemma RestLeaves(t: Tables, eligible: seq<CanonicalEvent>, confirmations: seq<Confirmation>, s: Settings, mid: Tables, u: Tables)
    requires Inv(t) && Naming(s.texts) && eligible != [] && DistinctIds(eligible) && Current(t, eligible)
    requires PlanOf(confirmations, s, eligible[0]).Submit? && PlanOf(confirmations, s, eligible[0]).command.ReconcileEvent?
    requires var e, c := eligible[0], PlanOf(confirmations, s, eligible[0]).command;
             && mid == Write(t, c, false).0
             && e.eventId in mid.events && mid.events[e.eventId] == ReconciledEvent(e, c)
    requires forall e | e in eligible[1..] :: Leaves(mid, u, confirmations, s, e)
    requires forall id | Outside(eligible[1..], id) :: SameLedger(mid, u, s, id)
    ensures forall e | e in eligible :: Leaves(t, u, confirmations, s, e)
    ensures forall id | Outside(eligible, id) :: SameLedger(t, u, s, id)
  {
    hide Inv, Write, Naming, Names, PlanOf, DistinctIds, Current, SameLedger, Leaves, Marked, ReconciledEvent, Outside;
    var e, c := eligible[0], PlanOf(confirmations, s, eligible[0]).command;
    Tail(t, eligible);
    OutsideTail(eligible);
    assert eligible == [e] + eligible[1..];
    PlanNames(confirmations, s, e);
    forall other | other in eligible[1..] ensures Leaves(t, u, confirmations, s, other) {
      WriteKeepsLedgers(t, s, e, c, other.eventId);
      LeavesFrom(t, mid, u, confirmations, s, other);
    }
    WriteKeepsLedgers(t, s, e, c, e.eventId);
    ChangedLeaves(t, mid, u, confirmations, s, e, c);
    forall id | Outside(eligible, id) ensures SameLedger(t, u, s, id) {
      WriteKeepsLedgers(t, s, e, c, id);
      LedgerTransitive(t, mid, u, s, id);
    }
  }

  // One pass of the day: when it is run, and the confirmations there are by then.
  datatype Look = Look(now: int, confirmations: seq<Confirmation>)

  function When(s: Settings, look: Look): Settings { s.(now := look.now) }

  // The passes of a day, each over the Events read again before it.
  function Day(t: Tables, events: seq<CanonicalEvent>, s: Settings, looks: seq<Look>): (Tables, seq<Result<Outcome, PassError>>)
    decreases |looks|
  {
    if looks == [] then (t, []) else
    var (mid, r) := Pass(t, false, Reread(t, events), looks[0].confirmations, When(s, looks[0]));
    var (end, rest) := Day(mid, events, s, looks[1..]);
    (end, [r] + rest)
  }

  // Each pass is in a later second than the one before, over deduplicated confirmations.
  ghost predicate InTurn(looks: seq<Look>) {
    && (forall i | 0 <= i < |looks| :: looks[i].now >= 0 && DistinctLineage(looks[i].confirmations))
    && (forall i, j | 0 <= i < j < |looks| :: Sequence(looks[i].now) < Sequence(looks[j].now))
  }

  ghost predicate EverConfirmed(looks: seq<Look>, s: Settings, e: CanonicalEvent) {
    exists i :: 0 <= i < |looks| && HasArticle(looks[i].confirmations, s, e)
  }

  // The Events are ones the store has.
  ghost predicate Known(t: Tables, events: seq<CanonicalEvent>) {
    forall e | e in events :: e.eventId in t.events && t.events[e.eventId].eventId == e.eventId && t.events[e.eventId].identityKey == e.identityKey
  }

  ghost predicate AllOpen(t: Tables, events: seq<CanonicalEvent>, s: Settings) { forall e | e in events :: Open(t, Row(t, e), s) }

  // Where the day's passes leave an Event.
  function Verdict(row: CanonicalEvent, looks: seq<Look>, confirmed: bool): ReconciliationStatus {
    if row.reconciliation == Matched || confirmed then Matched else if looks == [] then row.reconciliation else Unmatched
  }

  lemma RereadRows(t: Tables, events: seq<CanonicalEvent>)
    requires Known(t, events)
    ensures Current(t, Reread(t, events)) && Known(t, Reread(t, events))
    ensures DistinctIds(events) ==> DistinctIds(Reread(t, events))
    ensures forall e | e in events :: Row(t, e) in Reread(t, events)
  {
    var again := Reread(t, events);
    forall e | e in events ensures Row(t, e) in again {
      var i :| 0 <= i < |events| && events[i] == e;
      assert again[i] == Row(t, e);
    }
    forall e | e in again ensures e.eventId in t.events && t.events[e.eventId] == e {
      var i :| 0 <= i < |again| && again[i] == e;
      assert events[i] in events;
    }
    if DistinctIds(events) {
      forall i, j | 0 <= i < j < |again| ensures again[i].eventId != again[j].eventId {
        assert events[i] in events && events[j] in events;
      }
    }
  }

  // Identities never change, so the Events stay known.
  lemma KnownStays(t: Tables, u: Tables, events: seq<CanonicalEvent>)
    requires Inv(t) && Inv(u) && Grows(t, u) && Known(t, events)
    ensures Known(u, events)
  {
    hide Histories, VersionsUnique, Receipts, Sequences, Outbox, RowGrows;
  }

  lemma OrderIsKnown(t: Tables, events: seq<CanonicalEvent>, s: Settings)
    requires Known(t, events)
    ensures Known(t, InIdOrder(events, s))
  {
    SortKeepsElements(Eligible(events, s), (a, b) => EventLe(s.texts, a, b));
    hide Sorting.Sort, Eligible;
    forall e | e in InIdOrder(events, s) ensures e in events {
      assert e in multiset(InIdOrder(events, s));
      EligibleAre(events, s);
    }
  }

  // One pass of the day: fully applied, and every Event is open for the next.
  lemma OnePass(t: Tables, events: seq<CanonicalEvent>, s: Settings, look: Look)
    requires Inv(t) && Naming(s.texts) && Known(t, events) && DistinctIds(InIdOrder(events, s))
    requires look.now >= 0 && DistinctLineage(look.confirmations) && AllOpen(t, InIdOrder(events, s), When(s, look))
    ensures var (u, r) := Pass(t, false, Reread(t, events), look.confirmations, When(s, look));
            && Inv(u) && Grows(t, u) && FullyApplied(r)
            && forall e | e in InIdOrder(events, s) ::
                 && Reflects(u, look.confirmations, When(s, look), Row(t, e))
                 && Leaves(t, u, look.confirmations, When(s, look), Row(t, e))
  {
    hide *;
    var s', order, again := When(s, look), InIdOrder(events, s), Reread(t, InIdOrder(events, s));
    TextsStay(s, look);
    PassAgain(t, events, s, look, false);
    ReadAgainInOrder(t, events, s, s');
    RereadRows(t, order);
    AllOpenIsAllDue(t, order, look.confirmations, s');
    CurrentPassIsApplied(t, Reread(t, events), look.confirmations, s');
    CurrentVersionsArePositive(t, again);
    PlansAreValid(again, look.confirmations, s');
    PassLeaves(t, again, look.confirmations, s', EMPTY_OUTCOME);
    PerformKeepsInv(t, false, Plans(s', again, look.confirmations), EMPTY_OUTCOME);
  }

  lemma ReadAgainInOrder(t: Tables, events: seq<CanonicalEvent>, s: Settings, later: Settings)
    requires Known(t, events) && later == s.(now := later.now)
    ensures InIdOrder(Reread(t, events), later) == Reread(t, InIdOrder(events, s))
  {
    RereadKeepsOrder(t, events, s, later);
  }

  lemma TextsStay(s: Settings, look: Look)
    ensures When(s, look) == s.(now := look.now)
  {
  }

  lemma AllOpenIsAllDue(t: Tables, order: seq<CanonicalEvent>, confirmations: seq<Confirmation>, s: Settings)
    requires AllOpen(t, order, s)
    ensures AllDue(t, Reread(t, order), confirmations, s)
  {
    hide Open, Due, Row;
    var again := Reread(t, order);
    forall e | e in again ensures Due(t, e, confirmations, s) {
      var i :| 0 <= i < |again| && again[i] == e;
      assert order[i] in order && Row(t, order[i]) == e;
      OpenIsDue(t, e, confirmations, s);
    }
  }

  // The Event after the pass, open for the next, decided as far as the pass could.
  lemma AfterOnePass(t: Tables, u: Tables, s: Settings, look: Look, next: Settings, e: CanonicalEvent)
    requires Naming(s.texts) && Known(t, [e]) && Open(t, Row(t, e), When(s, look))
    requires Reflects(u, look.confirmations, When(s, look), Row(t, e)) && Leaves(t, u, look.confirmations, When(s, look), Row(t, e))
    ensures Row(u, e).reconciliation == Verdict(Row(t, e), [look], HasArticle(look.confirmations, s, e))
    ensures next == s.(now := next.now) && Sequence(look.now) < Sequence(next.now) ==> Open(u, Row(u, e), next)
  {
    hide HasText, Sequence, Naming, Open, Leaves;
    assert e in [e];
    if next == s.(now := next.now) && Sequence(look.now) < Sequence(next.now) {
      OpenAgain(t, u, look.confirmations, When(s, look), next, Row(t, e));
    }
  }

  /** Over Events read again before each pass, every pass of a day is fully applied, and in the end an Event is matched
      exactly when it was already or an article came for it by some pass, and unmatched otherwise. */
  lemma {:induction false} EveryPassOfTheDayIsApplied(t: Tables, events: seq<CanonicalEvent>, s: Settings, looks: seq<Look>)
    requires Inv(t) && Naming(s.texts) && Known(t, events) && DistinctIds(InIdOrder(events, s)) && InTurn(looks)
    requires looks != [] ==> AllOpen(t, InIdOrder(events, s), When(s, looks[0]))
    ensures var (end, answers) := Day(t, events, s, looks);
            && Inv(end) && Grows(t, end)
            && |answers| == |looks| && (forall i | 0 <= i < |answers| :: FullyApplied(answers[i]))
            && forall e | e in InIdOrder(events, s) :: Row(end, e).reconciliation == Verdict(Row(t, e), looks, EverConfirmed(looks, s, e))
    decreases |looks|
  {
    hide InIdOrder, Inv, Grows, DistinctIds, Reflects, Naming, DistinctLineage, FullyApplied, Open, Leaves, Known, Row, Sequence, Pass, HasArticle;
    var order := InIdOrder(events, s);
    if looks == [] {
      GrowsReflexive(t);
    } else {
      var u := Pass(t, false, Reread(t, events), looks[0].confirmations, When(s, looks[0])).0;
      OnePass(t, events, s, looks[0]);
      KnownStays(t, u, events);
      OrderIsKnown(t, events, s);
      var rest := looks[1..];
      assert looks == [looks[0]] + rest;
      forall e | e in order
        ensures Row(u, e).reconciliation == Verdict(Row(t, e), [looks[0]], HasArticle(looks[0].confirmations, s, e))
        ensures rest != [] ==> Open(u, Row(u, e), When(s, rest[0]))
        ensures EverConfirmed(looks, s, e) <==> HasArticle(looks[0].confirmations, s, e) || EverConfirmed(rest, s, e)
      {
        OneKnown(t, order, e);
        AfterOnePass(t, u, s, looks[0], if rest == [] then s else When(s, rest[0]), e);
        ConfirmedFirstOrLater(looks, s, e);
      }
      EveryPassOfTheDayIsApplied(u, events, s, rest);
      GrowsTransitive(t, u, Day(t, events, s, looks).0);
    }
  }

  lemma OneKnown(t: Tables, events: seq<CanonicalEvent>, e: CanonicalEvent)
    requires Known(t, events) && e in events
    ensures Known(t, [e])
  {
  }

  lemma ConfirmedFirstOrLater(looks: seq<Look>, s: Settings, e: CanonicalEvent)
    requires looks != []
    ensures EverConfirmed(looks, s, e) <==> HasArticle(looks[0].confirmations, s, e) || EverConfirmed(looks[1..], s, e)
  {
    hide HasArticle;
    assert looks == [looks[0]] + looks[1..];
    if EverConfirmed(looks[1..], s, e) {
      var i :| 0 <= i < |looks[1..]| && HasArticle(looks[1..][i].confirmations, s, e);
      assert looks[i + 1] == looks[1..][i];
    }
    if EverConfirmed(looks, s, e) {
      var i :| 0 <= i < |looks| && HasArticle(looks[i].confirmations, s, e);
      assert i > 0 ==> looks[1..][i - 1] == looks[i];
    }
  }

  /** After such a day, a pass at any time, over articles none of which is for an Event left unmatched, writes nothing. */
  lemma SettledDayWritesNothing(t: Tables, events: seq<CanonicalEvent>, s: Settings, looks: seq<Look>, again: Look, commitFails: bool)
    requires Inv(t) && Naming(s.texts) && Known(t, events) && DistinctIds(InIdOrder(events, s)) && InTurn(looks) && looks != []
    requires AllOpen(t, InIdOrder(events, s), When(s, looks[0]))
    requires forall e | e in InIdOrder(events, s) && HasArticle(again.confirmations, s, e) :: Row(t, e).reconciliation == Matched || EverConfirmed(looks, s, e)
    ensures var end := Day(t, events, s, looks).0;
            Pass(end, commitFails, Reread(end, events), again.confirmations, When(s, again))
            == (end, Success(EMPTY_OUTCOME.(skipped := IdsWhere(Reread(end, InIdOrder(events, s)), e => true))))
  {
    hide *;
    var end, order, s' := Day(t, events, s, looks).0, InIdOrder(events, s), When(s, again);
    var rows := Reread(end, order);
    EveryPassOfTheDayIsApplied(t, events, s, looks);
    KnownStays(t, end, events);
    PassAgain(end, events, s, again, commitFails);
    EveryRowIsSettled(t, end, order, s, looks, again);
    SkippedPassWritesNothing(end, rows, again.confirmations, s', commitFails, EMPTY_OUTCOME);
    NoneSkippedBefore(IdsWhere(rows, e => true));
  }

  lemma NoneSkippedBefore(ids: seq<EventId>)
    ensures EMPTY_OUTCOME.(skipped := EMPTY_OUTCOME.skipped + ids) == EMPTY_OUTCOME.(skipped := ids)
  {
    assert [] + ids == ids;
  }

  lemma PassAgain(t: Tables, events: seq<CanonicalEvent>, s: Settings, look: Look, commitFails: bool)
    requires Known(t, events)
    ensures Known(t, InIdOrder(events, s))
    ensures Pass(t, commitFails, Reread(t, events), look.confirmations, When(s, look))
            == Perform(t, commitFails, Plans(When(s, look), Reread(t, InIdOrder(events, s)), look.confirmations), EMPTY_OUTCOME)
  {
    OrderIsKnown(t, events, s);
    RereadKeepsOrder(t, events, s, When(s, look));
  }

  lemma EveryRowIsSettled(t: Tables, end: Tables, order: seq<CanonicalEvent>, s: Settings, looks: seq<Look>, again: Look)
    requires Known(end, order) && looks != []
    requires forall e | e in order :: Row(end, e).reconciliation == Verdict(Row(t, e), looks, EverConfirmed(looks, s, e))
    requires forall e | e in order && HasArticle(again.confirmations, s, e) :: Row(t, e).reconciliation == Matched || EverConfirmed(looks, s, e)
    ensures forall row | row in Reread(end, order) :: IsSkipped(again.confirmations, When(s, again), row)
  {
    hide HasArticle, EverConfirmed;
    var rows := Reread(end, order);
    forall row | row in rows ensures IsSkipped(again.confirmations, When(s, again), row) {
      var i :| 0 <= i < |rows| && rows[i] == row;
      assert order[i] in order && row == Row(end, order[i]);
      SameArticles(again.confirmations, s, When(s, again), order[i], row);
    }
  }

  lemma SameArticles(confirmations: seq<Confirmation>, s: Settings, later: Settings, e: CanonicalEvent, row: CanonicalEvent)
    requires later.marketDate == s.marketDate && row.identityKey == e.identityKey
    ensures HasArticle(confirmations, later, row) <==> HasArticle(confirmations, s, e)
  {
  }
}
