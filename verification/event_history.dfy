/** What every sequence of writes keeps true of the Event tables. */
module EventHistory {
  import opened Results
  import opened DomainState
  import opened EventModels
  import opened EventStore
  import opened EventWriting

  // ----- One Event's own log, and the meaning of replaying it -----

  function LogOf(logs: seq<StateLog>, id: EventId): seq<StateLog> {
    if logs == [] then [] else
    var last := logs[|logs| - 1];
    LogOf(logs[..|logs| - 1], id) + (if last.eventId == id then [last] else [])
  }

  datatype AxisState = AxisState(lifecycle: LifecycleStatus, reconciliation: ReconciliationStatus, changedAt: int)

  datatype Folded = Nothing | At(state: AxisState) | Illegal

  // Replaying one entry is legal only along an edge that starts at the axis's current value.
  function Advance(f: Folded, e: StateLog): Folded {
    match f
    case Illegal => Illegal
    case Nothing =>
      if e.axis == LifecycleAxis && e.fromStatus == None && e.toStatus == LifecycleValue(Candidate)
      then At(AxisState(Candidate, Pending, e.occurredAt)) else Illegal
    case At(s) =>
      if e.occurredAt < s.changedAt then Illegal
      else if e.axis == LifecycleAxis then
        if e.fromStatus == Some(LifecycleValue(s.lifecycle)) && e.toStatus.LifecycleValue?
           && e.toStatus.lifecycle in LifecycleTargets(s.lifecycle)
        then At(s.(lifecycle := e.toStatus.lifecycle, changedAt := e.occurredAt)) else Illegal
      else
        if e.fromStatus == Some(ReconciliationValue(s.reconciliation)) && e.toStatus.ReconciliationValue?
           && e.toStatus.reconciliation in ReconciliationTargets(s.reconciliation)
        then At(s.(reconciliation := e.toStatus.reconciliation, changedAt := e.occurredAt)) else Illegal
  }

  function Fold(log: seq<StateLog>): Folded {
    if log == [] then Nothing else Advance(Fold(log[..|log| - 1]), log[|log| - 1])
  }

  ghost predicate VersionsCount(log: seq<StateLog>, id: EventId) {
    forall i | 0 <= i < |log| :: log[i].stateVersion == i + 1 && log[i].eventId == id
  }

  ghost predicate SourcesIncrease(log: seq<StateLog>) {
    forall i, j | 0 <= i < j < |log| && log[i].source == log[j].source ::
      log[i].sourceSequence < log[j].sourceSequence
  }

  function AxisOf(e: CanonicalEvent): AxisState {
    AxisState(e.lifecycle, e.reconciliation, e.changedAt)
  }

  // Only the after-close match raises the classification, and it raises it once.
  ghost predicate Promoted(e: CanonicalEvent) {
    && e.classification.classificationVersion == (if e.reconciliation == Matched then 2 else 1)
    && (e.reconciliation == Matched ==> e.classification.certainty == Confirmed && e.classification.source == Infostock)
  }

  /** The Event row is the replay of its log, and only a match raises the classification. */
  ghost predicate Explains(log: seq<StateLog>, e: CanonicalEvent) {
    && |log| == e.stateVersion
    && VersionsCount(log, e.eventId)
    && Fold(log) == At(AxisOf(e))
    && Promoted(e)
  }

  // ----- The global invariant -----

  ghost predicate Bijection(t: Tables) {
    && (forall k | k in t.identities :: t.identities[k] == DerivedId(k) && DerivedId(k) in t.events)
    && (forall id | id in t.events ::
          id.DerivedId? && id.key in t.identities && t.events[id].eventId == id && t.events[id].identityKey == id.key)
  }

  ghost predicate Histories(t: Tables) {
    && (forall i | 0 <= i < |t.stateLogs| :: t.stateLogs[i].eventId in t.events)
    && (forall id | id in t.events ::
          && t.events[id].eventId == id
          && Explains(LogOf(t.stateLogs, id), t.events[id]) && SourcesIncrease(LogOf(t.stateLogs, id)))
  }

  ghost predicate VersionsUnique(logs: seq<StateLog>) {
    forall i, j | 0 <= i < j < |logs| && logs[i].eventId == logs[j].eventId :: logs[i].stateVersion != logs[j].stateVersion
  }

  function EntryType(e: StateLog): EventType {
    if e.fromStatus == None then Created else if e.axis == LifecycleAxis then LifecycleChanged else Reconciled
  }

  function EntryMessageId(e: StateLog): OutboxId {
    OutboxId(e.commandMessageId, EntryType(e))
  }

  // The receipt of the command that wrote an entry says so.
  ghost predicate Acknowledged(receipts: map<string, Receipt>, e: StateLog) {
    e.commandMessageId in receipts &&
    var r := receipts[e.commandMessageId];
    && r.eventId == e.eventId && r.source == e.source && r.sourceSequence == e.sourceSequence
    && r.result.disposition == Applied && r.result.event.stateVersion == e.stateVersion
    && r.result.outboxMessageId == Some(EntryMessageId(e))
  }

  ghost predicate Wrote(logs: seq<StateLog>, messageId: string) {
    exists i :: 0 <= i < |logs| && logs[i].commandMessageId == messageId
  }

  ghost predicate Receipts(t: Tables) {
    && (forall i | 0 <= i < |t.stateLogs| :: Acknowledged(t.receipts, t.stateLogs[i]))
    && (forall i, j | 0 <= i < j < |t.stateLogs| :: t.stateLogs[i].commandMessageId != t.stateLogs[j].commandMessageId)
    && (forall m | m in t.receipts :: SoundReceipt(t, m))
  }

  // A receipt answers its own command about its own Event, and an applied one left an entry.
  ghost predicate SoundReceipt(t: Tables, m: string)
    requires m in t.receipts
  {
    var r := t.receipts[m];
    && r.messageId == m && r.fingerprint.command.metadata.messageId == m
    && r.result.event.eventId == r.eventId && r.eventId in t.events
    && (!r.fingerprint.command.CreateEvent? ==> r.eventId == r.fingerprint.command.eventId)
    && r.result.event.stateVersion <= t.events[r.eventId].stateVersion
    && (r.result.disposition == Applied ==> Wrote(t.stateLogs, m) && Took(r.fingerprint.command, r.result.event))
  }

  // An applied change command took its Event from exactly the version it expected.
  ghost predicate Took(c: Command, e: CanonicalEvent) {
    !c.CreateEvent? ==> e.eventId == c.eventId && e.stateVersion == c.expectedStateVersion + 1
  }

  ghost predicate Sequences(t: Tables) {
    forall m | m in t.receipts ::
      var r := t.receipts[m];
      (r.eventId, r.source) in t.sourceSequences && r.sourceSequence <= t.sourceSequences[(r.eventId, r.source)]
  }

  ghost predicate Announced(logs: seq<StateLog>, messageId: OutboxId) {
    exists i :: 0 <= i < |logs| && EntryMessageId(logs[i]) == messageId
  }

  // An entry's message is there and is about its Event.
  ghost predicate Posts(outbox: map<OutboxId, OutboxRecord>, e: StateLog) {
    EntryMessageId(e) in outbox && outbox[EntryMessageId(e)].message.aggregateId == e.eventId
  }

  ghost predicate Outbox(t: Tables) {
    && (forall i | 0 <= i < |t.stateLogs| :: Posts(t.outbox, t.stateLogs[i]))
    && (forall k | k in t.outbox :: t.outbox[k].message.messageId == k && Announced(t.stateLogs, k))
  }

  ghost predicate Inv(t: Tables) {
    Bijection(t) && Histories(t) && VersionsUnique(t.stateLogs) && Receipts(t) && Sequences(t) && Outbox(t)
  }

  lemma EmptyTablesInv()
    ensures Inv(EMPTY)
  {
  }

  // ----- Finding entries in an Event's log -----

  lemma LogOfAppend(logs: seq<StateLog>, e: StateLog, id: EventId)
    ensures LogOf(logs + [e], id) == LogOf(logs, id) + (if e.eventId == id then [e] else [])
  {
    assert (logs + [e])[..|logs|] == logs;
  }

  lemma {:induction false} LogOfContains(logs: seq<StateLog>, i: nat)
    requires i < |logs|
    ensures logs[i] in LogOf(logs, logs[i].eventId)
  {
    if i < |logs| - 1 {
      LogOfContains(logs[..|logs| - 1], i);
    }
  }

  lemma {:induction false} LogOfIsDrawnFrom(logs: seq<StateLog>, id: EventId)
    ensures forall e | e in LogOf(logs, id) :: e in logs && e.eventId == id
  {
    if logs != [] {
      LogOfIsDrawnFrom(logs[..|logs| - 1], id);
    }
  }

  lemma LoggedVersionsBounded(t: Tables, i: nat)
    requires Histories(t) && i < |t.stateLogs|
    ensures 1 <= t.stateLogs[i].stateVersion <= t.events[t.stateLogs[i].eventId].stateVersion
  {
    LogOfContains(t.stateLogs, i);
  }

  // ----- One write -----

  // The tables after an applied revision, stated without any of the store's checks.
  function Posted(t: Tables, c: Command, e: CanonicalEvent, entry: StateLog, m: OutboxMessage): Tables {
    var receipt := ReceiptFor(c, WriteResult(e, Applied, Some(m.messageId)));
    Tables(t.events[e.eventId := e],
           if c.CreateEvent? then t.identities[e.identityKey := e.eventId] else t.identities,
           t.receipts[c.metadata.messageId := receipt],
           RaisedSequence(t.sourceSequences, receipt),
           t.stateLogs + [entry],
           t.outbox[m.messageId := FreshRecord(m)])
  }

  function Acked(t: Tables, c: Command, event: CanonicalEvent, d: Disposition): Tables {
    var receipt := ReceiptFor(c, WriteResult(event, d, None));
    t.(receipts := t.receipts[c.metadata.messageId := receipt], sourceSequences := RaisedSequence(t.sourceSequences, receipt))
  }

  // How a revision is keyed: its log entry, its message and its command all name each other.
  ghost predicate Keyed(t: Tables, c: Command, e: CanonicalEvent, entry: StateLog, m: OutboxMessage) {
    && c.metadata.messageId !in t.receipts
    && entry.eventId == e.eventId && entry.stateVersion == e.stateVersion
    && entry.commandMessageId == c.metadata.messageId
    && entry.source == c.metadata.source && entry.sourceSequence == c.metadata.sourceSequence
    && m.messageId == EntryMessageId(entry) && m.aggregateId == e.eventId
    && e.eventId == DerivedId(e.identityKey)
    && (if c.CreateEvent? then e.eventId !in t.events && e.identityKey !in t.identities
        else e.eventId in t.events && e.stateVersion == t.events[e.eventId].stateVersion + 1
             && e.identityKey == t.events[e.eventId].identityKey
             && e.eventId == c.eventId && e.stateVersion == c.expectedStateVersion + 1)
  }

  // How a revision moves the Event: one legal edge, in time order and in its source's order.
  ghost predicate Moves(t: Tables, e: CanonicalEvent, entry: StateLog) {
    && Advance(if e.eventId in t.events then At(AxisOf(t.events[e.eventId])) else Nothing, entry) == At(AxisOf(e))
    && (if e.eventId in t.events
        then var b := t.events[e.eventId];
             && e.stateVersion == b.stateVersion + 1
             && (Promoted(b) ==> Promoted(e))
             && ((e.eventId, entry.source) in t.sourceSequences ==>
                   t.sourceSequences[(e.eventId, entry.source)] < entry.sourceSequence)
        else e.stateVersion == 1 && Promoted(e))
  }

  lemma CreationIsKeyed(t: Tables, c: Command)
    requires Bijection(t) && c.CreateEvent? && c.metadata.messageId !in t.receipts && DecideFresh(t, c).Revised?
    ensures var Revised(e, entry, m) := DecideFresh(t, c); Keyed(t, c, e, entry, m) && Moves(t, e, entry)
  {
  }

  lemma TransitionIsKeyed(t: Tables, c: Command)
    requires Bijection(t) && c.TransitionLifecycle? && c.metadata.messageId !in t.receipts && DecideFresh(t, c).Revised?
    ensures var Revised(e, entry, m) := DecideFresh(t, c); Keyed(t, c, e, entry, m) && Moves(t, e, entry)
  {
  }

  lemma ReconciliationIsKeyed(t: Tables, c: Command)
    requires Bijection(t) && c.ReconcileEvent? && c.metadata.messageId !in t.receipts && DecideFresh(t, c).Revised?
    ensures var Revised(e, entry, m) := DecideFresh(t, c); Keyed(t, c, e, entry, m) && Moves(t, e, entry)
  {
  }

  /** Whatever a command decides to write, its pieces name each other and move the Event along one legal edge. */
  lemma RevisionIsKeyed(t: Tables, c: Command)
    requires Bijection(t) && Decide(t, c).Revised?
    ensures var Revised(e, entry, m) := Decide(t, c); Keyed(t, c, e, entry, m) && Moves(t, e, entry)
  {
    hide Bijection, DecideFresh, Keyed, Moves;
    match c
    case CreateEvent(_, _, _, _, _, _, _) => CreationIsKeyed(t, c);
    case TransitionLifecycle(_, _, _, _, _, _) => TransitionIsKeyed(t, c);
    case ReconcileEvent(_, _, _, _, _, _) => ReconciliationIsKeyed(t, c);
  }

  lemma RowIsAccepted(t: Tables, c: Command, e: CanonicalEvent, entry: StateLog, m: OutboxMessage)
    requires Keyed(t, c, e, entry, m)
    ensures (if c.CreateEvent? then InsertEvent(t, e) else UpdateEvent(t, e, e.stateVersion - 1))
            == Success(t.(events := t.events[e.eventId := e],
                          identities := if c.CreateEvent? then t.identities[e.identityKey := e.eventId] else t.identities))
  {
  }

  lemma EntryIsAccepted(t: Tables, t1: Tables, c: Command, e: CanonicalEvent, entry: StateLog, m: OutboxMessage)
    requires Histories(t) && Keyed(t, c, e, entry, m) && t1.stateLogs == t.stateLogs
    ensures AppendStateLog(t1, entry) == Success(t1.(stateLogs := t.stateLogs + [entry]))
  {
    forall i | 0 <= i < |t.stateLogs|
      ensures !(t.stateLogs[i].eventId == entry.eventId && t.stateLogs[i].stateVersion == entry.stateVersion)
    {
      LoggedVersionsBounded(t, i);
    }
  }

  /** Under the invariant none of the store's own refusals can happen. */
  lemma RevisionIsNeverRefused(t: Tables, c: Command, e: CanonicalEvent, entry: StateLog, m: OutboxMessage)
    requires Histories(t) && Receipts(t) && Outbox(t) && Keyed(t, c, e, entry, m)
    ensures CarryOut(t, c, Revised(e, entry, m)).Success?
    ensures var (t3, r) := CarryOut(t, c, Revised(e, entry, m)).value;
            SaveReceipt(t3, ReceiptFor(c, r)) == Success(Posted(t, c, e, entry, m))
            && r == WriteResult(e, Applied, Some(m.messageId))
  {
    hide *;
    var t1 := t.(events := t.events[e.eventId := e],
                 identities := if c.CreateEvent? then t.identities[e.identityKey := e.eventId] else t.identities);
    var t2 := t1.(stateLogs := t.stateLogs + [entry]);
    var t3 := t2.(outbox := t.outbox[m.messageId := FreshRecord(m)]);
    RowIsAccepted(t, c, e, entry, m);
    EntryIsAccepted(t, t1, c, e, entry, m);
    MessageIsAccepted(t, t2, c, e, entry, m);
    CarriedOut(t, t1, t2, t3, c, e, entry, m);
    ReceiptIsAccepted(t, t3, c, e, entry, m);
  }

  lemma MessageIsAccepted(t: Tables, t2: Tables, c: Command, e: CanonicalEvent, entry: StateLog, m: OutboxMessage)
    requires Receipts(t) && Outbox(t) && Keyed(t, c, e, entry, m) && t2.outbox == t.outbox
    ensures EnqueueOutbox(t2, m) == Success(t2.(outbox := t.outbox[m.messageId := FreshRecord(m)]))
  {
    FreshMessageId(t, entry);
    hide Receipts, Outbox, FreshRecord;
  }

  lemma CarriedOut(t: Tables, t1: Tables, t2: Tables, t3: Tables, c: Command, e: CanonicalEvent, entry: StateLog, m: OutboxMessage)
    requires (if c.CreateEvent? then InsertEvent(t, e) else UpdateEvent(t, e, e.stateVersion - 1)) == Success(t1)
    requires AppendStateLog(t1, entry) == Success(t2) && EnqueueOutbox(t2, m) == Success(t3)
    ensures CarryOut(t, c, Revised(e, entry, m)) == Success((t3, WriteResult(e, Applied, Some(m.messageId))))
  {
    hide InsertEvent, UpdateEvent, AppendStateLog, EnqueueOutbox;
  }

  lemma ReceiptIsAccepted(t: Tables, t3: Tables, c: Command, e: CanonicalEvent, entry: StateLog, m: OutboxMessage)
    requires Keyed(t, c, e, entry, m)
    requires t3 == Tables(t.events[e.eventId := e], if c.CreateEvent? then t.identities[e.identityKey := e.eventId] else t.identities,
                          t.receipts, t.sourceSequences, t.stateLogs + [entry], t.outbox[m.messageId := FreshRecord(m)])
    ensures SaveReceipt(t3, ReceiptFor(c, WriteResult(e, Applied, Some(m.messageId)))) == Success(Posted(t, c, e, entry, m))
  {
    hide RaisedSequence, FreshRecord;
  }

  lemma FreshMessageId(t: Tables, entry: StateLog)
    requires Receipts(t) && Outbox(t) && entry.commandMessageId !in t.receipts
    ensures EntryMessageId(entry) !in t.outbox
  {
    forall i | 0 <= i < |t.stateLogs| ensures EntryMessageId(t.stateLogs[i]) != EntryMessageId(entry) {
      assert Acknowledged(t.receipts, t.stateLogs[i]);
    }
  }

  /** Every write is one of four things, none of which involves a refusal by the store. */
  lemma WriteIs(t: Tables, c: Command, commitFails: bool)
    requires Inv(t)
    ensures var d := Decide(t, c);
            Write(t, c, commitFails) ==
              match d
              case Rejected(error) => (t, Failure(error))
              case Replayed(r) => if commitFails then (t, Failure(CommitFailed)) else (t, Success(r))
              case Settled(event, disposition) =>
                if commitFails then (t, Failure(CommitFailed))
                else (Acked(t, c, event, disposition), Success(WriteResult(event, disposition, None)))
              case Revised(e, entry, m) =>
                if commitFails then (t, Failure(CommitFailed))
                else (Posted(t, c, e, entry, m), Success(WriteResult(e, Applied, Some(m.messageId))))
  {
    hide Histories, VersionsUnique, Receipts, Sequences, Outbox, Keyed, Posted, DecideFresh, RaisedSequence;
    var d := Decide(t, c);
    if d.Revised? {
      RevisionIsKeyed(t, c);
      RevisionIsNeverRefused(t, c, d.revision, d.entry, d.message);
      hide CarryOut;
    } else if d.Settled? {
      SettledEventIsStored(t, c);
    }
  }

  /** The store's defensive errors are unreachable: a write raises only for its command's own faults. */
  lemma StoreNeverRefuses(t: Tables, c: Command, commitFails: bool)
    requires Inv(t)
    ensures var r := Write(t, c, commitFails).1; r.Failure? ==> !r.error.StoreRefused?
  {
    WriteIs(t, c, commitFails);
    RejectionIsTheCommandsFault(t, c);
  }

  lemma RejectionIsTheCommandsFault(t: Tables, c: Command)
    ensures Decide(t, c).Rejected? ==>
              Decide(t, c).error in {EventNotFound, MessageIdReused, ExpectedVersionAhead, InvalidStateTransition}
  {
  }

  lemma {:induction false} RaisedSequenceBounds(t: Tables, r: Receipt)
    ensures var s := RaisedSequence(t.sourceSequences, r);
            && (forall k | k in t.sourceSequences :: k in s && t.sourceSequences[k] <= s[k])
            && (r.eventId, r.source) in s && r.sourceSequence <= s[(r.eventId, r.source)]
  {
  }

  lemma AckKeepsReceipts(t: Tables, c: Command, event: CanonicalEvent, d: Disposition)
    requires Receipts(t) && c.metadata.messageId !in t.receipts
    requires event.eventId in t.events && event == t.events[event.eventId] && d != Applied
    requires !c.CreateEvent? ==> event.eventId == c.eventId
    ensures Receipts(Acked(t, c, event, d))
  {
    hide Took, Wrote, RaisedSequence;
    var t' := Acked(t, c, event, d);
    forall i | 0 <= i < |t'.stateLogs| ensures Acknowledged(t'.receipts, t'.stateLogs[i]) {
      assert Acknowledged(t.receipts, t.stateLogs[i]);
    }
    hide Acknowledged;
    forall m | m in t'.receipts ensures SoundReceipt(t', m) {
      if m != c.metadata.messageId { assert SoundReceipt(t, m); }
    }
  }

  lemma AckKeepsInv(t: Tables, c: Command, event: CanonicalEvent, d: Disposition)
    requires Inv(t) && c.metadata.messageId !in t.receipts
    requires event.eventId in t.events && event == t.events[event.eventId] && d != Applied
    requires !c.CreateEvent? ==> event.eventId == c.eventId
    ensures Inv(Acked(t, c, event, d))
  {
    hide Explains, SourcesIncrease, LogOf, Acknowledged, Wrote, Announced, Took, Receipts, Posts, Sequences, RaisedSequence, VersionsUnique;
    AckKeepsReceipts(t, c, event, d);
    AckKeepsSequences(t, c, event, d);
  }

  lemma AckKeepsSequences(t: Tables, c: Command, event: CanonicalEvent, d: Disposition)
    requires Sequences(t)
    ensures Sequences(Acked(t, c, event, d))
  {
    RaisedSequenceBounds(t, ReceiptFor(c, WriteResult(event, d, None)));
    hide RaisedSequence;
  }

  lemma RevisionKeepsHistories(t: Tables, c: Command, e: CanonicalEvent, entry: StateLog, m: OutboxMessage)
    requires Histories(t) && Receipts(t) && Sequences(t) && Keyed(t, c, e, entry, m) && Moves(t, e, entry)
    ensures Histories(Posted(t, c, e, entry, m))
  {
    hide Explains, SourcesIncrease, LogOf, Receipts, Sequences, RaisedSequence, FreshRecord, ReceiptFor, Moves;
    var t' := Posted(t, c, e, entry, m);
    forall id | id in t'.events
      ensures t'.events[id].eventId == id
      ensures Explains(LogOf(t'.stateLogs, id), t'.events[id]) && SourcesIncrease(LogOf(t'.stateLogs, id))
    {
      RevisedLog(t, e, entry, id);
    }
  }

  lemma RevisionKeepsVersionsUnique(t: Tables, c: Command, e: CanonicalEvent, entry: StateLog, m: OutboxMessage)
    requires Histories(t) && VersionsUnique(t.stateLogs) && Keyed(t, c, e, entry, m)
    ensures VersionsUnique(t.stateLogs + [entry])
  {
    forall i | 0 <= i < |t.stateLogs|
      ensures t.stateLogs[i].eventId == entry.eventId ==> t.stateLogs[i].stateVersion != entry.stateVersion
    {
      LoggedVersionsBounded(t, i);
    }
  }

  lemma RevisedLog(t: Tables, e: CanonicalEvent, entry: StateLog, id: EventId)
    requires Histories(t) && Receipts(t) && Sequences(t) && Moves(t, e, entry)
    requires entry.eventId == e.eventId && entry.stateVersion == e.stateVersion
    requires id == e.eventId || id in t.events
    ensures Explains(LogOf(t.stateLogs + [entry], id), if id == e.eventId then e else t.events[id])
    ensures SourcesIncrease(LogOf(t.stateLogs + [entry], id))
  {
    LogOfAppend(t.stateLogs, entry, id);
    if id == e.eventId {
      RevisionExplained(t, e, entry);
      RevisionOrdered(t, e, entry);
    } else {
      assert LogOf(t.stateLogs + [entry], id) == LogOf(t.stateLogs, id);
    }
  }

  lemma RevisionExplained(t: Tables, e: CanonicalEvent, entry: StateLog)
    requires Histories(t) && Moves(t, e, entry)
    requires entry.eventId == e.eventId && entry.stateVersion == e.stateVersion
    ensures Explains(LogOf(t.stateLogs, e.eventId) + [entry], e)
  {
    var log := LogOf(t.stateLogs, e.eventId);
    assert (log + [entry])[..|log|] == log;
    if e.eventId in t.events {
      assert Explains(log, t.events[e.eventId]);
    } else {
      NoEntries(t.stateLogs, e.eventId);
    }
  }

  lemma {:induction false} NoEntries(logs: seq<StateLog>, id: EventId)
    requires forall i | 0 <= i < |logs| :: logs[i].eventId != id
    ensures LogOf(logs, id) == []
  {
    if logs != [] {
      NoEntries(logs[..|logs| - 1], id);
    }
  }

  lemma RevisionOrdered(t: Tables, e: CanonicalEvent, entry: StateLog)
    requires Histories(t) && Receipts(t) && Sequences(t) && Moves(t, e, entry)
    ensures SourcesIncrease(LogOf(t.stateLogs, e.eventId) + [entry])
  {
    var log := LogOf(t.stateLogs, e.eventId);
    hide Advance, Fold, Explains, Promoted, LogOf, SoundReceipt;
    if e.eventId in t.events {
      LogOfIsDrawnFrom(t.stateLogs, e.eventId);
      forall i | 0 <= i < |log| && log[i].source == entry.source
        ensures log[i].sourceSequence < entry.sourceSequence
      {
        assert log[i] in t.stateLogs && Acknowledged(t.receipts, log[i]);
        assert log[i].commandMessageId in t.receipts;
      }
    } else {
      NoEntries(t.stateLogs, e.eventId);
    }
  }

  lemma WroteStays(logs: seq<StateLog>, entry: StateLog, messageId: string)
    requires Wrote(logs, messageId)
    ensures Wrote(logs + [entry], messageId)
  {
    var i :| 0 <= i < |logs| && logs[i].commandMessageId == messageId;
    assert (logs + [entry])[i].commandMessageId == messageId;
  }

  lemma ReceiptStays(t: Tables, c: Command, e: CanonicalEvent, entry: StateLog, m: OutboxMessage, k: string)
    requires Keyed(t, c, e, entry, m) && k in t.receipts && SoundReceipt(t, k)
    ensures k in Posted(t, c, e, entry, m).receipts && SoundReceipt(Posted(t, c, e, entry, m), k)
  {
    if t.receipts[k].result.disposition == Applied { WroteStays(t.stateLogs, entry, k); }
    hide Wrote, Took, RaisedSequence, FreshRecord;
  }

  lemma NewReceipt(t: Tables, c: Command, e: CanonicalEvent, entry: StateLog, m: OutboxMessage)
    requires Keyed(t, c, e, entry, m)
    ensures var t' := Posted(t, c, e, entry, m);
            && SoundReceipt(t', c.metadata.messageId) && Acknowledged(t'.receipts, entry)
            && forall l | l in t.receipts :: l in t'.receipts && t'.receipts[l] == t.receipts[l]
  {
    hide RaisedSequence, FreshRecord;
    var t' := Posted(t, c, e, entry, m);
    assert t'.stateLogs[|t.stateLogs|].commandMessageId == c.metadata.messageId;
  }

  lemma AcknowledgedStays(a: map<string, Receipt>, b: map<string, Receipt>, e: StateLog)
    requires Acknowledged(a, e) && forall l | l in a :: l in b && b[l] == a[l]
    ensures Acknowledged(b, e)
  {
  }

  lemma RevisionKeepsReceipts(t: Tables, c: Command, e: CanonicalEvent, entry: StateLog, m: OutboxMessage)
    requires Receipts(t) && Keyed(t, c, e, entry, m)
    ensures Receipts(Posted(t, c, e, entry, m))
  {
    hide RaisedSequence, FreshRecord, SoundReceipt, Acknowledged;
    var t', n := Posted(t, c, e, entry, m), |t.stateLogs|;
    NewReceipt(t, c, e, entry, m);
    forall k | k in t'.receipts ensures SoundReceipt(t', k) {
      if k != c.metadata.messageId { ReceiptStays(t, c, e, entry, m, k); }
    }
    forall i | 0 <= i < n ensures Acknowledged(t'.receipts, t.stateLogs[i]) && t.stateLogs[i].commandMessageId != entry.commandMessageId {
      AcknowledgedStays(t.receipts, t'.receipts, t.stateLogs[i]);
      AcknowledgedIsKnown(t.receipts, t.stateLogs[i]);
    }
    hide Posted, Keyed;
    PostedParts(t, c, e, entry, m);
  }

  lemma AcknowledgedIsKnown(receipts: map<string, Receipt>, e: StateLog)
    requires Acknowledged(receipts, e)
    ensures e.commandMessageId in receipts
  {
  }

  lemma PostedParts(t: Tables, c: Command, e: CanonicalEvent, entry: StateLog, m: OutboxMessage)
    ensures Posted(t, c, e, entry, m).stateLogs == t.stateLogs + [entry]
    ensures Posted(t, c, e, entry, m).outbox == t.outbox[m.messageId := FreshRecord(m)]
  {
  }

  lemma RevisionKeepsOutbox(t: Tables, c: Command, e: CanonicalEvent, entry: StateLog, m: OutboxMessage)
    requires Receipts(t) && Outbox(t) && Keyed(t, c, e, entry, m)
    ensures Outbox(Posted(t, c, e, entry, m))
  {
    hide RaisedSequence, Receipts, EntryMessageId;
    FreshMessageId(t, entry);
    PostedParts(t, c, e, entry, m);
    var t', n := Posted(t, c, e, entry, m), |t.stateLogs|;
    hide Posted;
    forall i | 0 <= i < n + 1 ensures Posts(t'.outbox, t'.stateLogs[i]) {
      if i < n { assert Posts(t.outbox, t.stateLogs[i]) && t'.stateLogs[i] == t.stateLogs[i]; }
    }
    assert t'.stateLogs[n] == entry;
    forall k | k in t'.outbox ensures t'.outbox[k].message.messageId == k && Announced(t'.stateLogs, k) {
      if k != m.messageId {
        assert Announced(t.stateLogs, k);
        var i :| 0 <= i < n && EntryMessageId(t.stateLogs[i]) == k;
        assert t'.stateLogs[i] == t.stateLogs[i];
      }
    }
  }

  lemma RevisionKeepsBijection(t: Tables, c: Command, e: CanonicalEvent, entry: StateLog, m: OutboxMessage)
    requires Bijection(t) && Keyed(t, c, e, entry, m)
    ensures Bijection(Posted(t, c, e, entry, m))
  {
  }

  lemma RevisionKeepsSequences(t: Tables, c: Command, e: CanonicalEvent, entry: StateLog, m: OutboxMessage)
    requires Sequences(t) && Keyed(t, c, e, entry, m)
    ensures Sequences(Posted(t, c, e, entry, m))
  {
    RaisedSequenceBounds(t, ReceiptFor(c, WriteResult(e, Applied, Some(m.messageId))));
  }

  lemma RevisionKeepsInv(t: Tables, c: Command, e: CanonicalEvent, entry: StateLog, m: OutboxMessage)
    requires Inv(t) && Keyed(t, c, e, entry, m) && Moves(t, e, entry)
    ensures Inv(Posted(t, c, e, entry, m))
  {
    var t' := Posted(t, c, e, entry, m);
    assert Bijection(t') by { RevisionKeepsBijection(t, c, e, entry, m); }
    assert Histories(t') by { RevisionKeepsHistories(t, c, e, entry, m); }
    assert VersionsUnique(t'.stateLogs) by { RevisionKeepsVersionsUnique(t, c, e, entry, m); }
    assert Receipts(t') by { RevisionKeepsReceipts(t, c, e, entry, m); }
    assert Sequences(t') by { RevisionKeepsSequences(t, c, e, entry, m); }
    assert Outbox(t') by { RevisionKeepsOutbox(t, c, e, entry, m); }
  }

  lemma SettledEventIsStored(t: Tables, c: Command)
    requires Bijection(t) && Decide(t, c).Settled?
    ensures var Settled(event, d) := Decide(t, c);
            && c.metadata.messageId !in t.receipts && event.eventId in t.events && event == t.events[event.eventId] && d != Applied
            && (!c.CreateEvent? ==> event.eventId == c.eventId)
  {
  }

  /** Event sourcing holds after any write, including one that raises or whose commit fails. */
  lemma WriteKeepsInv(t: Tables, c: Command, commitFails: bool)
    requires Inv(t)
    ensures Inv(Write(t, c, commitFails).0)
  {
    WriteIs(t, c, commitFails);
    var d := Decide(t, c);
    if d.Revised? {
      RevisionIsKeyed(t, c);
      RevisionKeepsInv(t, c, d.revision, d.entry, d.message);
    } else if d.Settled? {
      SettledEventIsStored(t, c);
      AckKeepsInv(t, c, d.event, d.disposition);
    }
  }
}
