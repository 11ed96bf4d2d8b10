/** packages/events/writer.py: the only component that creates or changes canonical Events. */
module EventWriting {
  import opened Results
  import opened DomainState
  import opened EventModels
  import opened EventStore

  // What one command amounts to against the current tables, before anything is written.
  datatype Decision =
    | Replayed(result: WriteResult)
    | Settled(event: CanonicalEvent, disposition: Disposition)
    | Revised(revision: CanonicalEvent, entry: StateLog, message: OutboxMessage)
    | Rejected(error: EventError)

  // The guards that both state-changing commands pass before their axis is looked at.
  datatype Gate = Open | Stop(disposition: Disposition) | Refuse(error: EventError)

  function PassGate(t: Tables, event: CanonicalEvent, m: Metadata, expected: int, inTarget: bool): Gate {
    var key := (event.eventId, m.source);
    if key in t.sourceSequences && m.sourceSequence <= t.sourceSequences[key] then Stop(StaleSourceSequence)
    else if expected < event.stateVersion then Stop(StaleStateVersion)
    else if expected > event.stateVersion then Refuse(ExpectedVersionAhead)
    else if m.occurredAt < event.changedAt then Stop(StaleOccurredAt)
    else if inTarget then Stop(AlreadyInState)
    else Open
  }

  function CreatedEvent(c: Command): CanonicalEvent
    requires c.CreateEvent?
  {
    var m := c.metadata;
    CanonicalEvent(
      DerivedId(c.identity), c.identity, Candidate, Pending, 1, c.versions.rankingModelVersion,
      Classification(1, c.identity.canonicalThemeId, c.displayName, c.kind, c.certainty, c.classificationSource, m.occurredAt),
      m.occurredAt, m.occurredAt, m.source, m.sourceSequence, m.receivedAt, m.lineage, c.versions)
  }

  // The fields every revision of an existing Event takes from its command.
  function Stamped(event: CanonicalEvent, c: Command): CanonicalEvent
    requires !c.CreateEvent?
  {
    var m := c.metadata;
    event.(stateVersion := event.stateVersion + 1, statePolicyVersion := c.policyVersion, changedAt := m.occurredAt,
           lastSource := m.source, lastSourceSequence := m.sourceSequence, lastReceivedAt := m.receivedAt,
           lineage := m.lineage)
  }

  function TransitionedEvent(event: CanonicalEvent, c: Command): CanonicalEvent
    requires c.TransitionLifecycle?
  {
    Stamped(event, c).(lifecycle := c.lifecycleTarget)
  }

  function ReconciledEvent(event: CanonicalEvent, c: Command): CanonicalEvent
    requires c.ReconcileEvent?
  {
    var k := event.classification;
    var promoted := if c.reconciliationTarget == Matched
                    then k.(classificationVersion := k.classificationVersion + 1, certainty := Confirmed,
                            source := Infostock, changedAt := c.metadata.occurredAt)
                    else k;
    Stamped(event, c).(reconciliation := c.reconciliationTarget, classification := promoted)
  }

  function LogEntry(event: CanonicalEvent, c: Command, from: Option<Status>, to: Status, axis: StateAxis, reason: string): StateLog {
    var m := c.metadata;
    StateLog(event.eventId, event.stateVersion, from, to, event.statePolicyVersion, reason, m.occurredAt, m.receivedAt,
             m.source, m.sourceSequence, m.messageId, m.lineage, axis)
  }

  function Message(event: CanonicalEvent, c: Command, eventType: EventType, payload: Payload): OutboxMessage {
    var m := c.metadata;
    OutboxMessage(OutboxId(m.messageId, eventType), eventType, event.eventId, m.occurredAt, m.receivedAt,
                  m.correlationId, m.causationId, payload)
  }

  const FIRST_DETECTION: string := "최초 후보 탐지"

  function CreationMessage(e: CanonicalEvent, c: Command): OutboxMessage {
    Message(e, c, Created,
            CreatedPayload(e.eventId, e.lifecycle, e.stateVersion, e.classification.classificationVersion, e.versions))
  }

  function TransitionMessage(before: CanonicalEvent, e: CanonicalEvent, c: Command): OutboxMessage
    requires c.TransitionLifecycle?
  {
    Message(e, c, LifecycleChanged,
            LifecyclePayload(e.eventId, before.lifecycle, e.lifecycle, e.stateVersion, c.policyVersion, c.reason))
  }

  function ReconciliationMessage(before: CanonicalEvent, e: CanonicalEvent, c: Command): OutboxMessage
    requires c.ReconcileEvent?
  {
    Message(e, c, Reconciled,
            ReconciledPayload(e.eventId, before.reconciliation, e.reconciliation, e.stateVersion,
                              e.classification.classificationVersion, c.policyVersion, c.reason))
  }

  function DecideFresh(t: Tables, c: Command): Decision {
    match c
    case CreateEvent(m, identity, _, _, _, _, _) =>
      if identity in t.identities && t.identities[identity] in t.events then
        Settled(t.events[t.identities[identity]], DuplicateIdentity)
      else
        var e := CreatedEvent(c);
        Revised(e, LogEntry(e, c, None, LifecycleValue(Candidate), LifecycleAxis, FIRST_DETECTION), CreationMessage(e, c))
    case TransitionLifecycle(m, id, target, expected, reason, _) =>
      if id !in t.events then Rejected(EventNotFound) else
      var before := t.events[id];
      (match PassGate(t, before, m, expected, target == before.lifecycle)
       case Stop(d) => Settled(before, d)
       case Refuse(error) => Rejected(error)
       case Open =>
         if target !in LifecycleTargets(before.lifecycle) then Rejected(InvalidStateTransition) else
         var e := TransitionedEvent(before, c);
         Revised(e, LogEntry(e, c, Some(LifecycleValue(before.lifecycle)), LifecycleValue(target), LifecycleAxis, reason),
                 TransitionMessage(before, e, c)))
    case ReconcileEvent(m, id, target, expected, reason, _) =>
      if id !in t.events then Rejected(EventNotFound) else
      var before := t.events[id];
      match PassGate(t, before, m, expected, target == before.reconciliation)
      case Stop(d) => Settled(before, d)
      case Refuse(error) => Rejected(error)
      case Open =>
        if target !in ReconciliationTargets(before.reconciliation) then Rejected(InvalidStateTransition) else
        var e := ReconciledEvent(before, c);
        Revised(e, LogEntry(e, c, Some(ReconciliationValue(before.reconciliation)), ReconciliationValue(target),
                            ReconciliationAxis, reason),
                ReconciliationMessage(before, e, c))
  }

  function Decide(t: Tables, c: Command): Decision {
    var id := c.metadata.messageId;
    if id in t.receipts then
      if t.receipts[id].fingerprint != Sha256(c) then Rejected(MessageIdReused) else Replayed(t.receipts[id].result)
    else DecideFresh(t, c)
  }

  function ReceiptFor(c: Command, r: WriteResult): Receipt {
    var m := c.metadata;
    Receipt(m.messageId, Sha256(c), r.event.eventId, m.source, m.sourceSequence, m.receivedAt, r)
  }

  // The decision carried out through the store's own checked operations, in the source's order.
  function CarryOut(t: Tables, c: Command, d: Decision): Result<(Tables, WriteResult), EventError> {
    match d
    case Rejected(error) => Failure(error)
    case Replayed(r) => Success((t, r))
    case Settled(event, disposition) => Success((t, WriteResult(event, disposition, None)))
    case Revised(e, entry, message) =>
      var t1 :- if c.CreateEvent? then InsertEvent(t, e) else UpdateEvent(t, e, e.stateVersion - 1);
      var t2 :- AppendStateLog(t1, entry);
      var t3 :- EnqueueOutbox(t2, message);
      Success((t3, WriteResult(e, Applied, Some(message.messageId))))
  }

  function WriteBody(t: Tables, c: Command): Result<(Tables, WriteResult), EventError> {
    var d := Decide(t, c);
    var (t1, r) :- CarryOut(t, c, d);
    if d.Replayed? then Success((t1, r)) else
    var t2 :- SaveReceipt(t1, ReceiptFor(c, r));
    Success((t2, r))
  }

  /** One transaction: all of the body's effects, or none when it raises or its commit fails. */
  function Write(t: Tables, c: Command, commitFails: bool): (Tables, Result<WriteResult, EventError>) {
    match WriteBody(t, c)
    case Failure(error) => (t, Failure(error))
    case Success((t', r)) => if commitFails then (t, Failure(CommitFailed)) else (t', Success(r))
  }

  class EventWriter {
    const store: InMemoryEventStore

    constructor (store: InMemoryEventStore)
      ensures this.store == store
    {
      this.store := store;
    }

    method Submit(c: Command) returns (r: Result<WriteResult, EventError>)
      modifies store
      ensures (store.State(), r) == Write(old(store.State()), c, old(store.failNextCommit))
      ensures store.failNextCommit == (old(store.failNextCommit) && WriteBody(old(store.State()), c).Failure?)
    {
      var backup := store.State();
      r := SubmitInTransaction(c);
      if r.Success? && store.failNextCommit {
        store.failNextCommit := false;
        r := Failure(CommitFailed);
      }
      if r.Failure? {
        store.Restore(backup);
      }
    }

    method SubmitInTransaction(c: Command) returns (r: Result<WriteResult, EventError>)
      modifies store
      ensures store.failNextCommit == old(store.failNextCommit)
      ensures match WriteBody(old(store.State()), c)
              case Success((t, w)) => r == Success(w) && store.State() == t
              case Failure(e) => r == Failure(e)
    {
      var id := c.metadata.messageId;
      if id in store.receipts {
        if store.receipts[id].fingerprint != Sha256(c) { return Failure(MessageIdReused); }
        return Success(store.receipts[id].result);
      }
      var w: WriteResult;
      if c.CreateEvent? {
        w :- Create(c);
      } else {
        w :- Revise(c);
      }
      var _ :- store.Save(ReceiptFor(c, w));
      return Success(w);
    }

    method Create(c: Command) returns (r: Result<WriteResult, EventError>)
      requires c.CreateEvent?
      modifies store
      ensures store.failNextCommit == old(store.failNextCommit)
      ensures match CarryOut(old(store.State()), c, DecideFresh(old(store.State()), c))
              case Success((t, w)) => r == Success(w) && store.State() == t
              case Failure(e) => r == Failure(e)
    {
      if c.identity in store.identities && store.identities[c.identity] in store.events {
        return Success(WriteResult(store.events[store.identities[c.identity]], DuplicateIdentity, None));
      }
      var e := CreatedEvent(c);
      var _ :- store.Insert(e);
      var _ :- store.Append(LogEntry(e, c, None, LifecycleValue(Candidate), LifecycleAxis, FIRST_DETECTION));
      var message := CreationMessage(e, c);
      var _ :- store.Enqueue(message);
      return Success(WriteResult(e, Applied, Some(message.messageId)));
    }

    // `_transition` and `_reconcile`: the same guards, then the axis the command names.
    method Revise(c: Command) returns (r: Result<WriteResult, EventError>)
      requires !c.CreateEvent?
      modifies store
      ensures store.failNextCommit == old(store.failNextCommit)
      ensures match CarryOut(old(store.State()), c, DecideFresh(old(store.State()), c))
              case Success((t, w)) => r == Success(w) && store.State() == t
              case Failure(e) => r == Failure(e)
    {
      if c.eventId !in store.events { return Failure(EventNotFound); }
      var before := store.events[c.eventId];
      var inTarget := if c.TransitionLifecycle? then c.lifecycleTarget == before.lifecycle
                      else c.reconciliationTarget == before.reconciliation;
      match PassGate(store.State(), before, c.metadata, c.expectedStateVersion, inTarget) {
        case Stop(d) => return Success(WriteResult(before, d, None));
        case Refuse(error) => return Failure(error);
        case Open =>
      }
      var e, entry, message;
      if c.TransitionLifecycle? {
        if c.lifecycleTarget !in LifecycleTargets(before.lifecycle) { return Failure(InvalidStateTransition); }
        e := TransitionedEvent(before, c);
        entry := LogEntry(e, c, Some(LifecycleValue(before.lifecycle)), LifecycleValue(e.lifecycle), LifecycleAxis, c.reason);
        message := TransitionMessage(before, e, c);
      } else {
        if c.reconciliationTarget !in ReconciliationTargets(before.reconciliation) { return Failure(InvalidStateTransition); }
        e := ReconciledEvent(before, c);
        entry := LogEntry(e, c, Some(ReconciliationValue(before.reconciliation)), ReconciliationValue(e.reconciliation),
                          ReconciliationAxis, c.reason);
        message := ReconciliationMessage(before, e, c);
      }
      var _ :- store.Update(e, before.stateVersion);
      var _ :- store.Append(entry);
      var _ :- store.Enqueue(message);
      return Success(WriteResult(e, Applied, Some(message.messageId)));
    }
  }
}
