/** packages/events/models.py and the value types of packages/events/outbox.py.
    Digests are free constructors, so equal digests mean equal inputs; instants and dates are integers. */
module EventModels {
  import opened Results
  import opened DomainState

  datatype LineageRef = LineageRef(kind: string, identifier: string, version: Option<string>, contentHash: Option<string>)

  datatype Metadata = Metadata(
    messageId: string, source: string, sourceSequence: int, occurredAt: int, receivedAt: int,
    correlationId: string, causationId: Option<string>, lineage: seq<LineageRef>)

  // The digest of (market date, theme, catalyst) and the Event id derived from it.
  datatype IdentityKey = IdentityKey(marketDate: int, canonicalThemeId: string, catalystKey: string)

  datatype EventId = DerivedId(key: IdentityKey) | ForeignId(text: string)

  datatype EventVersions = EventVersions(
    calculationVersion: string, rankingModelVersion: string, membershipVersion: string, baselineVersion: Option<string>)

  datatype ClassificationKind = InfostockTheme | UnclassifiedCluster | TemporaryTheme

  datatype Certainty = Provisional | Confirmed

  datatype ClassificationSource = LiveEngine | Operator | Infostock

  datatype Classification = Classification(
    classificationVersion: int, themeId: string, displayName: string, kind: ClassificationKind,
    certainty: Certainty, source: ClassificationSource, changedAt: int)

  datatype CanonicalEvent = CanonicalEvent(
    eventId: EventId, identityKey: IdentityKey,
    lifecycle: LifecycleStatus, reconciliation: ReconciliationStatus,
    stateVersion: int, statePolicyVersion: string, classification: Classification,
    firstDetectedAt: int, changedAt: int,
    lastSource: string, lastSourceSequence: int, lastReceivedAt: int,
    lineage: seq<LineageRef>, versions: EventVersions)

  datatype Command =
    | CreateEvent(metadata: Metadata, identity: IdentityKey, displayName: string, versions: EventVersions,
                  kind: ClassificationKind, certainty: Certainty, classificationSource: ClassificationSource)
    | TransitionLifecycle(metadata: Metadata, eventId: EventId, lifecycleTarget: LifecycleStatus,
                          expectedStateVersion: int, reason: string, policyVersion: string)
    | ReconcileEvent(metadata: Metadata, eventId: EventId, reconciliationTarget: ReconciliationStatus,
                     expectedStateVersion: int, reason: string, policyVersion: string)

  datatype Fingerprint = Sha256(command: Command)

  datatype EventType = Created | LifecycleChanged | Reconciled

  // The digest of DigestInput(commandMessageId, eventType).
  datatype OutboxId = OutboxId(commandMessageId: string, eventType: EventType)

  datatype Disposition =
    Applied | DuplicateIdentity | AlreadyInState | StaleSourceSequence | StaleStateVersion | StaleOccurredAt

  datatype WriteResult = WriteResult(event: CanonicalEvent, disposition: Disposition, outboxMessageId: Option<OutboxId>)

  datatype Receipt = Receipt(
    messageId: string, fingerprint: Fingerprint, eventId: EventId, source: string, sourceSequence: int,
    receivedAt: int, result: WriteResult)

  datatype Status = LifecycleValue(lifecycle: LifecycleStatus) | ReconciliationValue(reconciliation: ReconciliationStatus)

  datatype StateLog = StateLog(
    eventId: EventId, stateVersion: int, fromStatus: Option<Status>, toStatus: Status, policyVersion: string,
    reason: string, occurredAt: int, receivedAt: int, source: string, sourceSequence: int,
    commandMessageId: string, lineage: seq<LineageRef>, axis: StateAxis)

  datatype Payload =
    | CreatedPayload(eventId: EventId, lifecycle: LifecycleStatus, stateVersion: int, classificationVersion: int,
                     versions: EventVersions)
    | LifecyclePayload(eventId: EventId, fromLifecycle: LifecycleStatus, lifecycle: LifecycleStatus, stateVersion: int,
                       policyVersion: string, reason: string)
    | ReconciledPayload(eventId: EventId, fromReconciliation: ReconciliationStatus, reconciliation: ReconciliationStatus,
                        stateVersion: int, classificationVersion: int, policyVersion: string, reason: string)

  datatype OutboxMessage = OutboxMessage(
    messageId: OutboxId, eventType: EventType, aggregateId: EventId, occurredAt: int, receivedAt: int,
    correlationId: string, causationId: Option<string>, payload: Payload)

  datatype OutboxStatus = PendingDelivery | Claimed | Published

  datatype OutboxRecord = OutboxRecord(
    message: OutboxMessage, status: OutboxStatus, attempts: int, availableAt: int,
    claimedUntil: Option<int>, publishedAt: Option<int>, lastError: Option<string>)

  function TypeName(t: EventType): string {
    match t
    case Created => "canonical_event.created"
    case LifecycleChanged => "canonical_event.lifecycle_changed"
    case Reconciled => "canonical_event.reconciled"
  }

  // The text whose digest is the outbox message id.
  function DigestInput(commandMessageId: string, t: EventType): string {
    commandMessageId + ":" + TypeName(t)
  }

  lemma TypeNameHasNoColon(t: EventType)
    ensures ':' !in TypeName(t)
  {
    var name := TypeName(t);
    assert forall i | 0 <= i < |name| :: name[i] != ':';
  }

  lemma ColonBound(a: string, s: string, b: string, t: string)
    requires a + ":" + s == b + ":" + t && ':' !in t
    ensures |a| <= |b|
  {
    var x := b + ":" + t;
    forall k | |b| < k < |x| ensures x[k] != ':' { assert x[k] == t[k - |b| - 1]; }
    assert (a + ":" + s)[|a|] == ':';
  }

  /** The separator is unambiguous although command ids may contain colons: no event type does.
      So the pair (command id, type) is a faithful name for the digest, as `OutboxId` uses it. */
  lemma DigestInputInjective(a: string, s: EventType, b: string, t: EventType)
    requires DigestInput(a, s) == DigestInput(b, t)
    ensures a == b && s == t
  {
    TypeNameHasNoColon(s);
    TypeNameHasNoColon(t);
    ColonBound(a, TypeName(s), b, TypeName(t));
    ColonBound(b, TypeName(t), a, TypeName(s));
    var x := DigestInput(a, s);
    assert a == x[..|a|] && b == x[..|b|];
    assert TypeName(s) == x[|a| + 1..] && TypeName(t) == x[|b| + 1..];
    assert |TypeName(s)| == |TypeName(t)|;
  }

  // What the value types' own constructors check (`__post_init__`).
  predicate HasText(s: string) { exists i | 0 <= i < |s| :: s[i] !in " \t\n\r" }

  predicate ValidMetadata(m: Metadata) {
    && HasText(m.messageId) && HasText(m.source) && HasText(m.correlationId)
    && (m.causationId.Some? ==> HasText(m.causationId.value))
    && m.sourceSequence >= 0
    && m.occurredAt <= m.receivedAt
    && forall i, j | 0 <= i < j < |m.lineage| ::
         (m.lineage[i].kind, m.lineage[i].identifier, m.lineage[i].version)
         != (m.lineage[j].kind, m.lineage[j].identifier, m.lineage[j].version)
  }

  predicate ValidCommand(c: Command) {
    && ValidMetadata(c.metadata)
    && match c
       case CreateEvent(_, identity, displayName, versions, _, _, _) =>
         && HasText(identity.canonicalThemeId) && HasText(identity.catalystKey) && HasText(displayName)
         && HasText(versions.calculationVersion) && HasText(versions.rankingModelVersion)
         && HasText(versions.membershipVersion)
       case TransitionLifecycle(_, _, _, expected, reason, policy) =>
         HasText(reason) && HasText(policy) && expected >= 1
       case ReconcileEvent(_, _, target, expected, reason, policy) =>
         HasText(reason) && HasText(policy) && expected >= 1 && target != Pending
  }

  predicate ValidEvent(e: CanonicalEvent) {
    && HasText(e.identityKey.canonicalThemeId) && HasText(e.identityKey.catalystKey)
    && HasText(e.statePolicyVersion) && HasText(e.lastSource)
    && e.stateVersion >= 1 && e.lastSourceSequence >= 0
    && e.classification.classificationVersion >= 1
    && HasText(e.classification.themeId) && HasText(e.classification.displayName)
    && e.changedAt >= e.firstDetectedAt
  }

  predicate ValidMessage(m: OutboxMessage) {
    && HasText(m.correlationId)
    && (m.causationId.Some? ==> HasText(m.causationId.value))
    && m.occurredAt <= m.receivedAt
  }
}
