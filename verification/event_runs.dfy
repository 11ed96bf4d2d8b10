/** Safety of whole streams of commands, with failing commands and failing commits among them. */
module EventRuns {
  import opened Results
  import opened DomainState
  import opened EventModels
  import opened EventStore
  import opened EventWriting
  import opened EventHistory
  import OutboxTable

  datatype Attempt = Attempt(command: Command, commitFails: bool)

  type Answer = Result<WriteResult, EventError>

  function Run(t: Tables, attempts: seq<Attempt>): Tables
    decreases attempts
  {
    if attempts == [] then t else Run(Write(t, attempts[0].command, attempts[0].commitFails).0, attempts[1..])
  }

  function Answers(t: Tables, attempts: seq<Attempt>): seq<Answer>
    decreases attempts
  {
    if attempts == [] then [] else
    var (t', r) := Write(t, attempts[0].command, attempts[0].commitFails);
    [r] + Answers(t', attempts[1..])
  }

  lemma {:induction false} AnswersLength(t: Tables, attempts: seq<Attempt>)
    ensures |Answers(t, attempts)| == |attempts|
    decreases attempts
  {
    hide Write;
    if attempts != [] {
      AnswersLength(Write(t, attempts[0].command, attempts[0].commitFails).0, attempts[1..]);
    }
  }

  lemma {:induction false} RunAppend(t: Tables, a: seq<Attempt>, b: seq<Attempt>)
    ensures Run(t, a + b) == Run(Run(t, a), b)
    ensures Answers(t, a + b) == Answers(t, a) + Answers(Run(t, a), b)
    decreases a
  {
    hide Write;
    if a == [] {
      assert a + b == b;
    } else {
      var t' := Write(t, a[0].command, a[0].commitFails).0;
      assert (a + b)[0] == a[0] && (a + b)[1..] == a[1..] + b;
      RunAppend(t', a[1..], b);
      assert [Write(t, a[0].command, a[0].commitFails).1] + (Answers(t', a[1..]) + Answers(Run(t', a[1..]), b))
          == Answers(t, a) + Answers(Run(t, a), b);
    }
  }

  /** The event-sourcing invariant holds in every state any stream of attempts reaches. */
  lemma {:induction false} RunKeepsInv(t: Tables, attempts: seq<Attempt>)
    requires Inv(t)
    ensures Inv(Run(t, attempts))
    decreases attempts
  {
    hide Write, Inv;
    if attempts != [] {
      WriteKeepsInv(t, attempts[0].command, attempts[0].commitFails);
      RunKeepsInv(Write(t, attempts[0].command, attempts[0].commitFails).0, attempts[1..]);
    }
  }

  /** So it holds in every state reached from the empty store. */
  lemma ReachableTablesAreSound(attempts: seq<Attempt>)
    ensures Inv(Run(EMPTY, attempts))
  {
    hide Inv, Run;
    EmptyTablesInv();
    RunKeepsInv(EMPTY, attempts);
  }

  /** No stream of attempts from a sound store ever meets one of the store's defensive conflicts. */
  lemma {:induction false} RunsNeverMeetStoreConflicts(t: Tables, attempts: seq<Attempt>, i: nat)
    requires Inv(t) && i < |attempts|
    ensures |Answers(t, attempts)| == |attempts|
    ensures Answers(t, attempts)[i].Failure? ==> !Answers(t, attempts)[i].error.StoreRefused?
    decreases attempts
  {
    hide Write, Inv;
    AnswersLength(t, attempts);
    StoreNeverRefuses(t, attempts[0].command, attempts[0].commitFails);
    if i > 0 {
      WriteKeepsInv(t, attempts[0].command, attempts[0].commitFails);
      RunsNeverMeetStoreConflicts(Write(t, attempts[0].command, attempts[0].commitFails).0, attempts[1..], i - 1);
    }
  }

  // ----- Reading the invariant -----

  // One legal entry: it starts a log or continues one in time, leaves the other axis alone, and never leaves a finished state.
  lemma LegalEntry(f: Folded, e: StateLog)
    requires Advance(f, e).At?
    ensures Advance(f, e).state.changedAt == e.occurredAt
    ensures f.Nothing? ==> e.fromStatus == None && e.toStatus == LifecycleValue(Candidate) && e.axis == LifecycleAxis
    ensures !f.Nothing? ==> f.At? && e.fromStatus != None && f.state.changedAt <= e.occurredAt
    ensures e.toStatus.LifecycleValue? ==> e.axis == LifecycleAxis && Advance(f, e).state.lifecycle == e.toStatus.lifecycle
    ensures e.toStatus.ReconciliationValue? ==> e.axis == ReconciliationAxis && Advance(f, e).state.reconciliation == e.toStatus.reconciliation
    ensures f.At? && f.state.lifecycle in {Closed, Discarded} ==>
              e.axis == ReconciliationAxis && Advance(f, e).state.lifecycle == f.state.lifecycle
    ensures f.At? && f.state.reconciliation == Matched ==> e.axis == LifecycleAxis && Advance(f, e).state.reconciliation == Matched
  {
  }

  lemma FoldStarted(log: seq<StateLog>)
    requires log != []
    ensures !Fold(log).Nothing?
  {
  }

  // After the entry at i nothing moves its axis any more.
  ghost predicate EndsAxis(log: seq<StateLog>, i: nat, axis: StateAxis)
    requires i < |log|
  {
    forall j | i < j < |log| :: log[j].axis != axis
  }

  /** A replayable log is in time order, and no entry follows the end of its axis. */
  lemma {:induction false} ReplayableLog(log: seq<StateLog>)
    requires Fold(log).At?
    ensures log[0].fromStatus == None
    ensures forall i | 0 < i < |log| :: log[i].fromStatus != None
    ensures log[|log| - 1].occurredAt == Fold(log).state.changedAt
    ensures forall i, j | 0 <= i < j < |log| :: log[i].occurredAt <= log[j].occurredAt
    ensures forall i | 0 <= i < |log| && log[i].toStatus in {LifecycleValue(Closed), LifecycleValue(Discarded)} ::
              LifecycleValue(Fold(log).state.lifecycle) == log[i].toStatus && EndsAxis(log, i, LifecycleAxis)
    ensures forall i | 0 <= i < |log| && log[i].toStatus == ReconciliationValue(Matched) ::
              Fold(log).state.reconciliation == Matched && EndsAxis(log, i, ReconciliationAxis)
  {
    hide Advance;
    var n := |log| - 1;
    var front := log[..n];
    LegalEntry(Fold(front), log[n]);
    if front != [] {
      FoldStarted(front);
      ReplayableLog(front);
      assert forall i | 0 <= i < n :: front[i] == log[i];
      forall i | 0 <= i < n && log[i].toStatus in {LifecycleValue(Closed), LifecycleValue(Discarded)}
        ensures LifecycleValue(Fold(log).state.lifecycle) == log[i].toStatus && EndsAxis(log, i, LifecycleAxis)
      {
        assert EndsAxis(front, i, LifecycleAxis);
      }
      forall i | 0 <= i < n && log[i].toStatus == ReconciliationValue(Matched)
        ensures Fold(log).state.reconciliation == Matched && EndsAxis(log, i, ReconciliationAxis)
      {
        assert EndsAxis(front, i, ReconciliationAxis);
      }
    }
  }

  /** What the log of a stored Event proves about it, in one place. */
  lemma StoredEventIsItsLog(t: Tables, id: EventId)
    requires Inv(t) && id in t.events
    ensures var log, e := LogOf(t.stateLogs, id), t.events[id];
            && |log| == e.stateVersion >= 1
            && VersionsCount(log, id) && SourcesIncrease(log)
            && Fold(log) == At(AxisOf(e))
            && (forall i, j | 0 <= i < j < |log| :: log[i].occurredAt <= log[j].occurredAt)
            && (e.classification.classificationVersion == 2 <==> e.reconciliation == Matched)
            && (e.classification.classificationVersion == 1 <==> e.reconciliation != Matched)
  {
    assert Explains(LogOf(t.stateLogs, id), t.events[id]);
    ReplayableLog(LogOf(t.stateLogs, id));
  }

  /** Outbox messages and log entries are the same set: one message per entry, none besides. */
  lemma OutboxMirrorsLog(t: Tables)
    requires Inv(t)
    ensures t.outbox.Keys == set i | 0 <= i < |t.stateLogs| :: EntryMessageId(t.stateLogs[i])
    ensures forall i, j | 0 <= i < j < |t.stateLogs| :: EntryMessageId(t.stateLogs[i]) != EntryMessageId(t.stateLogs[j])
  {
    hide Bijection, Histories, VersionsUnique, Sequences, SoundReceipt, EventHistory.Acknowledged, EntryType;
    var ids := set i | 0 <= i < |t.stateLogs| :: EntryMessageId(t.stateLogs[i]);
    forall k | k in t.outbox ensures k in ids { assert Announced(t.stateLogs, k); }
    forall i | 0 <= i < |t.stateLogs| ensures EntryMessageId(t.stateLogs[i]) in t.outbox { assert Posts(t.outbox, t.stateLogs[i]); }
  }

  // ----- What later writes can never undo -----

  ghost predicate Terminal(s: LifecycleStatus) { s == Closed || s == Discarded }

  // The tables only grow, and a finished axis stays finished.
  ghost predicate Grows(t: Tables, u: Tables) {
    && t.stateLogs <= u.stateLogs
    && t.outbox.Keys <= u.outbox.Keys
    && (forall m | m in t.receipts :: m in u.receipts && u.receipts[m] == t.receipts[m])
    && (forall k | k in t.identities :: k in u.identities && u.identities[k] == t.identities[k])
    && (forall id | id in t.events :: id in u.events && RowGrows(t.events[id], u.events[id]))
  }

  // The row only moves on, and never leaves a finished state.
  ghost predicate RowGrows(a: CanonicalEvent, b: CanonicalEvent) {
    && a.stateVersion <= b.stateVersion
    && (Terminal(a.lifecycle) ==> b.lifecycle == a.lifecycle)
    && (a.reconciliation == Matched ==> b.reconciliation == Matched)
  }

  lemma RevisionGrows(t: Tables, c: Command, e: CanonicalEvent, entry: StateLog, m: OutboxMessage)
    requires Bijection(t) && Keyed(t, c, e, entry, m) && Moves(t, e, entry)
    ensures Grows(t, Posted(t, c, e, entry, m))
  {
    hide *;
    PostedTables(t, c, e, entry, m);
    RevisedRowGrows(t, e, entry);
    KeyedIsFresh(t, c, e, entry, m);
    GrowsBy(t, Posted(t, c, e, entry, m), e);
  }

  lemma PostedTables(t: Tables, c: Command, e: CanonicalEvent, entry: StateLog, m: OutboxMessage)
    ensures var u := Posted(t, c, e, entry, m);
            && t.stateLogs <= u.stateLogs && t.outbox.Keys <= u.outbox.Keys && u.events == t.events[e.eventId := e]
            && (forall k | k in t.receipts && k != c.metadata.messageId :: k in u.receipts && u.receipts[k] == t.receipts[k])
            && (forall k | k in t.identities && (!c.CreateEvent? || k != e.identityKey) :: k in u.identities && u.identities[k] == t.identities[k])
  {
    hide RaisedSequence, FreshRecord, ReceiptFor;
  }

  lemma KeyedIsFresh(t: Tables, c: Command, e: CanonicalEvent, entry: StateLog, m: OutboxMessage)
    requires Keyed(t, c, e, entry, m)
    ensures c.metadata.messageId !in t.receipts && (c.CreateEvent? ==> e.identityKey !in t.identities)
  {
  }

  lemma GrowsBy(t: Tables, u: Tables, e: CanonicalEvent)
    requires t.stateLogs <= u.stateLogs && t.outbox.Keys <= u.outbox.Keys && u.events == t.events[e.eventId := e]
    requires forall k | k in t.receipts :: k in u.receipts && u.receipts[k] == t.receipts[k]
    requires forall k | k in t.identities :: k in u.identities && u.identities[k] == t.identities[k]
    requires e.eventId in t.events ==> RowGrows(t.events[e.eventId], e)
    ensures Grows(t, u)
  {
    hide RowGrows;
    forall id | id in t.events ensures id in u.events && RowGrows(t.events[id], u.events[id]) { RowStays(t.events[id]); }
  }

  lemma RowStays(a: CanonicalEvent)
    ensures RowGrows(a, a)
  {
  }

  lemma RevisedRowGrows(t: Tables, e: CanonicalEvent, entry: StateLog)
    requires Moves(t, e, entry)
    ensures e.eventId in t.events ==> RowGrows(t.events[e.eventId], e)
  {
    hide Advance, Promoted;
    if e.eventId in t.events { LegalEntry(At(AxisOf(t.events[e.eventId])), entry); }
  }

  lemma WriteGrows(t: Tables, c: Command, commitFails: bool)
    requires Inv(t)
    ensures Grows(t, Write(t, c, commitFails).0)
  {
    hide Histories, VersionsUnique, Receipts, Sequences, Outbox, Grows, Keyed, Moves, Posted, Write, Decide;
    WriteIs(t, c, commitFails);
    GrowsReflexive(t);
    var d := Decide(t, c);
    if d.Revised? {
      RevisionIsKeyed(t, c);
      RevisionGrows(t, c, d.revision, d.entry, d.message);
    } else if d.Settled? {
      SettledEventIsStored(t, c);
      AckGrows(t, c, d.event, d.disposition);
    }
  }

  lemma AckGrows(t: Tables, c: Command, event: CanonicalEvent, d: Disposition)
    requires c.metadata.messageId !in t.receipts
    ensures Grows(t, Acked(t, c, event, d))
  {
  }

  lemma GrowsReflexive(t: Tables)
    ensures Grows(t, t)
  {
  }

  lemma GrowsTransitive(t: Tables, u: Tables, v: Tables)
    requires Grows(t, u) && Grows(u, v)
    ensures Grows(t, v)
  {
  }

  /** Over any stream: CLOSED, DISCARDED and MATCHED are never left, and nothing recorded disappears. */
  lemma {:induction false} RunGrows(t: Tables, attempts: seq<Attempt>)
    requires Inv(t)
    ensures Grows(t, Run(t, attempts))
    decreases attempts
  {
    hide Write, Inv, Grows;
    GrowsReflexive(t);
    if attempts != [] {
      var t' := Write(t, attempts[0].command, attempts[0].commitFails).0;
      WriteGrows(t, attempts[0].command, attempts[0].commitFails);
      WriteKeepsInv(t, attempts[0].command, attempts[0].commitFails);
      RunGrows(t', attempts[1..]);
      GrowsTransitive(t, t', Run(t', attempts[1..]));
    }
  }

  // ----- Idempotency -----

  // The store remembers that this very command was answered with r.
  ghost predicate Committed(t: Tables, c: Command, r: WriteResult) {
    && c.metadata.messageId in t.receipts
    && t.receipts[c.metadata.messageId].fingerprint == Sha256(c)
    && t.receipts[c.metadata.messageId].result == r
  }

  lemma SuccessIsCommitted(t: Tables, c: Command, commitFails: bool)
    requires Inv(t) && Write(t, c, commitFails).1.Success?
    ensures Committed(Write(t, c, commitFails).0, c, Write(t, c, commitFails).1.value)
  {
    hide Inv;
    WriteIs(t, c, commitFails);
  }

  lemma {:induction false} RunCommits(t: Tables, attempts: seq<Attempt>, i: nat)
    requires Inv(t) && i < |attempts|
    ensures |Answers(t, attempts)| == |attempts|
    ensures Answers(t, attempts)[i].Success? ==>
              Committed(Run(t, attempts), attempts[i].command, Answers(t, attempts)[i].value)
    decreases attempts
  {
    hide Write, Inv;
    AnswersLength(t, attempts);
    var c, f := attempts[0].command, attempts[0].commitFails;
    WriteKeepsInv(t, c, f);
    if i == 0 {
      if Answers(t, attempts)[0].Success? {
        SuccessIsCommitted(t, c, f);
        RunGrows(Write(t, c, f).0, attempts[1..]);
      }
    } else {
      RunCommits(Write(t, c, f).0, attempts[1..], i - 1);
    }
  }

  lemma CommittedIsReplayed(t: Tables, c: Command, r: WriteResult, commitFails: bool)
    requires Committed(t, c, r)
    ensures Write(t, c, commitFails) == (t, if commitFails then Failure(CommitFailed) else Success(r))
  {
  }

  /** Delivering a committed command again, anywhere later, changes no table and no other answer. */
  lemma RedeliveryIsInvisible(t: Tables, attempts: seq<Attempt>, i: nat, j: nat, commitFails: bool)
    requires Inv(t) && i < j <= |attempts|
    requires |Answers(t, attempts)| == |attempts| && Answers(t, attempts)[i].Success?
    ensures var again := Attempt(attempts[i].command, commitFails);
            var longer := attempts[..j] + [again] + attempts[j..];
            && Run(t, longer) == Run(t, attempts)
            && Answers(t, longer) == Answers(t, attempts)[..j]
                                     + [if commitFails then Failure(CommitFailed) else Answers(t, attempts)[i]]
                                     + Answers(t, attempts)[j..]
  {
    hide Inv, Write, Committed, Run, Answers;
    var again := Attempt(attempts[i].command, commitFails);
    var a, b := attempts[..j], attempts[j..];
    assert attempts == a + b && a[i] == attempts[i];
    AnswersLength(t, a);
    RunAppend(t, a, b);
    var mid := Run(t, a);
    assert Answers(t, attempts)[..j] == Answers(t, a) && Answers(t, attempts)[j..] == Answers(mid, b);
    RunCommits(t, a, i);
    CommittedIsReplayed(mid, again.command, Answers(t, a)[i].value, commitFails);
    RunAppend(t, a, [again] + b);
    RunCons(mid, again, b);
    assert a + [again] + b == a + ([again] + b);
  }

  lemma RunCons(t: Tables, first: Attempt, rest: seq<Attempt>)
    ensures Run(t, [first] + rest) == Run(Write(t, first.command, first.commitFails).0, rest)
    ensures Answers(t, [first] + rest) == [Write(t, first.command, first.commitFails).1] + Answers(Write(t, first.command, first.commitFails).0, rest)
  {
    hide Write;
    assert ([first] + rest)[1..] == rest;
  }

  /** Two changes of one Event from one expected version: if both were applied, they are the same command. */
  lemma AtMostOneAppliedPerVersion(t: Tables, attempts: seq<Attempt>, i: nat, j: nat)
    requires Inv(t) && i < |attempts| && j < |attempts|
    requires var c, d := attempts[i].command, attempts[j].command;
             !c.CreateEvent? && !d.CreateEvent? && c.eventId == d.eventId && c.expectedStateVersion == d.expectedStateVersion
    requires |Answers(t, attempts)| == |attempts|
    requires forall k | k in {i, j} :: Answers(t, attempts)[k].Success? && Answers(t, attempts)[k].value.disposition == Applied
    ensures attempts[i].command == attempts[j].command
    ensures Answers(t, attempts)[i] == Answers(t, attempts)[j]
  {
    hide Histories, Bijection, Sequences, Outbox;
    var u := Run(t, attempts);
    RunKeepsInv(t, attempts);
    RunCommits(t, attempts, i);
    RunCommits(t, attempts, j);
    var c, d := attempts[i].command, attempts[j].command;
    var a := AppliedEntry(u, c.metadata.messageId);
    var b := AppliedEntry(u, d.metadata.messageId);
    assert u.stateLogs[a].eventId == u.stateLogs[b].eventId == c.eventId;
    assert u.stateLogs[a].stateVersion == u.stateLogs[b].stateVersion == c.expectedStateVersion + 1;
    assert a == b;
  }

  // The log entry behind an applied receipt.
  lemma AppliedEntry(t: Tables, messageId: string) returns (i: nat)
    requires Receipts(t) && messageId in t.receipts && t.receipts[messageId].result.disposition == Applied
    ensures i < |t.stateLogs| && t.stateLogs[i].commandMessageId == messageId
    ensures t.stateLogs[i].eventId == t.receipts[messageId].result.event.eventId
    ensures t.stateLogs[i].stateVersion == t.receipts[messageId].result.event.stateVersion
  {
    assert Wrote(t.stateLogs, messageId);
    i :| 0 <= i < |t.stateLogs| && t.stateLogs[i].commandMessageId == messageId;
    assert Acknowledged(t.receipts, t.stateLogs[i]);
  }

  /** Leasing, acknowledging and releasing messages leaves everything about Events true. */
  lemma RelayKeepsInv(t: Tables, box: OutboxTable.Box)
    requires Inv(t) && box.Keys == t.outbox.Keys
    requires forall k | k in box :: box[k].message == t.outbox[k].message
    ensures Inv(t.(outbox := box))
  {
    hide Outbox, Explains, SourcesIncrease, LogOf, EventHistory.Acknowledged, Wrote, Took, VersionsUnique;
    BoxKeepsOutbox(t, box);
  }

  lemma BoxKeepsOutbox(t: Tables, box: OutboxTable.Box)
    requires Outbox(t) && box.Keys == t.outbox.Keys
    requires forall k | k in box :: box[k].message == t.outbox[k].message
    ensures Outbox(t.(outbox := box))
  {
    hide EntryMessageId, Announced;
    forall i | 0 <= i < |t.stateLogs| ensures Posts(box, t.stateLogs[i]) { assert Posts(t.outbox, t.stateLogs[i]); }
  }

  // ----- The value types' own checks never fire -----

  ghost predicate Wellformed(t: Tables) {
    forall id | id in t.events :: ValidEvent(t.events[id])
  }

  /** For commands their own constructors accept, every Event row and message built is accepted too. */
  lemma BuiltValuesAreValid(t: Tables, c: Command)
    requires ValidCommand(c) && Wellformed(t) && Decide(t, c).Revised?
    ensures ValidEvent(Decide(t, c).revision) && ValidMessage(Decide(t, c).message)
  {
    hide HasText, LifecycleTargets, ReconciliationTargets;
    if !c.CreateEvent? {
      assert ValidEvent(t.events[c.eventId]);
    }
  }

  lemma WriteKeepsWellformed(t: Tables, c: Command, commitFails: bool)
    requires Inv(t) && Wellformed(t) && ValidCommand(c)
    ensures Wellformed(Write(t, c, commitFails).0)
  {
    hide Inv, ValidEvent, ValidCommand, Decide;
    WriteIs(t, c, commitFails);
    if Decide(t, c).Revised? {
      BuiltValuesAreValid(t, c);
    }
  }

  /** So no Event row a stream of well-formed commands produces could have been refused by its constructor. */
  lemma {:induction false} RunKeepsWellformed(t: Tables, attempts: seq<Attempt>)
    requires Inv(t) && Wellformed(t) && forall i | 0 <= i < |attempts| :: ValidCommand(attempts[i].command)
    ensures Wellformed(Run(t, attempts))
    decreases attempts
  {
    hide Inv, Write, Wellformed, ValidCommand;
    if attempts != [] {
      WriteKeepsInv(t, attempts[0].command, attempts[0].commitFails);
      WriteKeepsWellformed(t, attempts[0].command, attempts[0].commitFails);
      RunKeepsWellformed(Write(t, attempts[0].command, attempts[0].commitFails).0, attempts[1..]);
    }
  }
}
