/** packages/events/memory.py: the transactional tables, one lock-protected operation at a time. */
module EventStore {
  import opened Results
  import opened DomainState
  import opened EventModels
  import Sorting
  import OutboxTable

  // Where the store itself refuses a write.
  datatype StoreConflict =
    | EventIdExists | IdentityExists | VersionMoved | VersionSkipped | LogVersionExists
    | ReceiptExists | OutboxPayloadDiffers

  datatype EventError =
    | EventNotFound | MessageIdReused | ExpectedVersionAhead | InvalidStateTransition
    | CommitFailed | StoreRefused(conflict: StoreConflict)

  datatype DeliveryError = LimitTooSmall | MessageNotFound

  datatype Tables = Tables(
    events: map<EventId, CanonicalEvent>,
    identities: map<IdentityKey, EventId>,
    receipts: map<string, Receipt>,
    sourceSequences: map<(EventId, string), int>,
    stateLogs: seq<StateLog>,
    outbox: map<OutboxId, OutboxRecord>)

  const EMPTY: Tables := Tables(map[], map[], map[], map[], [], map[])

  function InsertEvent(t: Tables, event: CanonicalEvent): Result<Tables, EventError> {
    if event.eventId in t.events then Failure(StoreRefused(EventIdExists))
    else if event.identityKey in t.identities then Failure(StoreRefused(IdentityExists))
    else Success(t.(events := t.events[event.eventId := event],
                    identities := t.identities[event.identityKey := event.eventId]))
  }

  function UpdateEvent(t: Tables, event: CanonicalEvent, expected: int): Result<Tables, EventError> {
    if event.eventId !in t.events || t.events[event.eventId].stateVersion != expected then
      Failure(StoreRefused(VersionMoved))
    else if event.stateVersion != expected + 1 then Failure(StoreRefused(VersionSkipped))
    else Success(t.(events := t.events[event.eventId := event]))
  }

  function AppendStateLog(t: Tables, entry: StateLog): Result<Tables, EventError> {
    if exists i | 0 <= i < |t.stateLogs| ::
         t.stateLogs[i].eventId == entry.eventId && t.stateLogs[i].stateVersion == entry.stateVersion then
      Failure(StoreRefused(LogVersionExists))
    else Success(t.(stateLogs := t.stateLogs + [entry]))
  }

  function RaisedSequence(m: map<(EventId, string), int>, r: Receipt): map<(EventId, string), int> {
    var key := (r.eventId, r.source);
    if key !in m || r.sourceSequence > m[key] then m[key := r.sourceSequence] else m
  }

  function SaveReceipt(t: Tables, r: Receipt): Result<Tables, EventError> {
    if r.messageId in t.receipts then
      if t.receipts[r.messageId].fingerprint != r.fingerprint then Failure(StoreRefused(ReceiptExists)) else Success(t)
    else
      Success(t.(receipts := t.receipts[r.messageId := r], sourceSequences := RaisedSequence(t.sourceSequences, r)))
  }

  function FreshRecord(m: OutboxMessage): OutboxRecord {
    OutboxRecord(m, PendingDelivery, 0, m.receivedAt, None, None, None)
  }

  function EnqueueOutbox(t: Tables, m: OutboxMessage): Result<Tables, EventError> {
    if m.messageId in t.outbox then
      if t.outbox[m.messageId].message != m then Failure(StoreRefused(OutboxPayloadDiffers)) else Success(t)
    else Success(t.(outbox := t.outbox[m.messageId := FreshRecord(m)]))
  }

  class InMemoryEventStore {
    var events: map<EventId, CanonicalEvent>
    var identities: map<IdentityKey, EventId>
    var receipts: map<string, Receipt>
    var sourceSequences: map<(EventId, string), int>
    var stateLogs: seq<StateLog>
    var outbox: map<OutboxId, OutboxRecord>
    var failNextCommit: bool

    constructor ()
      ensures State() == EMPTY && !failNextCommit
    {
      events, identities, receipts, sourceSequences, stateLogs, outbox := map[], map[], map[], map[], [], map[];
      failNextCommit := false;
    }

    function State(): Tables
      reads this
    {
      Tables(events, identities, receipts, sourceSequences, stateLogs, outbox)
    }

    method FailNextCommit()
      modifies this`failNextCommit
      ensures failNextCommit
    {
      failNextCommit := true;
    }

    // Rollback: every table returns to the backup taken when the transaction opened.
    method Restore(backup: Tables)
      modifies this
      ensures State() == backup && failNextCommit == old(failNextCommit)
    {
      events, identities, receipts := backup.events, backup.identities, backup.receipts;
      sourceSequences, stateLogs, outbox := backup.sourceSequences, backup.stateLogs, backup.outbox;
    }

    method Insert(event: CanonicalEvent) returns (r: Result<(), EventError>)
      modifies this
      ensures failNextCommit == old(failNextCommit)
      ensures match InsertEvent(old(State()), event)
              case Success(t) => r == Success(()) && State() == t
              case Failure(e) => r == Failure(e) && State() == old(State())
    {
      if event.eventId in events { return Failure(StoreRefused(EventIdExists)); }
      if event.identityKey in identities { return Failure(StoreRefused(IdentityExists)); }
      events := events[event.eventId := event];
      identities := identities[event.identityKey := event.eventId];
      return Success(());
    }

    method Update(event: CanonicalEvent, expected: int) returns (r: Result<(), EventError>)
      modifies this
      ensures failNextCommit == old(failNextCommit)
      ensures match UpdateEvent(old(State()), event, expected)
              case Success(t) => r == Success(()) && State() == t
              case Failure(e) => r == Failure(e) && State() == old(State())
    {
      if event.eventId !in events || events[event.eventId].stateVersion != expected {
        return Failure(StoreRefused(VersionMoved));
      }
      if event.stateVersion != expected + 1 { return Failure(StoreRefused(VersionSkipped)); }
      events := events[event.eventId := event];
      return Success(());
    }

    method Append(entry: StateLog) returns (r: Result<(), EventError>)
      modifies this
      ensures failNextCommit == old(failNextCommit)
      ensures match AppendStateLog(old(State()), entry)
              case Success(t) => r == Success(()) && State() == t
              case Failure(e) => r == Failure(e) && State() == old(State())
    {
      for i := 0 to |stateLogs|
        invariant State() == old(State()) && failNextCommit == old(failNextCommit)
        invariant forall k | 0 <= k < i ::
            !(stateLogs[k].eventId == entry.eventId && stateLogs[k].stateVersion == entry.stateVersion)
      {
        if stateLogs[i].eventId == entry.eventId && stateLogs[i].stateVersion == entry.stateVersion {
          return Failure(StoreRefused(LogVersionExists));
        }
      }
      stateLogs := stateLogs + [entry];
      return Success(());
    }

    method Save(receipt: Receipt) returns (r: Result<(), EventError>)
      modifies this
      ensures failNextCommit == old(failNextCommit)
      ensures match SaveReceipt(old(State()), receipt)
              case Success(t) => r == Success(()) && State() == t
              case Failure(e) => r == Failure(e) && State() == old(State())
    {
      if receipt.messageId in receipts {
        if receipts[receipt.messageId].fingerprint != receipt.fingerprint {
          return Failure(StoreRefused(ReceiptExists));
        }
        return Success(());
      }
      receipts := receipts[receipt.messageId := receipt];
      var key := (receipt.eventId, receipt.source);
      if key !in sourceSequences || receipt.sourceSequence > sourceSequences[key] {
        sourceSequences := sourceSequences[key := receipt.sourceSequence];
      }
      return Success(());
    }

    method Enqueue(message: OutboxMessage) returns (r: Result<(), EventError>)
      modifies this
      ensures failNextCommit == old(failNextCommit)
      ensures match EnqueueOutbox(old(State()), message)
              case Success(t) => r == Success(()) && State() == t
              case Failure(e) => r == Failure(e) && State() == old(State())
    {
      if message.messageId in outbox {
        if outbox[message.messageId].message != message { return Failure(StoreRefused(OutboxPayloadDiffers)); }
        return Success(());
      }
      outbox := outbox[message.messageId := FreshRecord(message)];
      return Success(());
    }

    // The eligible records; their dictionary order is immaterial because they are sorted next.
    method EligibleRecords(now: int) returns (eligible: seq<OutboxRecord>)
      requires OutboxTable.WellKeyed(outbox)
      ensures Listing(outbox, now, eligible)
    {
      eligible := [];
      var keys := outbox.Keys;
      while keys != {}
        invariant keys <= outbox.Keys
        invariant forall r | r in eligible :: r.message.messageId in outbox && r.message.messageId !in keys
                                              && outbox[r.message.messageId] == r && OutboxTable.Eligible(r, now)
        invariant forall k | k in outbox && OutboxTable.Eligible(outbox[k], now) :: k in keys || outbox[k] in eligible
        invariant Sorting.Distinct(eligible)
        decreases keys
      {
        var k :| k in keys;
        keys := keys - {k};
        if OutboxTable.Eligible(outbox[k], now) {
          eligible := eligible + [outbox[k]];
        }
      }
    }

    method ClaimPending(now: int, limit: int, lease: int) returns (r: Result<seq<OutboxRecord>, DeliveryError>)
      requires OutboxTable.WellKeyed(outbox)
      modifies this`outbox
      ensures limit < 1 ==> r == Failure(LimitTooSmall) && outbox == old(outbox)
      ensures limit >= 1 ==>
                && r.Success?
                && Sorting.Distinct(Ids(r.value))
                && OutboxTable.FirstEligible(old(outbox), now, limit, Ids(r.value))
                && outbox == OutboxTable.AfterClaim(old(outbox), now, lease, Ids(r.value))
                && forall i | 0 <= i < |r.value| :: r.value[i] == outbox[Ids(r.value)[i]]
    {
      if limit < 1 { return Failure(LimitTooSmall); }
      var eligible := EligibleRecords(now);
      var sorted := Sorting.Sort(eligible, OutboxTable.RecordLe);
      SortKeepsListing(outbox, now, eligible);
      var n := if limit < |sorted| then limit else |sorted|;
      FrontOfListing(outbox, now, limit, sorted, n);
      assert forall record | record in sorted[..n] :: record in sorted;
      var claimed := LeaseAll(sorted[..n], now, lease);
      assert Ids(claimed) == Ids(sorted[..n]);
      return Success(claimed);
    }

    // The loop over the claimed prefix: each of its records is leased, no other record is touched.
    method LeaseAll(records: seq<OutboxRecord>, now: int, lease: int) returns (claimed: seq<OutboxRecord>)
      requires Sorting.Distinct(Ids(records))
      requires forall r | r in records :: r.message.messageId in outbox && outbox[r.message.messageId] == r
      modifies this`outbox
      ensures |claimed| == |records|
      ensures forall i | 0 <= i < |records| :: claimed[i] == OutboxTable.Leased(records[i], now, lease)
      ensures outbox == OutboxTable.AfterClaim(old(outbox), now, lease, Ids(records))
    {
      claimed := [];
      for i := 0 to |records|
        invariant |claimed| == i
        invariant forall j | 0 <= j < i :: claimed[j] == OutboxTable.Leased(records[j], now, lease)
        invariant outbox == OutboxTable.AfterClaim(old(outbox), now, lease, Ids(records[..i]))
      {
        var record := records[i];
        var id := record.message.messageId;
        assert record in records;
        assert Ids(records[..i + 1]) == Ids(records[..i]) + [id];
        assert id !in Ids(records[..i]) by {
          assert Ids(records[..i]) == Ids(records)[..i] && Ids(records)[i] == id;
        }
        outbox := outbox[id := OutboxTable.Leased(record, now, lease)];
        claimed := claimed + [OutboxTable.Leased(record, now, lease)];
      }
      assert records[..|records|] == records;
    }

    method MarkPublished(id: OutboxId, at: int) returns (r: Result<(), DeliveryError>)
      modifies this`outbox
      ensures outbox == OutboxTable.AfterMark(old(outbox), id, at)
      ensures r.Failure? <==> id !in old(outbox)
    {
      if id !in outbox { return Failure(MessageNotFound); }
      if outbox[id].status == Published { return Success(()); }
      outbox := outbox[id := OutboxTable.Acknowledged(outbox[id], at)];
      return Success(());
    }

    method ReleaseAfterFailure(id: OutboxId, retryAt: int, error: string) returns (r: Result<(), DeliveryError>)
      modifies this`outbox
      ensures outbox == OutboxTable.AfterRelease(old(outbox), id, retryAt, error)
      ensures r.Failure? <==> id !in old(outbox)
    {
      if id !in outbox { return Failure(MessageNotFound); }
      if outbox[id].status == Published { return Success(()); }
      outbox := outbox[id := OutboxTable.Returned(outbox[id], retryAt, error)];
      return Success(());
    }
  }

  function Ids(records: seq<OutboxRecord>): seq<OutboxId> {
    seq(|records|, i requires 0 <= i < |records| => records[i].message.messageId)
  }

  // Every eligible record once, and nothing else.
  ghost predicate Listing(box: OutboxTable.Box, now: int, records: seq<OutboxRecord>) {
    && (forall r | r in records :: r.message.messageId in box && box[r.message.messageId] == r && OutboxTable.Eligible(r, now))
    && (forall k | k in box && OutboxTable.Eligible(box[k], now) :: box[k] in records)
    && Sorting.Distinct(records)
  }

  lemma SortKeepsListing(box: OutboxTable.Box, now: int, eligible: seq<OutboxRecord>)
    requires Listing(box, now, eligible)
    ensures Listing(box, now, Sorting.Sort(eligible, OutboxTable.RecordLe))
    ensures Sorting.SortedBy(Sorting.Sort(eligible, OutboxTable.RecordLe), OutboxTable.RecordLe)
  {
    hide OutboxTable.RecordLe, OutboxTable.Eligible;
    assert Sorting.TotalPreorder(OutboxTable.RecordLe) by { OutboxTable.RecordLeIsTotalOrder(); }
    Sorting.SortCorrect(eligible, OutboxTable.RecordLe);
    Sorting.DistinctOfMultiset(eligible, Sorting.Sort(eligible, OutboxTable.RecordLe));
  }

  lemma ListingHasDistinctIds(box: OutboxTable.Box, now: int, records: seq<OutboxRecord>)
    requires Listing(box, now, records)
    ensures Sorting.Distinct(Ids(records))
  {
    hide OutboxTable.Eligible;
    forall i, j | 0 <= i < j < |records| ensures Ids(records)[i] != Ids(records)[j] {
      assert records[i] in records && records[j] in records;
    }
  }

  // The prefix of the sorted listing is the batch a claim must take.
  lemma FrontOfListing(box: OutboxTable.Box, now: int, limit: nat, sorted: seq<OutboxRecord>, n: nat)
    requires OutboxTable.WellKeyed(box) && Listing(box, now, sorted) && Sorting.SortedBy(sorted, OutboxTable.RecordLe)
    requires n == if limit < |sorted| then limit else |sorted|
    ensures Sorting.Distinct(Ids(sorted[..n]))
    ensures OutboxTable.FirstEligible(box, now, limit, Ids(sorted[..n]))
  {
    hide OutboxTable.RecordLe, OutboxTable.Eligible;
    ListingHasDistinctIds(box, now, sorted);
    var ids := Ids(sorted[..n]);
    assert ids == Ids(sorted)[..n];
    forall i | 0 <= i < n ensures ids[i] in box && box[ids[i]] == sorted[i] && OutboxTable.Eligible(box[ids[i]], now) {
      assert sorted[i] in sorted;
    }
    forall k | k in box && OutboxTable.Eligible(box[k], now) && k !in ids
      ensures |ids| == limit && forall i | 0 <= i < |ids| :: OutboxTable.RecordLe(box[ids[i]], box[k])
    {
      assert box[k] in sorted;
      var m :| 0 <= m < |sorted| && sorted[m] == box[k];
      assert forall i | 0 <= i < n :: ids[i] in ids && ids[i] == sorted[i].message.messageId;
    }
  }
}
