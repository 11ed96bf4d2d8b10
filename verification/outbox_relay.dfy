/** packages/events/outbox.py: the at-least-once publisher over the leased table. */
module OutboxRelay {
  import opened Results
  import opened EventModels
  import opened EventStore
  import opened OutboxTable
  import Sorting

  datatype PublishBatch = PublishBatch(claimed: int, published: int, failed: int)

  // A claimed record after the transport accepted or refused its message.
  function Settled(r: OutboxRecord, accepts: OutboxMessage -> bool, now: int, retryDelay: int, error: string): OutboxRecord {
    if accepts(r.message) then Acknowledged(r, now) else Returned(r, now + retryDelay, error)
  }

  function AfterSettling(box: Box, ids: seq<OutboxId>, accepts: OutboxMessage -> bool, now: int, retryDelay: int, error: string): Box {
    map k | k in box :: if k in ids then Settled(box[k], accepts, now, retryDelay, error) else box[k]
  }

  function CountAccepted(box: Box, ids: seq<OutboxId>, accepts: OutboxMessage -> bool): nat {
    if ids == [] then 0 else
    var last := ids[|ids| - 1];
    CountAccepted(box, ids[..|ids| - 1], accepts) + if last in box && accepts(box[last].message) then 1 else 0
  }

  lemma {:induction false} SameMessages(a: Box, b: Box, ids: seq<OutboxId>, accepts: OutboxMessage -> bool)
    requires a.Keys == b.Keys && forall k | k in a :: a[k].message == b[k].message
    ensures CountAccepted(a, ids, accepts) == CountAccepted(b, ids, accepts)
  {
    if ids != [] { SameMessages(a, b, ids[..|ids| - 1], accepts); }
  }

  // Settling one more record, whose claim is still as it was.
  lemma SettledNext(box: Box, ids: seq<OutboxId>, id: OutboxId, accepts: OutboxMessage -> bool, now: int, retryDelay: int, error: string)
    requires id in box && id !in ids && box[id].status == Claimed
    ensures var done := AfterSettling(box, ids, accepts, now, retryDelay, error);
            && id in done && done[id] == box[id]
            && AfterSettling(box, ids + [id], accepts, now, retryDelay, error)
               == if accepts(box[id].message) then AfterMark(done, id, now) else AfterRelease(done, id, now + retryDelay, error)
  {
    hide Acknowledged, Returned;
    var done := AfterSettling(box, ids, accepts, now, retryDelay, error);
    assert forall k :: k in ids + [id] <==> k in ids || k == id;
  }

  lemma NothingSettled(box: Box, accepts: OutboxMessage -> bool, now: int, retryDelay: int, error: string)
    ensures AfterSettling(box, [], accepts, now, retryDelay, error) == box
  {
  }

  lemma CountNext(box: Box, ids: seq<OutboxId>, id: OutboxId, accepts: OutboxMessage -> bool)
    requires id in box
    ensures CountAccepted(box, ids + [id], accepts) == CountAccepted(box, ids, accepts) + if accepts(box[id].message) then 1 else 0
  {
    assert (ids + [id])[..|ids|] == ids;
  }

  class OutboxPublisher {
    const store: InMemoryEventStore
    const lease: int
    const retryDelay: int

    constructor (store: InMemoryEventStore, lease: int, retryDelay: int)
      requires lease > 0 && retryDelay >= 0
      ensures this.store == store && this.lease == lease && this.retryDelay == retryDelay
    {
      this.store, this.lease, this.retryDelay := store, lease, retryDelay;
    }

    // `accepts` is the transport: whether publishing a message returns or raises.
    method PublishPending(now: int, limit: int, accepts: OutboxMessage -> bool, error: string)
      returns (r: Result<PublishBatch, DeliveryError>)
      requires WellKeyed(store.outbox)
      modifies store`outbox
      ensures limit < 1 ==> r == Failure(LimitTooSmall) && store.outbox == old(store.outbox)
      ensures limit >= 1 ==> r.Success? && r.value.claimed == r.value.published + r.value.failed
      ensures limit >= 1 ==>
                exists ids :: FirstEligible(old(store.outbox), now, limit, ids)
                  && r.value.claimed == |ids| && r.value.published == CountAccepted(old(store.outbox), ids, accepts)
                  && store.outbox == AfterSettling(AfterClaim(old(store.outbox), now, lease, ids), ids, accepts, now, retryDelay, error)
    {
      if limit < 1 { return Failure(LimitTooSmall); }
      var claim := store.ClaimPending(now, limit, lease);
      var records := claim.value;
      assert forall i | 0 <= i < |records| :: Ids(records)[i] in Ids(records);
      ghost var claimed := store.outbox;
      var published, failed := SettleAll(records, now, accepts, error);
      SameMessages(claimed, old(store.outbox), Ids(records), accepts);
      assert FirstEligible(old(store.outbox), now, limit, Ids(records));
      return Success(PublishBatch(|records|, published, failed));
    }

    method SettleAll(records: seq<OutboxRecord>, now: int, accepts: OutboxMessage -> bool, error: string)
      returns (published: int, failed: int)
      requires Sorting.Distinct(Ids(records))
      requires forall i | 0 <= i < |records| :: Ids(records)[i] in store.outbox
                 && store.outbox[Ids(records)[i]] == records[i] && records[i].status == Claimed
      modifies store`outbox
      ensures published + failed == |records| && published == CountAccepted(old(store.outbox), Ids(records), accepts)
      ensures store.outbox == AfterSettling(old(store.outbox), Ids(records), accepts, now, retryDelay, error)
    {
      hide AfterSettling, CountAccepted, AfterMark, AfterRelease, Settled;
      ghost var box := store.outbox;
      published, failed := 0, 0;
      NothingSettled(box, accepts, now, retryDelay, error);
      NobodyCounted(box, accepts);
      assert Ids(records[..0]) == [];
      for i := 0 to |records|
        invariant published + failed == i && published == CountAccepted(box, Ids(records[..i]), accepts)
        invariant store.outbox == AfterSettling(box, Ids(records[..i]), accepts, now, retryDelay, error)
      {
        var record := records[i];
        var id := record.message.messageId;
        assert Ids(records[..i]) == Ids(records)[..i] && Ids(records)[i] == id;
        assert Ids(records[..i + 1]) == Ids(records[..i]) + [id];
        SettledNext(box, Ids(records[..i]), id, accepts, now, retryDelay, error);
        CountNext(box, Ids(records[..i]), id, accepts);
        if accepts(record.message) {
          var _ := store.MarkPublished(id, now);
          published := published + 1;
        } else {
          failed := failed + 1;
          var _ := store.ReleaseAfterFailure(id, now + retryDelay, error);
        }
      }
      assert records[..|records|] == records;
    }
  }

  lemma NobodyCounted(box: Box, accepts: OutboxMessage -> bool)
    ensures CountAccepted(box, [], accepts) == 0
  {
  }
}
