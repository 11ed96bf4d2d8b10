/** packages/events/memory.py:93-167: leasing, acknowledging and releasing outbox records. */
module OutboxTable {
  import opened Results
  import opened EventModels
  import opened Sorting

  type Box = map<OutboxId, OutboxRecord>

  ghost predicate WellKeyed(box: Box) {
    forall k | k in box :: box[k].message.messageId == k
  }

  predicate Eligible(r: OutboxRecord, now: int) {
    && r.status != Published
    && r.availableAt <= now
    && (r.status == PendingDelivery || r.claimedUntil == None || r.claimedUntil.value <= now)
  }

  function TypeRank(t: EventType): int {
    match t case Created => 0 case LifecycleChanged => 1 case Reconciled => 2
  }

  // A total order on message ids; which one it is never matters to the results below.
  predicate IdLe(a: OutboxId, b: OutboxId) {
    if a.commandMessageId == b.commandMessageId then TypeRank(a.eventType) <= TypeRank(b.eventType)
    else StrLe(a.commandMessageId, b.commandMessageId)
  }

  predicate RecordLe(a: OutboxRecord, b: OutboxRecord) {
    a.availableAt < b.availableAt || (a.availableAt == b.availableAt && IdLe(a.message.messageId, b.message.messageId))
  }

  lemma RecordLeIsTotalOrder()
    ensures TotalPreorder(RecordLe)
    ensures forall a, b | RecordLe(a, b) && RecordLe(b, a) :: a.message.messageId == b.message.messageId
  {
    forall a, b ensures StrLe(a, b) || StrLe(b, a) { StrLeTotal(a, b); }
    forall a, b | StrLe(a, b) && StrLe(b, a) ensures a == b { StrLeTotal(a, b); }
    forall a, b, c | RecordLe(a, b) && RecordLe(b, c) ensures RecordLe(a, c) {
      var x, y, z := a.message.messageId.commandMessageId, b.message.messageId.commandMessageId, c.message.messageId.commandMessageId;
      if StrLe(x, y) && StrLe(y, z) { StrLeTransitive(x, y, z); }
    }
  }

  function Leased(r: OutboxRecord, now: int, lease: int): OutboxRecord {
    r.(status := Claimed, attempts := r.attempts + 1, claimedUntil := Some(now + lease), lastError := None)
  }

  function Acknowledged(r: OutboxRecord, at: int): OutboxRecord {
    r.(status := Published, claimedUntil := None, publishedAt := Some(at), lastError := None)
  }

  function Returned(r: OutboxRecord, retryAt: int, error: string): OutboxRecord {
    r.(status := PendingDelivery, availableAt := retryAt, claimedUntil := None, lastError := Some(error))
  }

  /** ids is what a claim at `now` must take: the first `limit` eligible records by (available_at, id). */
  ghost predicate FirstEligible(box: Box, now: int, limit: nat, ids: seq<OutboxId>) {
    && |ids| <= limit && Distinct(ids)
    && (forall k | k in ids :: k in box && Eligible(box[k], now))
    && (forall i, j | 0 <= i < j < |ids| :: RecordLe(box[ids[i]], box[ids[j]]))
    && (forall k | k in box && Eligible(box[k], now) && k !in ids ::
          |ids| == limit && forall i | 0 <= i < |ids| :: RecordLe(box[ids[i]], box[k]))
  }

  function AfterClaim(box: Box, now: int, lease: int, ids: seq<OutboxId>): Box {
    map k | k in box :: if k in ids then Leased(box[k], now, lease) else box[k]
  }

  function AfterMark(box: Box, id: OutboxId, at: int): Box {
    if id !in box || box[id].status == Published then box else box[id := Acknowledged(box[id], at)]
  }

  function AfterRelease(box: Box, id: OutboxId, retryAt: int, error: string): Box {
    if id !in box || box[id].status == Published then box else box[id := Returned(box[id], retryAt, error)]
  }

  lemma RecordOrder(a: OutboxRecord, b: OutboxRecord)
    ensures RecordLe(a, a)
    ensures RecordLe(a, b) && RecordLe(b, a) ==> a.message.messageId == b.message.messageId
  {
    StrLeTotal(a.message.messageId.commandMessageId, a.message.messageId.commandMessageId);
    StrLeTotal(a.message.messageId.commandMessageId, b.message.messageId.commandMessageId);
  }

  /** A claim has no freedom: its batch is determined by the table, the clock and the limit. */
  lemma {:induction false} ClaimIsDetermined(box: Box, now: int, limit: nat, a: seq<OutboxId>, b: seq<OutboxId>)
    requires WellKeyed(box) && FirstEligible(box, now, limit, a) && FirstEligible(box, now, limit, b)
    ensures a == b
  {
    if |a| <= |b| {
      ClaimsAgree(box, now, limit, a, b, |a|);
      NoEarlyStop(box, now, limit, a, b);
    } else {
      ClaimsAgree(box, now, limit, b, a, |b|);
      NoEarlyStop(box, now, limit, b, a);
    }
  }

  lemma NextIsNew(a: seq<OutboxId>, b: seq<OutboxId>)
    requires Distinct(b) && |a| < |b| && a == b[..|a|]
    ensures b[|a|] in b && b[|a|] !in a
  {
  }

  lemma NoEarlyStop(box: Box, now: int, limit: nat, a: seq<OutboxId>, b: seq<OutboxId>)
    requires FirstEligible(box, now, limit, a) && FirstEligible(box, now, limit, b)
    requires |a| <= |b| && a == b[..|a|]
    ensures a == b
  {
    if |a| < |b| {
      NextIsNew(a, b);
    }
  }

  lemma {:induction false} ClaimsAgree(box: Box, now: int, limit: nat, a: seq<OutboxId>, b: seq<OutboxId>, n: nat)
    requires WellKeyed(box) && FirstEligible(box, now, limit, a) && FirstEligible(box, now, limit, b)
    requires n <= |a| && n <= |b|
    ensures a[..n] == b[..n]
  {
    if n > 0 {
      ClaimsAgree(box, now, limit, a, b, n - 1);
      NoLaterThan(box, now, limit, a, b, n - 1);
      NoLaterThan(box, now, limit, b, a, n - 1);
      RecordOrder(box[a[n - 1]], box[b[n - 1]]);
      assert a[..n] == a[..n - 1] + [a[n - 1]] && b[..n] == b[..n - 1] + [b[n - 1]];
    }
  }

  lemma IndexPast(a: seq<OutboxId>, b: seq<OutboxId>, i: nat) returns (j: nat)
    requires Distinct(b) && i < |a| && i < |b| && a[..i] == b[..i] && b[i] in a
    ensures i <= j < |a| && a[j] == b[i]
  {
    j :| 0 <= j < |a| && a[j] == b[i];
    assert forall m | 0 <= m < i :: a[m] == a[..i][m] == b[m];
  }

  lemma NoLaterThan(box: Box, now: int, limit: nat, a: seq<OutboxId>, b: seq<OutboxId>, i: nat)
    requires FirstEligible(box, now, limit, a) && FirstEligible(box, now, limit, b)
    requires i < |a| && i < |b| && a[..i] == b[..i]
    ensures a[i] in box && b[i] in box && RecordLe(box[a[i]], box[b[i]])
  {
    hide RecordLe, Eligible;
    assert a[i] in a && b[i] in b;
    RecordOrder(box[b[i]], box[b[i]]);
    if b[i] in a {
      var j := IndexPast(a, b, i);
    }
  }

  // ----- The relay as a step system; a crash is a run that stops between two steps -----

  datatype Step =
    | Enqueue(message: OutboxMessage)
    | Claim(now: int, limit: nat, lease: nat, ids: seq<OutboxId>)
    | Deliver(id: OutboxId)
    | Mark(id: OutboxId, at: int)
    | Release(id: OutboxId, retryAt: int, error: string)

  // The table, how often each message was handed to a publisher, and how often the transport took it.
  datatype Relay = Relay(box: Box, claims: multiset<OutboxId>, delivered: multiset<OutboxId>)

  // What the publisher's program order guarantees before each step.
  ghost predicate Enabled(s: Relay, step: Step) {
    match step
    case Enqueue(_) => true
    case Claim(now, limit, lease, ids) => FirstEligible(s.box, now, limit, ids)
    case Deliver(id) => id in s.claims
    case Mark(id, _) => id in s.delivered
    case Release(id, _, _) => id in s.claims
  }

  function Take(s: Relay, step: Step): Relay {
    match step
    case Enqueue(m) =>
      if m.messageId in s.box then s
      else s.(box := s.box[m.messageId := OutboxRecord(m, PendingDelivery, 0, m.receivedAt, None, None, None)])
    case Claim(now, _, lease, ids) => s.(box := AfterClaim(s.box, now, lease, ids), claims := s.claims + multiset(ids))
    case Deliver(id) => s.(delivered := s.delivered + multiset{id})
    case Mark(id, at) => s.(box := AfterMark(s.box, id, at))
    case Release(id, retryAt, error) => s.(box := AfterRelease(s.box, id, retryAt, error))
  }

  function After(s: Relay, steps: seq<Step>): Relay {
    if steps == [] then s else Take(After(s, steps[..|steps| - 1]), steps[|steps| - 1])
  }

  ghost predicate CanRun(s: Relay, steps: seq<Step>) {
    forall i | 0 <= i < |steps| :: Enabled(After(s, steps[..i]), steps[i])
  }

  const IDLE: Relay := Relay(map[], multiset{}, multiset{})

  ghost predicate RelayInv(s: Relay) {
    && WellKeyed(s.box)
    && (forall k | k in s.claims :: k in s.box)
    && (forall k | k in s.delivered :: k in s.claims)
    && (forall k | k in s.box ::
          && s.box[k].attempts == s.claims[k]
          && (s.box[k].status == Published ==> s.delivered[k] >= 1)
          && (s.box[k].status == Claimed <==> s.box[k].claimedUntil.Some?))
  }

  lemma ClaimKeepsInv(s: Relay, now: int, limit: nat, lease: nat, ids: seq<OutboxId>)
    requires RelayInv(s) && FirstEligible(s.box, now, limit, ids)
    ensures RelayInv(Take(s, Claim(now, limit, lease, ids)))
  {
    hide RecordLe, Eligible, Leased;
    MultiplicityOne(ids);
    assert forall k | k in ids :: k in s.box && s.box[k].status != Published by { ClaimedWereOpen(s.box, now, limit, ids); }
    hide FirstEligible, Distinct;
    forall k ensures multiset(ids)[k] == if k in ids then 1 else 0 { assert k in ids <==> k in multiset(ids); }
    BatchKeepsInv(s, now, lease, ids);
  }

  lemma ClaimedWereOpen(box: Box, now: int, limit: nat, ids: seq<OutboxId>)
    requires FirstEligible(box, now, limit, ids)
    ensures forall k | k in ids :: k in box && box[k].status != Published
  {
  }

  lemma BatchKeepsInv(s: Relay, now: int, lease: nat, ids: seq<OutboxId>)
    requires RelayInv(s) && (forall k | k in ids :: k in s.box) && forall k :: multiset(ids)[k] == if k in ids then 1 else 0
    ensures RelayInv(s.(box := AfterClaim(s.box, now, lease, ids), claims := s.claims + multiset(ids)))
  {
    var claims := s.claims + multiset(ids);
    forall k ensures claims[k] == s.claims[k] + if k in ids then 1 else 0 {}
  }

  lemma UpdateKeepsInv(s: Relay, k: OutboxId, r: OutboxRecord)
    requires RelayInv(s) && r.message.messageId == k && r.attempts == s.claims[k]
    requires r.status == Published ==> s.delivered[k] >= 1
    requires r.status == Claimed <==> r.claimedUntil.Some?
    ensures RelayInv(s.(box := s.box[k := r]))
  {
  }

  lemma DeliverKeepsInv(s: Relay, id: OutboxId)
    requires RelayInv(s) && id in s.claims
    ensures RelayInv(s.(delivered := s.delivered + multiset{id}))
  {
  }

  lemma MarkKeepsInv(s: Relay, id: OutboxId, at: int)
    requires RelayInv(s) && id in s.delivered
    ensures RelayInv(Take(s, Mark(id, at)))
  {
    UpdateKeepsInv(s, id, if s.box[id].status == Published then s.box[id] else Acknowledged(s.box[id], at));
  }

  lemma ReleaseKeepsInv(s: Relay, id: OutboxId, retryAt: int, error: string)
    requires RelayInv(s) && id in s.claims
    ensures RelayInv(Take(s, Release(id, retryAt, error)))
  {
    UpdateKeepsInv(s, id, if s.box[id].status == Published then s.box[id] else Returned(s.box[id], retryAt, error));
  }

  lemma EnqueueKeepsInv(s: Relay, m: OutboxMessage)
    requires RelayInv(s)
    ensures RelayInv(Take(s, Enqueue(m)))
  {
    if m.messageId !in s.box {
      UpdateKeepsInv(s, m.messageId, OutboxRecord(m, PendingDelivery, 0, m.receivedAt, None, None, None));
    }
  }

  lemma TakeKeepsInv(s: Relay, step: Step)
    requires RelayInv(s) && Enabled(s, step)
    ensures RelayInv(Take(s, step))
  {
    hide FirstEligible, RelayInv, AfterClaim, AfterMark, AfterRelease;
    match step
    case Enqueue(m) => EnqueueKeepsInv(s, m);
    case Claim(now, limit, lease, ids) => ClaimKeepsInv(s, now, limit, lease, ids);
    case Deliver(id) => DeliverKeepsInv(s, id);
    case Mark(id, at) => MarkKeepsInv(s, id, at);
    case Release(id, retryAt, error) => ReleaseKeepsInv(s, id, retryAt, error);
  }

  lemma PrefixRuns(s: Relay, steps: seq<Step>, n: nat)
    requires CanRun(s, steps) && n <= |steps|
    ensures CanRun(s, steps[..n])
  {
    forall i | 0 <= i < n ensures Enabled(After(s, steps[..n][..i]), steps[..n][i]) {
      assert steps[..n][..i] == steps[..i];
    }
  }

  /** On every run, crashes included: `attempts` counts the claims, and PUBLISHED means delivered at least once. */
  lemma {:induction false} RunKeepsRelayInv(steps: seq<Step>)
    requires CanRun(IDLE, steps)
    ensures RelayInv(After(IDLE, steps))
    decreases |steps|
  {
    if steps != [] {
      var n := |steps| - 1;
      PrefixRuns(IDLE, steps, n);
      RunKeepsRelayInv(steps[..n]);
      TakeKeepsInv(After(IDLE, steps[..n]), steps[n]);
    }
  }

  // Later states know every message earlier ones knew, unaltered, and PUBLISHED is final.
  ghost predicate Preserves(a: Box, b: Box) {
    forall k | k in a :: k in b && b[k].message == a[k].message && (a[k].status == Published ==> b[k] == a[k])
  }

  lemma StepPreserves(s: Relay, step: Step)
    requires Enabled(s, step)
    ensures Preserves(s.box, Take(s, step).box)
  {
    hide RecordLe;
  }

  /** No message is lost or rewritten, and a published record is never touched again. */
  lemma {:induction false} NothingIsLost(steps: seq<Step>, i: nat)
    requires CanRun(IDLE, steps) && i <= |steps|
    ensures Preserves(After(IDLE, steps[..i]).box, After(IDLE, steps).box)
    decreases |steps|
  {
    hide Enabled, Take;
    if i == |steps| {
      assert steps[..i] == steps;
    } else {
      var n := |steps| - 1;
      PrefixRuns(IDLE, steps, n);
      assert steps[..n][..i] == steps[..i];
      NothingIsLost(steps[..n], i);
      StepPreserves(After(IDLE, steps[..n]), steps[n]);
    }
  }

  /** Whatever interrupted it, an unpublished message is claimable again from some time on. */
  lemma NothingIsStranded(s: Relay, k: OutboxId, now: int)
    requires RelayInv(s) && k in s.box && s.box[k].status != Published
    requires now >= s.box[k].availableAt
    requires s.box[k].status == Claimed ==> now >= s.box[k].claimedUntil.value
    ensures Eligible(s.box[k], now)
  {
  }

  // The lease taken on k lasts at least until `until`, or k is already published.
  ghost predicate Held(box: Box, k: OutboxId, until: int) {
    k in box && (box[k].status == Published || (box[k].status == Claimed && box[k].claimedUntil.Some? && box[k].claimedUntil.value >= until))
  }

  lemma LeaseTaken(s: Relay, step: Step, k: OutboxId)
    requires step.Claim? && k in step.ids && Enabled(s, step)
    ensures Held(Take(s, step).box, k, step.now + step.lease)
  {
    hide RecordLe;
  }

  lemma HeldThrough(s: Relay, step: Step, k: OutboxId, until: int)
    requires Enabled(s, step) && Held(s.box, k, until) && !(step.Release? && step.id == k)
    ensures Held(Take(s, step).box, k, until)
  {
    hide RecordLe;
  }

  lemma {:induction false} LeaseHolds(s: Relay, steps: seq<Step>, i: nat, j: nat, k: OutboxId)
    requires CanRun(s, steps) && i < j <= |steps|
    requires steps[i].Claim? && k in steps[i].ids
    requires forall n | i < n < j :: !(steps[n].Release? && steps[n].id == k)
    ensures Held(After(s, steps[..j]).box, k, steps[i].now + steps[i].lease)
    decreases j
  {
    hide Enabled, Take, Held;
    assert steps[..j][..j - 1] == steps[..j - 1];
    var before := After(s, steps[..j - 1]);
    if i == j - 1 {
      LeaseTaken(before, steps[i], k);
    } else {
      LeaseHolds(s, steps, i, j - 1, k);
      HeldThrough(before, steps[j - 1], k, steps[i].now + steps[i].lease);
    }
  }

  /** A message is handed out twice within one lease only after it was released in between. */
  lemma LeaseIsExclusive(s: Relay, steps: seq<Step>, i: nat, j: nat, k: OutboxId)
    requires CanRun(s, steps) && i < j < |steps|
    requires steps[i].Claim? && k in steps[i].ids
    requires steps[j].Claim? && k in steps[j].ids
    requires forall n | i < n < j :: !(steps[n].Release? && steps[n].id == k)
    ensures steps[j].now >= steps[i].now + steps[i].lease
  {
    hide RecordLe, Take;
    LeaseHolds(s, steps, i, j, k);
    assert Enabled(After(s, steps[..j]), steps[j]);
  }
}
