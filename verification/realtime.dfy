/** apps/api/realtime.py: full-snapshot ordering fences and latest-only fan-out.
    One publish and one topic's delivery are the atomic steps between which connections interleave. */
module Realtime {
  import opened Results

  datatype Topic = ThemeRank | ThemeTreemap | EventStateChanged

  // A topic with its normalised parameters.
  datatype Scope = Scope(topic: Topic, params: string)

  datatype Snapshot = Snapshot(snapshotId: string, streamId: string, sequence: int, schemaVersion: string, contentHash: string)

  datatype Disposition = Applied | Duplicate | OutOfOrder | RetiredStream

  // What the hub keeps per scope.
  datatype Fence = Fence(latest: Option<Snapshot>, retired: set<string>)

  const OPEN_FENCE: Fence := Fence(None, {})

  function Admit(f: Fence, s: Snapshot): (Fence, Disposition) {
    if f.latest.Some? && s.streamId == f.latest.value.streamId then
      var current := f.latest.value;
      if s.sequence < current.sequence then (f, OutOfOrder)
      else if s.sequence == current.sequence then
        (f, if s.snapshotId == current.snapshotId && s.contentHash == current.contentHash then Duplicate else OutOfOrder)
      else (f.(latest := Some(s)), Applied)
    else if f.latest.Some? then
      if s.streamId in f.retired then (f, RetiredStream)
      else (Fence(Some(s), f.retired + {f.latest.value.streamId}), Applied)
    else (f.(latest := Some(s)), Applied)
  }

  // ----- One scope's history of applied snapshots -----

  function Streams(h: seq<Snapshot>): set<string> { set s | s in h :: s.streamId }

  /** Each stream is one contiguous block with strictly increasing sequence numbers. */
  ghost predicate Blocks(h: seq<Snapshot>) {
    && (forall i, j | 0 <= i < j < |h| && h[i].streamId == h[j].streamId :: h[i].sequence < h[j].sequence)
    && (forall i, j, k | 0 <= i < k < j < |h| && h[i].streamId == h[j].streamId :: h[k].streamId == h[i].streamId)
  }

  /** The fence is the end of the history, and the retired streams are exactly the earlier ones. */
  ghost predicate Guards(h: seq<Snapshot>, f: Fence) {
    && Blocks(h)
    && (if h == [] then f == OPEN_FENCE
        else f.latest == Some(h[|h| - 1]) && f.retired == Streams(h) - {h[|h| - 1].streamId})
  }

  lemma StreamsAppend(h: seq<Snapshot>, s: Snapshot)
    ensures Streams(h + [s]) == Streams(h) + {s.streamId}
  {
    forall x ensures x in Streams(h + [s]) <==> x in Streams(h) + {s.streamId} {
      assert forall y | y in h + [s] :: y in h || y == s;
      assert forall y | y in h :: y in h + [s];
      assert s in h + [s];
    }
  }

  lemma NewStreamStarts(h: seq<Snapshot>, s: Snapshot)
    requires Blocks(h) && s.streamId !in Streams(h)
    ensures Blocks(h + [s])
  {
    forall i | 0 <= i < |h| ensures h[i].streamId != s.streamId { assert h[i] in h; }
  }

  lemma AdmitGuards(h: seq<Snapshot>, f: Fence, s: Snapshot)
    requires Guards(h, f)
    ensures var (f', d) := Admit(f, s); Guards(if d == Applied then h + [s] else h, f')
  {
    hide Blocks, Streams;
    StreamsAppend(h, s);
    if h == [] {
      assert Streams([]) == {} by { NoStreams(); }
      NewStreamStarts(h, s);
    } else {
      LastStream(h);
      if s.streamId == h[|h| - 1].streamId {
        if s.sequence > h[|h| - 1].sequence { SameStreamContinues(h, s); }
      } else if s.streamId !in f.retired {
        NewStreamStarts(h, s);
      }
    }
  }

  lemma NoStreams()
    ensures Streams([]) == {} && Blocks([])
  {
  }

  lemma LastStream(h: seq<Snapshot>)
    requires h != []
    ensures h[|h| - 1].streamId in Streams(h)
  {
    assert h[|h| - 1] in h;
  }

  lemma SameStreamContinues(h: seq<Snapshot>, s: Snapshot)
    requires Blocks(h) && h != [] && s.streamId == h[|h| - 1].streamId && s.sequence > h[|h| - 1].sequence
    ensures Blocks(h + [s])
  {
    var h', n := h + [s], |h| - 1;
    forall i | 0 <= i < |h| && h[i].streamId == s.streamId
      ensures h[i].sequence < s.sequence && forall k | i < k < |h| :: h[k].streamId == s.streamId
    {
    }
  }

  function Admitted(published: seq<Snapshot>): (Fence, seq<Snapshot>) {
    if published == [] then (OPEN_FENCE, []) else
    var n := |published| - 1;
    var (f, h) := Admitted(published[..n]);
    var (f', d) := Admit(f, published[n]);
    (f', if d == Applied then h + [published[n]] else h)
  }

  /** For any stream of publishes to a scope, in whatever order they arrive. */
  lemma {:induction false} HistoryIsFenced(published: seq<Snapshot>)
    ensures var (f, h) := Admitted(published); Guards(h, f)
  {
    if published != [] {
      var n := |published| - 1;
      HistoryIsFenced(published[..n]);
      AdmitGuards(Admitted(published[..n]).1, Admitted(published[..n]).0, published[n]);
    }
  }

  // ----- What one subscription sees of a scope -----

  datatype Version = Version(streamId: string, sequence: int, snapshotId: string)

  function VersionOf(s: Snapshot): Version { Version(s.streamId, s.sequence, s.snapshotId) }

  /** sent picks entries of h at strictly increasing positions. */
  ghost predicate Subsequence(sent: seq<Snapshot>, h: seq<Snapshot>)
    decreases |sent|, 1
  {
    sent == [] || exists p :: EndsAt(sent, h, p)
  }

  // The last snapshot sent is the history's p-th, and the earlier ones come from before it.
  ghost predicate EndsAt(sent: seq<Snapshot>, h: seq<Snapshot>, p: int)
    requires sent != []
    decreases |sent|, 0
  {
    0 <= p < |h| && h[p] == sent[|sent| - 1] && Subsequence(sent[..|sent| - 1], h[..p])
  }

  lemma SubsequenceExtends(sent: seq<Snapshot>, h: seq<Snapshot>, more: seq<Snapshot>)
    requires Subsequence(sent, h)
    ensures Subsequence(sent, h + more)
  {
    if sent != [] {
      var p :| EndsAt(sent, h, p);
      assert (h + more)[..p] == h[..p];
      assert EndsAt(sent, h + more, p);
    }
  }

  lemma SubsequenceSnoc(sent: seq<Snapshot>, h: seq<Snapshot>, p: nat)
    requires p < |h| && Subsequence(sent, h[..p])
    ensures Subsequence(sent + [h[p]], h)
  {
    assert (sent + [h[p]])[..|sent|] == sent;
    assert EndsAt(sent + [h[p]], h, p);
  }

  lemma BeforeTheEnd(sent: seq<Snapshot>, h: seq<Snapshot>)
    requires Subsequence(sent, h) && h != [] && (sent == [] || sent[|sent| - 1] != h[|h| - 1])
    ensures Subsequence(sent, h[..|h| - 1])
  {
    var n := |h| - 1;
    if sent != [] {
      var p :| EndsAt(sent, h, p);
      assert h[..n][..p] == h[..p];
      assert EndsAt(sent, h[..n], p);
    }
  }

  /** Sending the end of the history after anything but the end itself moves strictly forward. */
  lemma SendingMovesForward(sent: seq<Snapshot>, h: seq<Snapshot>)
    requires Subsequence(sent, h) && h != []
    requires sent == [] || VersionOf(sent[|sent| - 1]) != VersionOf(h[|h| - 1])
    ensures Subsequence(sent + [h[|h| - 1]], h)
  {
    BeforeTheEnd(sent, h);
    SubsequenceSnoc(sent, h, |h| - 1);
  }

  // ----- The hub and its connections, step by step -----

  // A subscription's view of one of its topics.
  type Key = (string, Scope)

  datatype World = World(
    fences: map<Scope, Fence>, history: map<Scope, seq<Snapshot>>,
    topics: map<string, seq<Scope>>, used: set<string>,
    lastSent: map<Key, Version>, sent: map<Key, seq<Snapshot>>)

  const QUIET_WORLD: World := World(map[], map[], map[], {}, map[], map[])

  datatype Step =
    | Publish(scope: Scope, snapshot: Snapshot)
    | Subscribe(id: string, scopes: seq<Scope>)
    | Unsubscribe(id: string)
    | Deliver(id: string, target: Scope)

  function FenceOf(fences: map<Scope, Fence>, scope: Scope): Fence { if scope in fences then fences[scope] else OPEN_FENCE }

  function HistoryOf(w: World, scope: Scope): seq<Snapshot> { if scope in w.history then w.history[scope] else [] }

  function SentOf(w: World, key: Key): seq<Snapshot> { if key in w.sent then w.sent[key] else [] }

  // Whether a topic's latest snapshot goes out: it is new to the subscription and its schema is spoken here.
  predicate Sends(lastSent: map<Key, Version>, key: Key, latest: Option<Snapshot>, schema: string) {
    && latest.Some?
    && !(key in lastSent && lastSent[key] == VersionOf(latest.value))
    && latest.value.schemaVersion == schema
  }

  // One topic's delivery: what is remembered and what was sent afterwards.
  function Delivered(lastSent: map<Key, Version>, sent: map<Key, seq<Snapshot>>, key: Key, latest: Option<Snapshot>, schema: string)
    : (map<Key, Version>, map<Key, seq<Snapshot>>)
  {
    if Sends(lastSent, key, latest, schema) then
      (lastSent[key := VersionOf(latest.value)], sent[key := (if key in sent then sent[key] else []) + [latest.value]])
    else (lastSent, sent)
  }

  // Subscription ids are fresh random tokens; only subscribed topics are delivered.
  ghost predicate Enabled(w: World, step: Step) {
    match step
    case Publish(_, _) => true
    case Subscribe(id, _) => id !in w.used
    case Unsubscribe(id) => id in w.topics
    case Deliver(id, scope) => id in w.topics && scope in w.topics[id]
  }

  function Take(w: World, step: Step, schema: string): World {
    match step
    case Publish(scope, s) =>
      var (f, d) := Admit(FenceOf(w.fences, scope), s);
      w.(fences := w.fences[scope := f],
         history := if d == Applied then w.history[scope := HistoryOf(w, scope) + [s]] else w.history)
    case Subscribe(id, scopes) => w.(topics := w.topics[id := scopes], used := w.used + {id})
    case Unsubscribe(id) =>
      w.(topics := w.topics - {id}, lastSent := map k | k in w.lastSent && k.0 != id :: w.lastSent[k])
    case Deliver(id, scope) =>
      var (lastSent, sent) := Delivered(w.lastSent, w.sent, (id, scope), FenceOf(w.fences, scope).latest, schema);
      w.(lastSent := lastSent, sent := sent)
  }

  // A live subscription remembers exactly the last snapshot it was sent.
  ghost predicate Remembers(w: World, key: Key) {
    && (key.0 !in w.used ==> SentOf(w, key) == [] && key !in w.lastSent)
    && (key.0 in w.topics ==>
          (key in w.lastSent <==> SentOf(w, key) != [])
          && (key in w.lastSent ==> w.lastSent[key] == VersionOf(SentOf(w, key)[|SentOf(w, key)| - 1])))
  }

  ghost predicate WorldInv(w: World) {
    && (forall scope :: Guards(HistoryOf(w, scope), FenceOf(w.fences, scope)))
    && (forall key: Key :: Subsequence(SentOf(w, key), HistoryOf(w, key.1)))
    && (forall key: Key :: Remembers(w, key))
    && w.topics.Keys <= w.used
  }

  lemma PublishKeepsInv(w: World, scope: Scope, s: Snapshot, schema: string)
    requires WorldInv(w)
    ensures WorldInv(Take(w, Publish(scope, s), schema))
  {
    hide Guards, Subsequence, Admit;
    var w' := Take(w, Publish(scope, s), schema);
    forall x ensures Guards(HistoryOf(w', x), FenceOf(w'.fences, x)) {
      assert Guards(HistoryOf(w, x), FenceOf(w.fences, x));
      if x == scope { AdmitGuards(HistoryOf(w, scope), FenceOf(w.fences, scope), s); }
    }
    forall key: Key ensures Subsequence(SentOf(w', key), HistoryOf(w', key.1)) {
      SubsequenceExtends(SentOf(w, key), HistoryOf(w, key.1), [s]);
    }
    forall key: Key ensures Remembers(w', key) { assert Remembers(w, key); }
  }

  lemma DeliverKeepsInv(w: World, id: string, scope: Scope, schema: string)
    requires WorldInv(w) && Enabled(w, Deliver(id, scope))
    ensures WorldInv(Take(w, Deliver(id, scope), schema))
  {
    hide Blocks, Subsequence;
    var w', key := Take(w, Deliver(id, scope), schema), (id, scope);
    assert Remembers(w, key) && Guards(HistoryOf(w, scope), FenceOf(w.fences, scope));
    forall x ensures Guards(HistoryOf(w', x), FenceOf(w'.fences, x)) {
      assert Guards(HistoryOf(w, x), FenceOf(w.fences, x));
    }
    forall k: Key ensures Subsequence(SentOf(w', k), HistoryOf(w', k.1)) {
      assert Subsequence(SentOf(w, k), HistoryOf(w, k.1));
      if k == key && w' != w {
        SendingMovesForward(SentOf(w, key), HistoryOf(w, scope));
      }
    }
    forall k: Key ensures Remembers(w', k) { assert Remembers(w, k); }
  }

  lemma TakeKeepsInv(w: World, step: Step, schema: string)
    requires WorldInv(w) && Enabled(w, step)
    ensures WorldInv(Take(w, step, schema))
  {
    match step
    case Publish(scope, s) => PublishKeepsInv(w, scope, s, schema);
    case Deliver(id, scope) => DeliverKeepsInv(w, id, scope, schema);
    case Subscribe(id, scopes) => SubscriptionsKeepInv(w, step, schema);
    case Unsubscribe(id) => SubscriptionsKeepInv(w, step, schema);
  }

  lemma SubscriptionsKeepInv(w: World, step: Step, schema: string)
    requires WorldInv(w) && Enabled(w, step) && (step.Subscribe? || step.Unsubscribe?)
    ensures WorldInv(Take(w, step, schema))
  {
    hide Guards, Subsequence;
    var w' := Take(w, step, schema);
    forall x ensures Guards(HistoryOf(w', x), FenceOf(w'.fences, x)) {
      assert Guards(HistoryOf(w, x), FenceOf(w.fences, x));
    }
    forall k: Key ensures Subsequence(SentOf(w', k), HistoryOf(w', k.1)) {
      assert Subsequence(SentOf(w, k), HistoryOf(w, k.1));
    }
    forall k: Key ensures Remembers(w', k) { assert Remembers(w, k); }
  }

  function After(steps: seq<Step>, schema: string): World {
    if steps == [] then QUIET_WORLD else Take(After(steps[..|steps| - 1], schema), steps[|steps| - 1], schema)
  }

  ghost predicate CanRun(steps: seq<Step>, schema: string) {
    forall i | 0 <= i < |steps| :: Enabled(After(steps[..i], schema), steps[i])
  }

  lemma QuietWorldInv()
    ensures WorldInv(QUIET_WORLD)
  {
    forall scope ensures Guards(HistoryOf(QUIET_WORLD, scope), FenceOf(QUIET_WORLD.fences, scope)) { NoStreams(); }
  }

  /** However publishes, subscriptions and deliveries interleave: every scope's history is fenced, and what each
      subscription was sent is a strictly advancing selection of it. */
  lemma {:induction false} EveryRunIsFenced(steps: seq<Step>, schema: string)
    requires CanRun(steps, schema)
    ensures WorldInv(After(steps, schema))
    decreases |steps|
  {
    hide WorldInv, Take, Enabled;
    if steps == [] {
      QuietWorldInv();
    } else {
      var n := |steps| - 1;
      forall i | 0 <= i < n ensures Enabled(After(steps[..n][..i], schema), steps[..n][i]) {
        assert steps[..n][..i] == steps[..i];
      }
      EveryRunIsFenced(steps[..n], schema);
      TakeKeepsInv(After(steps[..n], schema), steps[n], schema);
    }
  }

  lemma SameVersionIsSameEntry(sent: seq<Snapshot>, h: seq<Snapshot>)
    requires Blocks(h) && h != [] && sent != [] && Subsequence(sent, h)
    requires VersionOf(sent[|sent| - 1]) == VersionOf(h[|h| - 1])
    ensures sent[|sent| - 1] == h[|h| - 1]
  {
    var p :| EndsAt(sent, h, p);
    assert h[p].streamId == h[|h| - 1].streamId && h[p].sequence == h[|h| - 1].sequence;
    assert p == |h| - 1;
  }

  /** After a topic was drained the subscription's last snapshot is the latest one, if its schema is spoken here. */
  lemma DrainedShowsLatest(w: World, id: string, scope: Scope, schema: string)
    requires WorldInv(w) && Enabled(w, Deliver(id, scope))
    requires FenceOf(w.fences, scope).latest.Some?
    requires FenceOf(w.fences, scope).latest.value.schemaVersion == schema
    ensures var sent := SentOf(Take(w, Deliver(id, scope), schema), (id, scope));
            sent != [] && sent[|sent| - 1] == FenceOf(w.fences, scope).latest.value
  {
    hide Subsequence, Blocks;
    var key, h := (id, scope), HistoryOf(w, scope);
    assert Remembers(w, key) && Guards(h, FenceOf(w.fences, scope));
    assert Subsequence(SentOf(w, key), h);
    if key in w.lastSent && w.lastSent[key] == VersionOf(h[|h| - 1]) {
      SameVersionIsSameEntry(SentOf(w, key), h);
    }
  }

  // ----- The objects -----

  class RealtimeSnapshotHub {
    var latest: map<Scope, Snapshot>
    var retired: map<Scope, set<string>>
    var subscriptions: map<int, map<string, seq<Scope>>>
    // The event bit of each listener.
    var notified: set<int>

    constructor ()
      ensures latest == map[] && retired == map[] && subscriptions == map[] && notified == {}
    {
      latest, retired, subscriptions, notified := map[], map[], map[], {};
    }

    function FenceAt(scope: Scope): Fence
      reads this
    {
      Fence(if scope in latest then Some(latest[scope]) else None, if scope in retired then retired[scope] else {})
    }

    predicate Listens(listener: int, scope: Scope)
      reads this
    {
      listener in subscriptions && exists id | id in subscriptions[listener] :: scope in subscriptions[listener][id]
    }

    method Publish(scope: Scope, s: Snapshot) returns (d: Disposition)
      modifies this`latest, this`retired, this`notified
      ensures (FenceAt(scope), d) == Admit(old(FenceAt(scope)), s)
      ensures forall x | x != scope :: FenceAt(x) == old(FenceAt(x))
      ensures notified == old(notified) + if d == Applied then set l | l in subscriptions && Listens(l, scope) else {}
    {
      if scope in latest && s.streamId == latest[scope].streamId {
        if s.sequence < latest[scope].sequence { return OutOfOrder; }
        if s.sequence == latest[scope].sequence {
          if s.snapshotId == latest[scope].snapshotId && s.contentHash == latest[scope].contentHash { return Duplicate; }
          return OutOfOrder;
        }
      } else if scope in latest {
        var streams := if scope in retired then retired[scope] else {};
        if s.streamId in streams { return RetiredStream; }
        retired := retired[scope := streams + {latest[scope].streamId}];
      }
      latest := latest[scope := s];
      notified := notified + set l | l in subscriptions && Listens(l, scope);
      return Applied;
    }

    // A listener's wait is over once its event is set, and clears it.
    method Wait(listener: int) returns (woken: bool)
      modifies this`notified
      ensures woken <==> listener in old(notified)
      ensures notified == old(notified) - {listener}
    {
      woken := listener in notified;
      notified := notified - {listener};
    }

    method OpenListener(listener: int)
      requires listener !in subscriptions
      modifies this`subscriptions
      ensures subscriptions == old(subscriptions)[listener := map[]]
    {
      subscriptions := subscriptions[listener := map[]];
    }

    method AddSubscription(listener: int, id: string, scopes: seq<Scope>) returns (open: bool)
      modifies this`subscriptions
      ensures open <==> listener in old(subscriptions)
      ensures subscriptions == if open then old(subscriptions)[listener := old(subscriptions)[listener][id := scopes]]
                               else old(subscriptions)
    {
      if listener !in subscriptions { return false; }
      subscriptions := subscriptions[listener := subscriptions[listener][id := scopes]];
      return true;
    }

    method RemoveSubscription(listener: int, id: string) returns (removed: bool)
      modifies this`subscriptions
      ensures removed <==> listener in old(subscriptions) && id in old(subscriptions)[listener]
      ensures subscriptions == if removed then old(subscriptions)[listener := old(subscriptions)[listener] - {id}]
                               else old(subscriptions)
    {
      if listener !in subscriptions || id !in subscriptions[listener] { return false; }
      subscriptions := subscriptions[listener := subscriptions[listener] - {id}];
      return true;
    }

    method CloseListener(listener: int)
      modifies this`subscriptions
      ensures subscriptions == old(subscriptions) - {listener}
    {
      subscriptions := subscriptions - {listener};
    }
  }

  class Connection {
    const hub: RealtimeSnapshotHub
    const listener: int
    const schema: string
    var lastSent: map<Key, Version>
    // Everything sent so far, per subscription and topic.
    ghost var sent: map<Key, seq<Snapshot>>

    constructor (hub: RealtimeSnapshotHub, listener: int, schema: string)
      ensures this.hub == hub && this.listener == listener && this.schema == schema
      ensures lastSent == map[] && sent == map[]
    {
      this.hub, this.listener, this.schema := hub, listener, schema;
      lastSent, sent := map[], map[];
    }

    method DeliverTopic(id: string, scope: Scope) returns (out: Option<Snapshot>)
      modifies this
      ensures (lastSent, sent) == Delivered(old(lastSent), old(sent), (id, scope), hub.FenceAt(scope).latest, schema)
      ensures out == if Sends(old(lastSent), (id, scope), hub.FenceAt(scope).latest, schema) then hub.FenceAt(scope).latest else None
    {
      if scope !in hub.latest { return None; }
      var snapshot := hub.latest[scope];
      var key := (id, scope);
      if key in lastSent && lastSent[key] == VersionOf(snapshot) { return None; }
      if snapshot.schemaVersion != schema { return None; }
      lastSent := lastSent[key := VersionOf(snapshot)];
      sent := sent[key := (if key in sent then sent[key] else []) + [snapshot]];
      return Some(snapshot);
    }

    // What one delivery does to a subscription's topic: the latest snapshot goes out once if it is due, or nothing happens.
    ghost predicate DeliveredOnce(key: Key, last0: map<Key, Version>, sent0: map<Key, seq<Snapshot>>)
      reads this, hub
    {
      var latest := hub.FenceAt(key.1).latest;
      if Sends(last0, key, latest, schema) then
        && key in lastSent && lastSent[key] == VersionOf(latest.value)
        && key in sent && sent[key] == (if key in sent0 then sent0[key] else []) + [latest.value]
      else Untouched(key, last0, sent0)
    }

    ghost predicate Untouched(key: Key, last0: map<Key, Version>, sent0: map<Key, seq<Snapshot>>)
      reads this
    {
      && (key in lastSent <==> key in last0) && (key in lastSent ==> lastSent[key] == last0[key])
      && (key in sent <==> key in sent0) && (key in sent ==> sent[key] == sent0[key])
    }

    // Whether a drain deals with a key.
    predicate Offered(key: Key, only: Option<string>)
      reads this, hub
    {
      && listener in hub.subscriptions && key.0 in hub.subscriptions[listener] && (only.Some? ==> only.value == key.0)
      && key.1 in hub.subscriptions[listener][key.0]
    }

    // A drain offers every topic of the connection's subscriptions, or of the one it was asked for, its latest snapshot.
    method SendPending(only: Option<string>)
      modifies this
      ensures forall key: Key ::
                if Offered(key, only) then DeliveredOnce(key, old(lastSent), old(sent)) else Untouched(key, old(lastSent), old(sent))
    {
      if listener !in hub.subscriptions { return; }
      hide DeliveredOnce, Untouched;
      NothingTouched();
      var subscriptions := hub.subscriptions[listener];
      var pending := subscriptions.Keys;
      while pending != {}
        invariant pending <= subscriptions.Keys
        invariant forall key: Key ::
                    if Offered(key, only) && key.0 !in pending then DeliveredOnce(key, old(lastSent), old(sent))
                    else Untouched(key, old(lastSent), old(sent))
        decreases pending
      {
        var id :| id in pending;
        if only.None? || only.value == id {
          ghost var last1, sent1 := lastSent, sent;
          DrainTopics(id, subscriptions[id]);
          forall key: Key
            ensures if Offered(key, only) && key.0 !in pending - {id} then DeliveredOnce(key, old(lastSent), old(sent))
                    else Untouched(key, old(lastSent), old(sent))
          {
            Carried(key, old(lastSent), old(sent), last1, sent1);
          }
        }
        pending := pending - {id};
      }
    }

    lemma NothingTouched()
      ensures forall key: Key :: Untouched(key, lastSent, sent)
    {
    }

    ghost predicate SameAt(key: Key, a: map<Key, Version>, s: map<Key, seq<Snapshot>>, b: map<Key, Version>, u: map<Key, seq<Snapshot>>) {
      && (key in a <==> key in b) && (key in a ==> a[key] == b[key])
      && (key in s <==> key in u) && (key in s ==> s[key] == u[key])
    }

    // What happened to a key since some moment is what happened since an earlier one, if it was not touched between.
    lemma Carried(key: Key, last0: map<Key, Version>, sent0: map<Key, seq<Snapshot>>, last1: map<Key, Version>, sent1: map<Key, seq<Snapshot>>)
      ensures SameAt(key, last1, sent1, last0, sent0) ==>
                (DeliveredOnce(key, last1, sent1) ==> DeliveredOnce(key, last0, sent0)) && (Untouched(key, last1, sent1) ==> Untouched(key, last0, sent0))
      ensures Untouched(key, last1, sent1) ==> SameAt(key, lastSent, sent, last1, sent1)
    {
    }

    // One subscription's topics.
    method DrainTopics(id: string, scopes: seq<Scope>)
      modifies this
      ensures forall key: Key ::
                if key.0 == id && key.1 in scopes then DeliveredOnce(key, old(lastSent), old(sent)) else Untouched(key, old(lastSent), old(sent))
    {
      for i := 0 to |scopes|
        invariant forall key: Key ::
                    if key.0 == id && key.1 in scopes[..i] then DeliveredOnce(key, old(lastSent), old(sent))
                    else Untouched(key, old(lastSent), old(sent))
      {
        assert scopes[..i + 1] == scopes[..i] + [scopes[i]];
        var _ := DeliverTopic(id, scopes[i]);
      }
      assert scopes[..|scopes|] == scopes;
    }

    method Unsubscribe(id: string) returns (removed: bool)
      modifies this`lastSent, hub`subscriptions
      ensures removed <==> listener in old(hub.subscriptions) && id in old(hub.subscriptions)[listener]
      ensures lastSent == if removed then map k | k in old(lastSent) && k.0 != id :: old(lastSent)[k] else old(lastSent)
    {
      removed := hub.RemoveSubscription(listener, id);
      if removed { lastSent := map k | k in lastSent && k.0 != id :: lastSent[k]; }
    }
  }
}
