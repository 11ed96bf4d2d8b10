/** The whole of packages/events on one store: writes, failing writes and failing commits among the moves of any number of
    publishers. Each is one atomic step on the tables, as the store's lock makes it. */
module EventSystem {
  import opened Results
  import opened DomainState
  import opened EventModels
  import opened EventStore
  import opened EventWriting
  import opened EventHistory
  import opened EventRuns
  import T = OutboxTable
  import P = OutboxPublishers

  datatype System = System(tables: Tables, claims: multiset<OutboxId>, delivered: multiset<OutboxId>, positions: map<nat, P.Position>)

  datatype Action = Writes(command: Command, commitFails: bool) | Publishes(move: P.Move)

  const START: System := System(EMPTY, multiset{}, multiset{}, map[])

  function RelayOf(s: System): T.Relay { T.Relay(s.tables.outbox, s.claims, s.delivered) }

  function WorldOf(s: System): P.World { P.World(RelayOf(s), s.positions) }

  // Messages enter the outbox through writes only.
  ghost predicate Possible(s: System, a: Action) { a.Publishes? ==> !a.move.Post? && P.Possible(WorldOf(s), a.move) }

  function Next(settings: P.Settings, s: System, a: Action): System {
    match a
    case Writes(c, commitFails) => s.(tables := Write(s.tables, c, commitFails).0)
    case Publishes(m) =>
      var w := P.Do(settings, WorldOf(s), m);
      System(s.tables.(outbox := w.relay.box), w.relay.claims, w.relay.delivered, w.positions)
  }

  function Reached(settings: P.Settings, s: System, actions: seq<Action>): System
    decreases actions
  {
    if actions == [] then s else Reached(settings, Next(settings, s, actions[0]), actions[1..])
  }

  ghost predicate CanRun(settings: P.Settings, s: System, actions: seq<Action>)
    decreases actions
  {
    actions != [] ==> Possible(s, actions[0]) && CanRun(settings, Next(settings, s, actions[0]), actions[1..])
  }

  // Event sourcing, the relay's own account, and every publisher's honesty, of one and the same state.
  ghost predicate Sound(s: System) { Inv(s.tables) && T.RelayInv(RelayOf(s)) && P.AllHonest(WorldOf(s)) }

  // A write leaves the outbox alone or adds one message that was not there.
  lemma WriteEnqueues(t: Tables, c: Command, commitFails: bool) returns (m: Option<OutboxMessage>)
    requires Inv(t)
    ensures if m.Some? then m.value.messageId !in t.outbox && Write(t, c, commitFails).0.outbox == t.outbox[m.value.messageId := FreshRecord(m.value)]
            else Write(t, c, commitFails).0.outbox == t.outbox
  {
    hide *;
    WriteIs(t, c, commitFails);
    InvParts(t);
    m := None;
    var d := Decide(t, c);
    if d.Revised? && !commitFails {
      RevisionIsKeyed(t, c);
      KeyedIsNew(t, c, d.revision, d.entry, d.message);
      m := Some(d.message);
    } else if d.Settled? {
      AckKeepsOutbox(t, c, d.event, d.disposition);
    }
  }

  lemma InvParts(t: Tables)
    requires Inv(t)
    ensures Bijection(t) && Receipts(t) && Outbox(t)
  {
  }

  lemma AckKeepsOutbox(t: Tables, c: Command, e: CanonicalEvent, d: Disposition)
    ensures Acked(t, c, e, d).outbox == t.outbox
  {
  }

  lemma KeyedIsNew(t: Tables, c: Command, e: CanonicalEvent, entry: StateLog, m: OutboxMessage)
    requires Receipts(t) && Outbox(t) && Keyed(t, c, e, entry, m)
    ensures m.messageId !in t.outbox && Posted(t, c, e, entry, m).outbox == t.outbox[m.messageId := FreshRecord(m)]
  {
    FreshMessageId(t, entry);
    hide Receipts, Outbox, FreshRecord, RaisedSequence;
  }

  lemma WriteIsSound(s: System, c: Command, commitFails: bool)
    requires Sound(s)
    ensures Sound(s.(tables := Write(s.tables, c, commitFails).0))
  {
    hide Write, Inv, T.RelayInv;
    WriteKeepsInv(s.tables, c, commitFails);
    var m := WriteEnqueues(s.tables, c, commitFails);
    if m.Some? { T.EnqueueKeepsInv(RelayOf(s), m.value); }
    var after := s.(tables := Write(s.tables, c, commitFails).0);
    assert forall p :: P.Honest(RelayOf(after), p) <==> P.Honest(RelayOf(s), p);
  }

  // A publisher's move rewrites no message and adds none.
  lemma StepKeepsMessages(r: T.Relay, step: T.Step)
    requires !step.Enqueue?
    ensures T.Take(r, step).box.Keys == r.box.Keys && forall k | k in r.box :: T.Take(r, step).box[k].message == r.box[k].message
  {
  }

  lemma PublishIsSound(settings: P.Settings, s: System, m: P.Move)
    requires Sound(s) && Possible(s, Publishes(m))
    ensures Sound(Next(settings, s, Publishes(m)))
  {
    hide Inv, T.RelayInv, P.Possible, P.AllHonest, T.Take, T.Enabled;
    var w := WorldOf(s);
    P.MoveKeepsHonest(settings, w, m);
    var effect := P.Effect(settings, w, m);
    if effect.Some? {
      P.MovesAreEnabled(settings, w, m);
      T.TakeKeepsInv(w.relay, effect.value);
      StepKeepsMessages(w.relay, effect.value);
      RelayKeepsInv(s.tables, T.Take(w.relay, effect.value).box);
    } else {
      assert s.tables.(outbox := s.tables.outbox) == s.tables;
    }
  }

  /** However writes, failed writes, failed commits and any number of publishers that may stop anywhere interleave on one store:
      every Event stays the replay of its log, messages and log entries stay one to one, attempts counts the claims, and what is
      PUBLISHED was delivered. */
  lemma {:induction false} EveryRunIsSound(settings: P.Settings, s: System, actions: seq<Action>)
    requires Sound(s) && CanRun(settings, s, actions)
    ensures Sound(Reached(settings, s, actions))
    decreases actions
  {
    hide Sound, Possible, Next, Write;
    if actions != [] {
      OneAction(settings, s, actions[0]);
      EveryRunIsSound(settings, Next(settings, s, actions[0]), actions[1..]);
    }
  }

  lemma OneAction(settings: P.Settings, s: System, a: Action)
    requires Sound(s) && Possible(s, a)
    ensures Sound(Next(settings, s, a))
  {
    hide Sound, Possible, Write, P.Do;
    match a
    case Writes(c, commitFails) => WriteIsSound(s, c, commitFails);
    case Publishes(m) => PublishIsSound(settings, s, m);
  }

  lemma StartIsSound()
    ensures Sound(START)
  {
    EmptyTablesInv();
  }

  // What later states may not undo: the log and its messages only grow, and a published record is final.
  ghost predicate Keeps(a: System, b: System) { a.tables.stateLogs <= b.tables.stateLogs && T.Preserves(a.tables.outbox, b.tables.outbox) }

  lemma ActionKeeps(settings: P.Settings, s: System, a: Action)
    requires Sound(s) && Possible(s, a)
    ensures Keeps(s, Next(settings, s, a))
  {
    hide Write, Inv, T.RelayInv, T.Take, T.Enabled, P.AllHonest, P.Possible;
    match a
    case Writes(c, commitFails) =>
      LogGrows(s.tables, c, commitFails);
      var m := WriteEnqueues(s.tables, c, commitFails);
    case Publishes(m) =>
      var effect := P.Effect(settings, WorldOf(s), m);
      if effect.Some? {
        P.MovesAreEnabled(settings, WorldOf(s), m);
        T.StepPreserves(RelayOf(s), effect.value);
      }
  }

  lemma LogGrows(t: Tables, c: Command, commitFails: bool)
    requires Inv(t)
    ensures t.stateLogs <= Write(t, c, commitFails).0.stateLogs
  {
    hide Write, Inv;
    WriteGrows(t, c, commitFails);
  }

  lemma KeepsTransitive(a: System, b: System, c: System)
    requires Keeps(a, b) && Keeps(b, c)
    ensures Keeps(a, c)
  {
  }

  lemma {:induction false} EveryRunKeeps(settings: P.Settings, s: System, actions: seq<Action>)
    requires Sound(s) && CanRun(settings, s, actions)
    ensures Keeps(s, Reached(settings, s, actions))
    decreases actions
  {
    hide Sound, Possible, Next, Write, Keeps;
    if actions == [] {
      KeepsItself(s);
    } else {
      var next := Next(settings, s, actions[0]);
      ActionKeeps(settings, s, actions[0]);
      OneAction(settings, s, actions[0]);
      EveryRunKeeps(settings, next, actions[1..]);
      KeepsTransitive(s, next, Reached(settings, next, actions[1..]));
    }
  }

  lemma KeepsItself(s: System)
    ensures Keeps(s, s)
  {
  }

  /** So from the empty store on: every log entry ever written has its message in the outbox from then on, unaltered and about
      its Event, until and after it is published, and it is published only if the transport took it. */
  lemma NoChangeGoesUntold(settings: P.Settings, actions: seq<Action>, later: seq<Action>, i: nat)
    requires CanRun(settings, START, actions) && CanRun(settings, Reached(settings, START, actions), later)
    requires i < |Reached(settings, START, actions).tables.stateLogs|
    ensures var s, u := Reached(settings, START, actions), Reached(settings, Reached(settings, START, actions), later);
            var id := EntryMessageId(s.tables.stateLogs[i]);
            && id in s.tables.outbox && id in u.tables.outbox && u.tables.outbox[id].message == s.tables.outbox[id].message
            && u.tables.outbox[id].message.aggregateId == s.tables.stateLogs[i].eventId
            && u.tables.outbox[id].attempts == u.claims[id]
            && (s.tables.outbox[id].status == Published ==> u.tables.outbox[id] == s.tables.outbox[id])
            && (u.tables.outbox[id].status == Published ==> id in u.delivered)
  {
    hide Reached, CanRun, Possible, Next, Sound, Keeps;
    StartIsSound();
    EveryRunIsSound(settings, START, actions);
    var s := Reached(settings, START, actions);
    EveryRunIsSound(settings, s, later);
    EveryRunKeeps(settings, s, later);
    ToldAt(s, i);
    SoundRecords(Reached(settings, s, later));
    KeptMessages(s, Reached(settings, s, later));
  }

  lemma ToldAt(s: System, i: nat)
    requires Sound(s) && i < |s.tables.stateLogs|
    ensures EntryMessageId(s.tables.stateLogs[i]) in s.tables.outbox
    ensures s.tables.outbox[EntryMessageId(s.tables.stateLogs[i])].message.aggregateId == s.tables.stateLogs[i].eventId
  {
    hide Bijection, Histories, VersionsUnique, Receipts, Sequences, T.RelayInv, P.AllHonest, EntryMessageId;
    assert Posts(s.tables.outbox, s.tables.stateLogs[i]);
  }

  lemma SoundRecords(s: System)
    requires Sound(s)
    ensures forall id | id in s.tables.outbox ::
              s.tables.outbox[id].attempts == s.claims[id] && (s.tables.outbox[id].status == Published ==> id in s.delivered)
  {
    hide Inv, P.AllHonest;
  }

  lemma KeptMessages(a: System, b: System)
    requires Keeps(a, b)
    ensures forall id | id in a.tables.outbox ::
              id in b.tables.outbox && b.tables.outbox[id].message == a.tables.outbox[id].message
              && (a.tables.outbox[id].status == Published ==> b.tables.outbox[id] == a.tables.outbox[id])
  {
  }
}
