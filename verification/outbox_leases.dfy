/** packages/events/memory.py:93-167 under several publishers: nothing in a record names the publisher that leased it. */
module OutboxLeases {
  import opened Results
  import opened EventModels
  import opened OutboxTable
  import opened OutboxPublishers
  import Sorting

  // The publisher has claimed the message and not yet told the store what became of it.
  ghost predicate Holds(w: World, who: nat, id: OutboxId) {
    var p := At(w, who);
    !p.Idle? && exists i :: p.next <= i < |p.ids| && p.ids[i] == id
  }

  ghost predicate Exclusive(w: World) { forall p: nat, q: nat, id | p != q && Holds(w, p, id) :: !Holds(w, q, id) }

  // The record is leased from this publisher's own claim on.
  ghost predicate LeasedTo(s: Settings, w: World, who: nat, id: OutboxId) {
    var p := At(w, who);
    && !p.Idle? && id in w.relay.box && w.relay.box[id].status == Claimed
    && w.relay.box[id].claimedUntil == Some(p.now + s.lease) && w.relay.box[id].availableAt <= p.now
  }

  ghost predicate AllLeased(s: Settings, w: World) {
    && (forall p: nat, id | Holds(w, p, id) :: LeasedTo(s, w, p, id))
    && (forall p: nat | !At(w, p).Idle? :: Sorting.Distinct(At(w, p).ids))
  }

  // The claim hands out no message that another publisher still holds although its lease is over.
  ghost predicate Timely(s: Settings, w: World, m: Move) {
    m.Begin? ==> forall p: nat, id | p != m.who && id in m.batch && Holds(w, p, id) :: m.now < At(w, p).now + s.lease
  }

  // A claim only gets at a held message once its holder's lease is over.
  lemma HeldIsTakenLate(s: Settings, w: World, m: Move, p: nat, id: OutboxId)
    requires AllLeased(s, w) && m.Begin? && Possible(w, m) && id in m.batch && Holds(w, p, id)
    ensures m.now >= At(w, p).now + s.lease
  {
    hide Holds, RecordLe;
    assert LeasedTo(s, w, p, id);
  }

  lemma TimelyTakesNothing(s: Settings, w: World, m: Move, p: nat, id: OutboxId)
    requires AllLeased(s, w) && m.Begin? && Possible(w, m) && Timely(s, w, m) && id in m.batch && p != m.who
    ensures !Holds(w, p, id)
  {
    hide AllLeased, Possible;
    if Holds(w, p, id) { HeldIsTakenLate(s, w, m, p, id); }
  }

  // Who holds what after a move.
  lemma HeldAfter(s: Settings, w: World, m: Move, p: nat, id: OutboxId)
    requires Possible(w, m) && Holds(Do(s, w, m), p, id)
    requires forall q: nat | !At(w, q).Idle? :: Sorting.Distinct(At(w, q).ids)
    ensures (m.Begin? && p == m.who && id in m.batch) || Holds(w, p, id)
    ensures !(m.Begin? && p == m.who) ==> At(Do(s, w, m), p).now == At(w, p).now
    ensures m.Begin? && p == m.who ==> At(Do(s, w, m), p).now == m.now
    ensures m.Tell? && p == m.who ==> At(w, p).next < |At(w, p).ids| && id != At(w, p).ids[At(w, p).next]
  {
    hide FirstEligible;
    var v := Do(s, w, m);
    var i :| At(v, p).next <= i < |At(v, p).ids| && At(v, p).ids[i] == id;
  }

  lemma DistinctAfter(s: Settings, w: World, m: Move)
    requires Possible(w, m) && forall q: nat | !At(w, q).Idle? :: Sorting.Distinct(At(w, q).ids)
    ensures forall q: nat | !At(Do(s, w, m), q).Idle? :: Sorting.Distinct(At(Do(s, w, m), q).ids)
  {
    hide Sorting.Distinct, RecordLe, Eligible;
    forall q: nat | !At(Do(s, w, m), q).Idle? ensures Sorting.Distinct(At(Do(s, w, m), q).ids) {
      if m.Begin? && q == m.who {
        assert Sorting.Distinct(m.batch);
      } else {
        assert !At(w, q).Idle? && At(Do(s, w, m), q).ids == At(w, q).ids;
      }
    }
  }

  // A record that is not the object of a move stays; the claimed ones are leased anew.
  lemma RecordAfter(s: Settings, w: World, m: Move, id: OutboxId)
    requires Possible(w, m) && id in w.relay.box
    ensures var box := Do(s, w, m).relay.box;
            && id in box
            && (m.Begin? && id in m.batch ==> box[id] == Leased(w.relay.box[id], m.now, s.lease) && w.relay.box[id].availableAt <= m.now)
            && (!(m.Begin? && id in m.batch)
                && !(m.Tell? && !At(w, m.who).Idle? && At(w, m.who).next < |At(w, m.who).ids| && At(w, m.who).ids[At(w, m.who).next] == id)
                ==> box[id] == w.relay.box[id])
  {
    hide RecordLe;
  }

  lemma ClaimedAreThere(w: World, m: Move, id: OutboxId)
    requires Possible(w, m) && m.Begin? && id in m.batch
    ensures id in w.relay.box
  {
    hide RecordLe, Eligible;
  }

  lemma StaysLeased(s: Settings, w: World, m: Move, p: nat, id: OutboxId)
    requires Possible(w, m) && AllLeased(s, w) && Exclusive(w) && Timely(s, w, m) && Holds(Do(s, w, m), p, id)
    ensures LeasedTo(s, Do(s, w, m), p, id)
  {
    hide Possible, Exclusive, Timely, Do, Eligible, Holds;
    HeldAfter(s, w, m, p, id);
    HoldersAreNotIdle(Do(s, w, m), p, id);
    if m.Begin? && p == m.who && id in m.batch {
      ClaimedAreThere(w, m, id);
      RecordAfter(s, w, m, id);
    } else {
      assert LeasedTo(s, w, p, id);
      NotItsObject(s, w, m, p, id);
      RecordAfter(s, w, m, id);
      StillThisClaim(s, w, m, p);
    }
  }

  // What one publisher holds is not the object of another's move, nor of its own unless it lets go of it.
  lemma NotItsObject(s: Settings, w: World, m: Move, p: nat, id: OutboxId)
    requires Possible(w, m) && AllLeased(s, w) && Exclusive(w) && Timely(s, w, m) && Holds(w, p, id) && Holds(Do(s, w, m), p, id)
    requires !(m.Begin? && p == m.who && id in m.batch)
    ensures !(m.Begin? && id in m.batch)
    ensures m.Tell? ==> At(w, m.who).Idle? || At(w, m.who).next >= |At(w, m.who).ids| || At(w, m.who).ids[At(w, m.who).next] != id
  {
    hide Possible, Exclusive, Timely, Do, Holds, LeasedTo;
    HeldAfter(s, w, m, p, id);
    if m.Begin? && id in m.batch && p != m.who { TimelyTakesNothing(s, w, m, p, id); }
    if m.Tell? && p != m.who {
      TellersHold(w, m);
      NotBoth(w, p, m.who, id);
    }
  }

  // A publisher that begins had nothing; any other keeps the time of its claim.
  lemma StillThisClaim(s: Settings, w: World, m: Move, p: nat)
    requires Possible(w, m) && !At(w, p).Idle? && !At(Do(s, w, m), p).Idle?
    ensures At(Do(s, w, m), p).now == At(w, p).now
  {
    hide FirstEligible;
  }

  lemma HoldersAreNotIdle(w: World, p: nat, id: OutboxId)
    requires Holds(w, p, id)
    ensures !At(w, p).Idle?
  {
  }

  lemma TellersHold(w: World, m: Move)
    requires m.Tell? && Possible(w, m)
    ensures !At(w, m.who).Idle? && At(w, m.who).next < |At(w, m.who).ids| && Holds(w, m.who, At(w, m.who).ids[At(w, m.who).next])
  {
  }

  lemma NotBoth(w: World, p: nat, q: nat, id: OutboxId)
    requires Exclusive(w) && p != q && Holds(w, p, id)
    ensures !Holds(w, q, id)
  {
    hide Holds;
  }

  lemma TimelyKeepsExclusive(s: Settings, w: World, m: Move)
    requires Possible(w, m) && AllLeased(s, w) && Exclusive(w) && Timely(s, w, m)
    ensures AllLeased(s, Do(s, w, m)) && Exclusive(Do(s, w, m))
  {
    var v := Do(s, w, m);
    DistinctAfter(s, w, m);
    forall p: nat, id | Holds(v, p, id) ensures LeasedTo(s, v, p, id) { StaysLeased(s, w, m, p, id); }
    hide Possible, Timely, Do, LeasedTo, Holds;
    forall p: nat, q: nat, id | p != q && Holds(v, p, id) ensures !Holds(v, q, id) {
      if Holds(v, q, id) {
        HeldAfter(s, w, m, p, id);
        HeldAfter(s, w, m, q, id);
        if m.Begin? && p == m.who && id in m.batch { TimelyTakesNothing(s, w, m, q, id); }
        if m.Begin? && q == m.who && id in m.batch { TimelyTakesNothing(s, w, m, p, id); }
      }
    }
  }

  // An untimely claim leaves two publishers holding one message.
  lemma LateClaimIsShared(s: Settings, w: World, m: Move)
    requires Possible(w, m) && !Timely(s, w, m)
    ensures !Exclusive(Do(s, w, m))
  {
    hide FirstEligible;
    var p: nat, id :| p != m.who && id in m.batch && Holds(w, p, id) && m.now >= At(w, p).now + s.lease;
    var v := Do(s, w, m);
    assert At(v, p) == At(w, p) && Holds(v, p, id);
    var i :| 0 <= i < |m.batch| && m.batch[i] == id;
    assert At(v, m.who) == Handing(m.batch, 0, m.now) && At(v, m.who).ids[i] == id;
    assert Holds(v, m.who, id);
  }

  ghost predicate AllTimely(s: Settings, moves: seq<Move>) { forall i | 0 <= i < |moves| :: Timely(s, Reached(s, NOBODY, moves[..i]), moves[i]) }

  ghost predicate AlwaysExclusive(s: Settings, moves: seq<Move>) { forall i | 0 <= i <= |moves| :: Exclusive(Reached(s, NOBODY, moves[..i])) }

  lemma {:induction false} ExclusiveWhileTimely(s: Settings, moves: seq<Move>)
    requires CanMove(s, NOBODY, moves) && AllTimely(s, moves)
    ensures Exclusive(Reached(s, NOBODY, moves)) && AllLeased(s, Reached(s, NOBODY, moves))
    decreases |moves|
  {
    hide Possible, Do, Exclusive, AllLeased, Timely;
    if moves == [] {
      NobodyHolds(s);
    } else {
      var n := |moves| - 1;
      Shorter(s, NOBODY, moves);
      assert forall i | 0 <= i < n :: moves[..n][i] == moves[i] && moves[..n][..i] == moves[..i];
      ExclusiveWhileTimely(s, moves[..n]);
      TimelyKeepsExclusive(s, Reached(s, NOBODY, moves[..n]), moves[n]);
    }
  }

  lemma NobodyHolds(s: Settings)
    ensures Exclusive(NOBODY) && AllLeased(s, NOBODY)
  {
  }

  lemma Earlier(s: Settings, moves: seq<Move>, i: nat)
    requires CanMove(s, NOBODY, moves) && i <= |moves|
    ensures CanMove(s, NOBODY, moves[..i])
    ensures AllTimely(s, moves) ==> AllTimely(s, moves[..i])
    ensures i < |moves| ==> Possible(Reached(s, NOBODY, moves[..i]), moves[i])
    ensures i < |moves| ==> Reached(s, NOBODY, moves[..i + 1]) == Do(s, Reached(s, NOBODY, moves[..i]), moves[i])
  {
    hide Possible, Do, Timely;
    assert forall j | 0 <= j < i :: moves[..i][j] == moves[j] && moves[..i][..j] == moves[..j];
    if i < |moves| { assert moves[..i + 1][..i] == moves[..i]; }
  }

  /** No two publishers ever hold one message at once exactly when no claim hands out a message whose holder is still at it
      past the end of its lease. */
  lemma ExclusiveExactlyWhen(s: Settings, moves: seq<Move>)
    requires CanMove(s, NOBODY, moves)
    ensures AlwaysExclusive(s, moves) <==> AllTimely(s, moves)
  {
    hide Possible, Do, Exclusive, AllLeased, Timely, Reached, CanMove;
    if AllTimely(s, moves) {
      forall i | 0 <= i <= |moves| ensures Exclusive(Reached(s, NOBODY, moves[..i])) {
        Earlier(s, moves, i);
        ExclusiveWhileTimely(s, moves[..i]);
      }
    }
    if AlwaysExclusive(s, moves) {
      forall i | 0 <= i < |moves| ensures Timely(s, Reached(s, NOBODY, moves[..i]), moves[i]) {
        Earlier(s, moves, i);
        if !Timely(s, Reached(s, NOBODY, moves[..i]), moves[i]) { LateClaimIsShared(s, Reached(s, NOBODY, moves[..i]), moves[i]); }
      }
    }
  }

  /** On such a run whoever acknowledges or releases a message ends its own lease and nobody else's. */
  lemma TellersEndTheirOwnLease(s: Settings, moves: seq<Move>, i: nat)
    requires CanMove(s, NOBODY, moves) && AllTimely(s, moves) && i < |moves| && moves[i].Tell?
    ensures var w := Reached(s, NOBODY, moves[..i]);
            && !At(w, moves[i].who).Idle? && At(w, moves[i].who).next < |At(w, moves[i].who).ids|
            && var id := At(w, moves[i].who).ids[At(w, moves[i].who).next];
               LeasedTo(s, w, moves[i].who, id) && forall q: nat | q != moves[i].who :: !Holds(w, q, id)
  {
    hide Possible, Do, Timely, Reached, CanMove, LeasedTo, Holds;
    Earlier(s, moves, i);
    ExclusiveWhileTimely(s, moves[..i]);
    TellersHold(Reached(s, NOBODY, moves[..i]), moves[i]);
  }

  /** And a message held past its lease is handed out: by every claim from then on that has room for it. */
  lemma LapsedIsTaken(s: Settings, moves: seq<Move>, p: nat, id: OutboxId, now: int, limit: nat, batch: seq<OutboxId>)
    requires CanMove(s, NOBODY, moves) && AllTimely(s, moves) && Holds(Reached(s, NOBODY, moves), p, id)
    requires FirstEligible(Reached(s, NOBODY, moves).relay.box, now, limit, batch) && |batch| < limit
    ensures id in batch <==> now >= At(Reached(s, NOBODY, moves), p).now + s.lease
  {
    hide Reached, CanMove, AllTimely, Holds, RecordLe;
    ExclusiveWhileTimely(s, moves);
    assert LeasedTo(s, Reached(s, NOBODY, moves), p, id);
  }

  // ----- When it goes wrong -----

  function Alone(m: OutboxMessage, r: OutboxRecord): Box { map[m.messageId := r] }

  lemma OnlyRecord(m: OutboxMessage, r: OutboxRecord, now: int)
    requires r.message == m && Eligible(r, now)
    ensures FirstEligible(Alone(m, r), now, 1, [m.messageId])
  {
  }

  /** One late publisher is enough for two live leases on one message: the release of the first, whose lease was over, ends
      the lease of the second, and a third claims the message while the second still holds it. */
  lemma LateReleaseEndsAnothersLease(s: Settings, m: OutboxMessage, error: string)
    requires s.lease > 0 && s.retryDelay <= s.lease
    ensures var id, t := m.messageId, m.receivedAt;
            var moves := [Post(m), Begin(0, t, 1, [id]), Begin(1, t + s.lease, 1, [id]), Hand(0, false, true), Tell(0, error),
                          Begin(2, t + s.lease, 1, [id])];
            var w := Reached(s, NOBODY, moves);
            && CanMove(s, NOBODY, moves) && Holds(w, 1, id) && Holds(w, 2, id)
            && At(w, 1).now == At(w, 2).now == t + s.lease
  {
    hide Possible, Do, FirstEligible;
    var id, t := m.messageId, m.receivedAt;
    var posted := OutboxRecord(m, PendingDelivery, 0, t, None, None, None);
    var claims := multiset([id]);
    var w1 := World(Relay(Alone(m, posted), multiset{}, multiset{}), map[]);
    var first := Leased(posted, t, s.lease);
    var w2 := World(Relay(Alone(m, first), claims, multiset{}), map[0 := Handing([id], 0, t)]);
    var second := Leased(first, t + s.lease, s.lease);
    var w3 := World(Relay(Alone(m, second), claims + claims, multiset{}), map[0 := Handing([id], 0, t), 1 := Handing([id], 0, t + s.lease)]);
    var w4 := w3.(positions := map[0 := Raised([id], 0, t), 1 := Handing([id], 0, t + s.lease)]);
    var back := OutboxTable.Returned(second, t + s.retryDelay, error);
    var w5 := World(Relay(Alone(m, back), claims + claims, multiset{}), map[0 := Idle, 1 := Handing([id], 0, t + s.lease)]);
    var third := Leased(back, t + s.lease, s.lease);
    var w6 := World(Relay(Alone(m, third), claims + claims + claims, multiset{}),
                    map[0 := Idle, 1 := Handing([id], 0, t + s.lease), 2 := Handing([id], 0, t + s.lease)]);
    PostsFirst(s, m);
    Claims(s, w1, 0, m, posted, t);
    Claims(s, w2, 1, m, first, t + s.lease);
    assert w2.positions[1 := Handing([id], 0, t + s.lease)] == w3.positions;
    Raises(s, w3, m);
    assert w3.positions[0 := Raised([id], 0, t)] == w4.positions;
    GivesBack(s, w4, m, second, t, error);
    assert w4.positions[0 := Idle] == w5.positions;
    Claims(s, w5, 2, m, back, t + s.lease);
    assert w5.positions[2 := Handing([id], 0, t + s.lease)] == w6.positions;
    SixMoves(s, w1, w2, w3, w4, w5, w6, Post(m), Begin(0, t, 1, [id]), Begin(1, t + s.lease, 1, [id]), Hand(0, false, true), Tell(0, error),
             Begin(2, t + s.lease, 1, [id]));
    assert At(w6, 1).ids[0] == id && At(w6, 2).ids[0] == id;
  }

  lemma PostsFirst(s: Settings, m: OutboxMessage)
    ensures Possible(NOBODY, Post(m))
    ensures Do(s, NOBODY, Post(m)) == World(Relay(Alone(m, OutboxRecord(m, PendingDelivery, 0, m.receivedAt, None, None, None)), multiset{}, multiset{}), map[])
  {
  }

  lemma Claims(s: Settings, w: World, who: nat, m: OutboxMessage, r: OutboxRecord, now: int)
    requires w.relay.box == Alone(m, r) && r.message == m && At(w, who).Idle?
    requires Eligible(r, now)
    ensures Possible(w, Begin(who, now, 1, [m.messageId]))
    ensures Do(s, w, Begin(who, now, 1, [m.messageId]))
            == World(Relay(Alone(m, Leased(r, now, s.lease)), w.relay.claims + multiset([m.messageId]), w.relay.delivered),
                     w.positions[who := Handing([m.messageId], 0, now)])
  {
    OnlyRecord(m, r, now);
    hide FirstEligible, Eligible, Leased;
    assert AfterClaim(Alone(m, r), now, s.lease, [m.messageId]) == Alone(m, Leased(r, now, s.lease));
  }

  lemma Raises(s: Settings, w: World, m: OutboxMessage)
    requires 0 in w.positions && w.positions[0].Handing? && w.positions[0].ids == [m.messageId] && w.positions[0].next == 0
    ensures Possible(w, Hand(0, false, true))
    ensures Do(s, w, Hand(0, false, true)) == w.(positions := w.positions[0 := Raised([m.messageId], 0, w.positions[0].now)])
  {
  }

  lemma GivesBack(s: Settings, w: World, m: OutboxMessage, r: OutboxRecord, now: int, error: string)
    requires w.relay.box == Alone(m, r) && r.status == Claimed
    requires 0 in w.positions && w.positions[0] == Raised([m.messageId], 0, now)
    ensures Possible(w, Tell(0, error))
    ensures Do(s, w, Tell(0, error))
            == World(w.relay.(box := Alone(m, OutboxTable.Returned(r, now + s.retryDelay, error))), w.positions[0 := Idle])
  {
  }

  lemma SixMoves(s: Settings, w1: World, w2: World, w3: World, w4: World, w5: World, w6: World,
                 a: Move, b: Move, c: Move, d: Move, e: Move, f: Move)
    requires Possible(NOBODY, a) && w1 == Do(s, NOBODY, a) && Possible(w1, b) && w2 == Do(s, w1, b) && Possible(w2, c) && w3 == Do(s, w2, c)
    requires Possible(w3, d) && w4 == Do(s, w3, d) && Possible(w4, e) && w5 == Do(s, w4, e) && Possible(w5, f) && w6 == Do(s, w5, f)
    ensures CanMove(s, NOBODY, [a, b, c, d, e, f]) && Reached(s, NOBODY, [a, b, c, d, e, f]) == w6
  {
    hide Possible, Do;
    NoMoves(s);
    OneMore(s, NOBODY, [], a);
    TwoMore(s, NOBODY, [] + [a], b, c);
    TwoMore(s, NOBODY, [] + [a] + [b] + [c], d, e);
    OneMore(s, NOBODY, [] + [a] + [b] + [c] + [d] + [e], f);
    assert [] + [a] + [b] + [c] + [d] + [e] + [f] == [a, b, c, d, e, f];
  }

  lemma NoMoves(s: Settings)
    ensures CanMove(s, NOBODY, []) && Reached(s, NOBODY, []) == NOBODY
  {
  }
}
