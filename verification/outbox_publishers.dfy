/** packages/events/outbox.py:161-208: any number of publishers over one table, each of which may stop anywhere.
    What a publisher has done is its place in the program; nothing below asks for more than that. */
module OutboxPublishers {
  import opened Results
  import opened EventModels
  import opened OutboxTable
  import opened OutboxRelay
  import Sorting

  // Where a publisher stands: between batches, before handing over the next message of its batch, or after the transport
  // returned or raised and before the store is told.
  datatype Position =
    | Idle
    | Handing(ids: seq<OutboxId>, next: nat, now: int)
    | Returned(ids: seq<OutboxId>, next: nat, now: int)
    | Raised(ids: seq<OutboxId>, next: nat, now: int)

  datatype Move =
    | Post(message: OutboxMessage)
    | Begin(who: nat, now: int, limit: nat, batch: seq<OutboxId>)
    | Hand(who: nat, reaches: bool, raises: bool)
    | Tell(who: nat, error: string)
    | Crash(who: nat)

  datatype Settings = Settings(lease: nat, retryDelay: nat)

  datatype World = World(relay: Relay, positions: map<nat, Position>)

  const NOBODY: World := World(IDLE, map[])

  function At(w: World, who: nat): Position { if who in w.positions then w.positions[who] else Idle }

  // A batch is what the store claims; a message is handed over when it is its turn; a transport that returns has delivered,
  // one that raises may have.
  ghost predicate Possible(w: World, m: Move) {
    match m
    case Post(_) => true
    case Begin(who, now, limit, batch) => At(w, who).Idle? && FirstEligible(w.relay.box, now, limit, batch)
    case Hand(who, reaches, raises) => At(w, who).Handing? && At(w, who).next < |At(w, who).ids| && (reaches || raises)
    case Tell(who, _) =>
      (At(w, who).Returned? || At(w, who).Raised?) && At(w, who).next < |At(w, who).ids|
    case Crash(_) => true
  }

  // The publisher's next turn in its batch, if it has one.
  function Turn(ids: seq<OutboxId>, next: nat, now: int): Position { if next < |ids| then Handing(ids, next, now) else Idle }

  // What the move does to the table and to the transport.
  function Effect(s: Settings, w: World, m: Move): Option<Step> {
    match m
    case Post(message) => Some(Enqueue(message))
    case Begin(_, now, limit, batch) => Some(Claim(now, limit, s.lease, batch))
    case Hand(who, reaches, _) =>
      var p := At(w, who);
      if reaches && p.Handing? && p.next < |p.ids| then Some(Deliver(p.ids[p.next])) else None
    case Tell(who, error) =>
      var p := At(w, who);
      if p.Returned? && p.next < |p.ids| then Some(Mark(p.ids[p.next], p.now))
      else if p.Raised? && p.next < |p.ids| then Some(Release(p.ids[p.next], p.now + s.retryDelay, error))
      else None
    case Crash(_) => None
  }

  function Moved(w: World, m: Move): map<nat, Position> {
    match m
    case Post(_) => w.positions
    case Begin(who, now, _, batch) => w.positions[who := Turn(batch, 0, now)]
    case Hand(who, _, raises) =>
      var p := At(w, who);
      if !p.Handing? then w.positions
      else w.positions[who := if raises then Raised(p.ids, p.next, p.now) else Returned(p.ids, p.next, p.now)]
    case Tell(who, _) =>
      var p := At(w, who);
      if p.Idle? then w.positions
      else w.positions[who := Turn(p.ids, p.next + 1, p.now)]
    case Crash(who) => w.positions[who := Idle]
  }

  function Do(s: Settings, w: World, m: Move): World {
    World(if Effect(s, w, m).Some? then Take(w.relay, Effect(s, w, m).value) else w.relay, Moved(w, m))
  }

  function Reached(s: Settings, w: World, moves: seq<Move>): World {
    if moves == [] then w else Do(s, Reached(s, w, moves[..|moves| - 1]), moves[|moves| - 1])
  }

  ghost predicate CanMove(s: Settings, w: World, moves: seq<Move>) {
    forall i | 0 <= i < |moves| :: Possible(Reached(s, w, moves[..i]), moves[i])
  }

  // The steps on the table behind the moves.
  function Trace(s: Settings, w: World, moves: seq<Move>): seq<Step> {
    if moves == [] then [] else
    var effect := Effect(s, Reached(s, w, moves[..|moves| - 1]), moves[|moves| - 1]);
    Trace(s, w, moves[..|moves| - 1]) + if effect.Some? then [effect.value] else []
  }

  // A publisher only holds what was claimed, and stands behind a returned call only for a message that was delivered.
  ghost predicate Honest(relay: Relay, p: Position) {
    !p.Idle? ==>
      && (forall id | id in p.ids :: id in relay.claims)
      && (p.Returned? && p.next < |p.ids| ==> p.ids[p.next] in relay.delivered)
  }

  ghost predicate AllHonest(w: World) { forall who | who in w.positions :: Honest(w.relay, w.positions[who]) }

  // The program order gives every step what the table needs of it.
  lemma MovesAreEnabled(s: Settings, w: World, m: Move)
    requires AllHonest(w) && Possible(w, m) && Effect(s, w, m).Some?
    ensures Enabled(w.relay, Effect(s, w, m).value)
  {
    hide FirstEligible;
  }

  lemma HonestStays(relay: Relay, step: Step, p: Position)
    requires Honest(relay, p)
    ensures Honest(Take(relay, step), p)
  {
    hide AfterClaim, AfterMark, AfterRelease;
    if step.Claim? { assert forall id | id in relay.claims :: id in relay.claims + multiset(step.ids); }
  }

  lemma MoveKeepsHonest(s: Settings, w: World, m: Move)
    requires AllHonest(w) && Possible(w, m)
    ensures AllHonest(Do(s, w, m))
  {
    var w' := Do(s, w, m);
    forall who | who in w'.positions ensures Honest(w'.relay, w'.positions[who]) {
      if Effect(s, w, m).Some? {
        if who in w.positions { HonestStays(w.relay, Effect(s, w, m).value, w.positions[who]); }
      }
      hide AfterClaim, AfterMark, AfterRelease, FirstEligible;
      if m.Begin? && who == m.who {
        forall id | id in m.batch ensures id in w'.relay.claims { assert id in multiset(m.batch); }
      }
    }
  }

  lemma Shorter(s: Settings, w: World, moves: seq<Move>)
    requires CanMove(s, w, moves) && moves != []
    ensures CanMove(s, w, moves[..|moves| - 1]) && Possible(Reached(s, w, moves[..|moves| - 1]), moves[|moves| - 1])
  {
    hide Possible, Reached;
    var n := |moves| - 1;
    assert forall i | 0 <= i < n :: moves[..n][i] == moves[i] && moves[..n][..i] == moves[..i];
  }

  lemma StepMore(r: Relay, steps: seq<Step>, step: Step)
    requires CanRun(r, steps) && Enabled(After(r, steps), step)
    ensures CanRun(r, steps + [step]) && After(r, steps + [step]) == Take(After(r, steps), step)
  {
    hide Enabled, Take;
    var longer := steps + [step];
    assert longer[..|steps|] == steps;
    forall i | 0 <= i < |longer| ensures Enabled(After(r, longer[..i]), longer[i]) {
      if i < |steps| { assert longer[..i] == steps[..i] && longer[i] == steps[i]; }
    }
  }

  /** However any number of publishers interleave, and wherever they stop, what happens to the table is a run of its step
      system: no message is acknowledged that the transport did not take, none is settled that was not claimed. */
  lemma {:induction false} PublishersRunTheTable(s: Settings, moves: seq<Move>)
    requires CanMove(s, NOBODY, moves)
    ensures CanRun(IDLE, Trace(s, NOBODY, moves))
    ensures After(IDLE, Trace(s, NOBODY, moves)) == Reached(s, NOBODY, moves).relay
    ensures AllHonest(Reached(s, NOBODY, moves))
    decreases |moves|
  {
    hide Possible, Effect, Moved, Take, Enabled, AllHonest;
    if moves == [] {
      NobodyIsHonest();
    } else {
      var n := |moves| - 1;
      var w, m := Reached(s, NOBODY, moves[..n]), moves[n];
      Shorter(s, NOBODY, moves);
      PublishersRunTheTable(s, moves[..n]);
      MoveKeepsHonest(s, w, m);
      if Effect(s, w, m).Some? {
        MovesAreEnabled(s, w, m);
        StepMore(IDLE, Trace(s, NOBODY, moves[..n]), Effect(s, w, m).value);
      } else {
        assert Trace(s, NOBODY, moves) == Trace(s, NOBODY, moves[..n]);
      }
    }
  }

  lemma NobodyIsHonest()
    ensures AllHonest(NOBODY) && CanRun(IDLE, [])
  {
  }

  /** So on every run of the publishers, crashes included, attempts counts the claims and PUBLISHED means the transport took
      the message at least once. */
  lemma PublishedWasDelivered(s: Settings, moves: seq<Move>, id: OutboxId)
    requires CanMove(s, NOBODY, moves) && id in Reached(s, NOBODY, moves).relay.box
    ensures var r := Reached(s, NOBODY, moves).relay;
            && r.box[id].attempts == r.claims[id]
            && (r.box[id].status == Published ==> id in r.delivered)
  {
    hide CanRun, After, CanMove, Reached;
    PublishersRunTheTable(s, moves);
    RunKeepsRelayInv(Trace(s, NOBODY, moves));
  }

  /** And whatever stopped where, once its time and its last lease are over an unpublished message can be begun again. */
  lemma NothingStaysStranded(s: Settings, moves: seq<Move>, id: OutboxId, who: nat, now: int)
    requires CanMove(s, NOBODY, moves) && id in Reached(s, NOBODY, moves).relay.box
    requires var r := Reached(s, NOBODY, moves).relay.box[id];
             r.status != Published && now >= r.availableAt && (r.status == Claimed ==> r.claimedUntil.Some? ==> now >= r.claimedUntil.value)
    ensures Eligible(Reached(s, NOBODY, moves).relay.box[id], now)
    ensures forall limit: nat, batch | FirstEligible(Reached(s, NOBODY, moves).relay.box, now, limit, batch) && |batch| < limit :: id in batch
  {
    hide CanRun, After, CanMove, Reached;
    PublishersRunTheTable(s, moves);
    RunKeepsRelayInv(Trace(s, NOBODY, moves));
    NothingIsStranded(Reached(s, NOBODY, moves).relay, id, now);
  }

  // ----- One publisher left alone -----

  // The moves of one undisturbed call, its batch being ids.
  function Settling(box: Box, who: nat, ids: seq<OutboxId>, accepts: OutboxMessage -> bool, error: string): seq<Move> {
    if ids == [] then [] else
    var last := ids[|ids| - 1];
    Settling(box, who, ids[..|ids| - 1], accepts, error)
    + [HandOf(box, who, last, accepts)] + [Tell(who, error)]
  }

  function HandOf(box: Box, who: nat, id: OutboxId, accepts: OutboxMessage -> bool): Move {
    if id in box && accepts(box[id].message) then Hand(who, true, false) else Hand(who, false, true)
  }

  function Call(box: Box, who: nat, now: int, limit: nat, ids: seq<OutboxId>, accepts: OutboxMessage -> bool, error: string): seq<Move> {
    [Begin(who, now, limit, ids)] + Settling(box, who, ids, accepts, error)
  }

  // The world after two more moves.
  lemma TwoMore(s: Settings, w: World, moves: seq<Move>, a: Move, b: Move)
    requires CanMove(s, w, moves) && Possible(Reached(s, w, moves), a) && Possible(Do(s, Reached(s, w, moves), a), b)
    ensures CanMove(s, w, moves + [a] + [b]) && Reached(s, w, moves + [a] + [b]) == Do(s, Do(s, Reached(s, w, moves), a), b)
  {
    OneMore(s, w, moves, a);
    OneMore(s, w, moves + [a], b);
  }

  lemma OneMore(s: Settings, w: World, moves: seq<Move>, a: Move)
    requires CanMove(s, w, moves) && Possible(Reached(s, w, moves), a)
    ensures CanMove(s, w, moves + [a]) && Reached(s, w, moves + [a]) == Do(s, Reached(s, w, moves), a)
  {
    hide Possible, Do;
    var longer := moves + [a];
    assert longer[..|moves|] == moves;
    forall i | 0 <= i < |longer| ensures Possible(Reached(s, w, longer[..i]), longer[i]) {
      if i < |moves| { assert longer[..i] == moves[..i] && longer[i] == moves[i]; }
    }
  }

  // One record settled by the two moves that its turn takes.
  lemma OneSettled(s: Settings, w: World, who: nat, ids: seq<OutboxId>, i: nat, now: int, accepted: bool, error: string)
    requires i < |ids| && who in w.positions && w.positions[who] == Handing(ids, i, now)
    ensures var hand := if accepted then Hand(who, true, false) else Hand(who, false, true);
            var mid := Do(s, w, hand);
            var end := Do(s, mid, Tell(who, error));
            && Possible(w, hand) && Possible(mid, Tell(who, error))
            && end.relay.box == (if accepted then AfterMark(w.relay.box, ids[i], now) else AfterRelease(w.relay.box, ids[i], now + s.retryDelay, error))
            && end.positions == w.positions[who := Turn(ids, i + 1, now)]
  {
    hide AfterMark, AfterRelease;
  }

  // After the moves for the first n records of its batch the publisher has settled these, and its next turn has come.
  ghost predicate SettledSoFar(s: Settings, w: World, u: World, box: Box, who: nat, now: int, ids: seq<OutboxId>, n: nat,
                               accepts: OutboxMessage -> bool, error: string)
    requires n <= |ids|
  {
    u.relay.box == AfterSettling(box, ids[..n], accepts, now, s.retryDelay, error) && u.positions == w.positions[who := Turn(ids, n, now)]
  }

  lemma NextSettled(s: Settings, w: World, u: World, box: Box, who: nat, now: int, ids: seq<OutboxId>, n: nat,
                    accepts: OutboxMessage -> bool, error: string)
    requires n < |ids| && SettledSoFar(s, w, u, box, who, now, ids, n, accepts, error)
    requires ids[n] in box && box[ids[n]].status == Claimed && ids[n] !in ids[..n]
    ensures var hand := HandOf(box, who, ids[n], accepts);
            && Possible(u, hand) && Possible(Do(s, u, hand), Tell(who, error))
            && SettledSoFar(s, w, Do(s, Do(s, u, hand), Tell(who, error)), box, who, now, ids, n + 1, accepts, error)
  {
    hide Possible, Do, AfterSettling, AfterMark, AfterRelease;
    assert ids[..n + 1] == ids[..n] + [ids[n]];
    OneSettled(s, u, who, ids, n, now, accepts(box[ids[n]].message), error);
    SettledNext(box, ids[..n], ids[n], accepts, now, s.retryDelay, error);
  }

  lemma {:induction false} SettlesInTurn(s: Settings, w: World, box: Box, who: nat, now: int, limit: nat, ids: seq<OutboxId>, n: nat,
                                         accepts: OutboxMessage -> bool, error: string)
    requires n <= |ids| && At(w, who).Idle? && FirstEligible(w.relay.box, now, limit, ids) && box == AfterClaim(w.relay.box, now, s.lease, ids)
    ensures var moves := [Begin(who, now, limit, ids)] + Settling(box, who, ids[..n], accepts, error);
            CanMove(s, w, moves) && SettledSoFar(s, w, Reached(s, w, moves), box, who, now, ids, n, accepts, error)
  {
    hide Possible, Do, AfterSettling, FirstEligible, AfterClaim, SettledSoFar, CanMove, Reached, HandOf, At;
    var begin := Begin(who, now, limit, ids);
    if n == 0 {
      Begins(s, w, box, who, now, limit, ids, accepts, error);
      OneMore(s, w, [], begin);
      assert [begin] + [] == [begin] && [] + [begin] == [begin];
    } else {
      SettlesInTurn(s, w, box, who, now, limit, ids, n - 1, accepts, error);
      assert ids[..n][..n - 1] == ids[..n - 1];
      var before := [begin] + Settling(box, who, ids[..n - 1], accepts, error);
      StillClaimed(w.relay.box, now, limit, s.lease, ids, n - 1);
      NextSettled(s, w, Reached(s, w, before), box, who, now, ids, n - 1, accepts, error);
      TwoMore(s, w, before, HandOf(box, who, ids[n - 1], accepts), Tell(who, error));
      assert [begin] + Settling(box, who, ids[..n], accepts, error)
          == before + [HandOf(box, who, ids[n - 1], accepts)] + [Tell(who, error)];
    }
  }

  lemma Begins(s: Settings, w: World, box: Box, who: nat, now: int, limit: nat, ids: seq<OutboxId>, accepts: OutboxMessage -> bool, error: string)
    requires At(w, who).Idle? && FirstEligible(w.relay.box, now, limit, ids) && box == AfterClaim(w.relay.box, now, s.lease, ids)
    ensures CanMove(s, w, []) && Reached(s, w, []) == w && Possible(w, Begin(who, now, limit, ids))
    ensures SettledSoFar(s, w, Do(s, w, Begin(who, now, limit, ids)), box, who, now, ids, 0, accepts, error)
  {
    NothingSettled(box, accepts, now, s.retryDelay, error);
    hide FirstEligible, AfterClaim, AfterSettling;
    assert ids[..0] == [];
  }

  lemma StillClaimed(box: Box, now: int, limit: nat, lease: int, ids: seq<OutboxId>, i: nat)
    requires FirstEligible(box, now, limit, ids) && i < |ids|
    ensures var claimed := AfterClaim(box, now, lease, ids); ids[i] in claimed && claimed[ids[i]].status == Claimed && ids[i] !in ids[..i]
  {
    assert ids[i] in ids;
  }

  /** A call of PublishPending that nothing interrupts is one run of those moves: it can be taken from any world in which the
      publisher is idle, and leaves exactly the table that the method is proved to leave. */
  lemma CallRunsToItsEnd(s: Settings, w: World, who: nat, now: int, limit: nat, ids: seq<OutboxId>, accepts: OutboxMessage -> bool, error: string)
    requires At(w, who).Idle? && FirstEligible(w.relay.box, now, limit, ids)
    ensures var box := AfterClaim(w.relay.box, now, s.lease, ids);
            var moves := Call(box, who, now, limit, ids, accepts, error);
            && CanMove(s, w, moves)
            && Reached(s, w, moves).relay.box == AfterSettling(box, ids, accepts, now, s.retryDelay, error)
  {
    hide AfterSettling, FirstEligible, AfterClaim, CanMove, Reached, Settling;
    SettlesInTurn(s, w, AfterClaim(w.relay.box, now, s.lease, ids), who, now, limit, ids, |ids|, accepts, error);
    assert ids[..|ids|] == ids;
  }
}
