/** The request limiter of apps/api/http.py:175-209 against one that remembers every allowed request. */
module RateLimits {
  import opened Results
  import opened Sorting

  datatype Limits = Limits(limit: int, window: int, maximumClients: int)

  // A Python dict of deques: its contents, and its keys in insertion order.
  datatype Table = Table(hits: map<string, seq<int>>, order: seq<string>)

  datatype LimiterError = NoClientToDrop

  datatype Hit = Hit(client: string, at: int)

  datatype Call = Call(client: string, now: int)

  ghost predicate WellFormed(t: Table) { Distinct(t.order) && forall c :: c in t.order <==> c in t.hits }

  // ----- The bounded table -----

  function Without(order: seq<string>, client: string): seq<string> {
    if order == [] then [] else
    var last := order[|order| - 1];
    if last == client then Without(order[..|order| - 1], client) else Without(order[..|order| - 1], client) + [last]
  }

  function Delete(t: Table, client: string): Table { Table(t.hits - {client}, Without(t.order, client)) }

  function DeleteAll(t: Table, clients: seq<string>): Table {
    if clients == [] then t else Delete(DeleteAll(t, clients[..|clients| - 1]), clients[|clients| - 1])
  }

  predicate Stale(hits: seq<int>, threshold: int) { hits == [] || hits[|hits| - 1] <= threshold }

  function StaleClients(t: Table, order: seq<string>, threshold: int): seq<string>
    requires forall c | c in order :: c in t.hits
  {
    if order == [] then [] else
    var last := order[|order| - 1];
    if Stale(t.hits[last], threshold) then StaleClients(t, order[..|order| - 1], threshold) + [last]
    else StaleClients(t, order[..|order| - 1], threshold)
  }

  ghost predicate NoneEmpty(t: Table) { forall c | c in t.hits :: t.hits[c] != [] }

  // The first client, in insertion order, whose latest hit is the earliest.
  function Oldest(t: Table, order: seq<string>): (c: string)
    requires order != [] && (forall c | c in order :: c in t.hits) && NoneEmpty(t)
    ensures c in order
  {
    var n := |order| - 1;
    if n == 0 then order[0] else
    var best := Oldest(t, order[..n]);
    var a, b := t.hits[order[n]], t.hits[best];
    if a[|a| - 1] < b[|b| - 1] then order[n] else best
  }

  lemma {:induction false} WithoutDrops(order: seq<string>, client: string)
    requires Distinct(order)
    ensures Distinct(Without(order, client)) && forall c :: c in Without(order, client) <==> c in order && c != client
    ensures |Without(order, client)| == if client in order then |order| - 1 else |order|
  {
    if order != [] {
      var front, last := order[..|order| - 1], order[|order| - 1];
      WithoutDrops(front, client);
      assert order == front + [last] && last !in front;
      var kept := Without(front, client);
      forall i | 0 <= i < |kept| ensures kept[i] != last { assert kept[i] in kept; }
    }
  }

  lemma DeleteWellFormed(t: Table, client: string)
    requires WellFormed(t)
    ensures WellFormed(Delete(t, client))
    ensures |Delete(t, client).order| == if client in t.hits then |t.order| - 1 else |t.order|
  {
    WithoutDrops(t.order, client);
  }

  function Shrink(t: Table, maximum: int): Table
    requires WellFormed(t) && NoneEmpty(t) && maximum >= 1
    decreases |t.order|
  {
    if |t.order| < maximum then t else
    DeleteWellFormed(t, Oldest(t, t.order));
    Shrink(Delete(t, Oldest(t, t.order)), maximum)
  }

  lemma {:induction false} StaleClientsAre(t: Table, order: seq<string>, threshold: int)
    requires forall c | c in order :: c in t.hits
    ensures forall c :: c in StaleClients(t, order, threshold) <==> c in order && Stale(t.hits[c], threshold)
  {
    if order != [] { StaleClientsAre(t, order[..|order| - 1], threshold); }
  }

  lemma {:induction false} DeleteAllDrops(t: Table, clients: seq<string>)
    requires WellFormed(t)
    ensures WellFormed(DeleteAll(t, clients))
    ensures DeleteAll(t, clients).hits == t.hits - (set c | c in clients)
    ensures |DeleteAll(t, clients).order| <= |t.order|
  {
    hide WellFormed, Without;
    if clients != [] {
      var front, last := clients[..|clients| - 1], clients[|clients| - 1];
      DeleteAllDrops(t, front);
      DeleteWellFormed(DeleteAll(t, front), last);
      assert (set c | c in clients) == (set c | c in front) + {last} by { assert clients == front + [last]; }
    }
  }

  function DropStale(t: Table, threshold: int): (r: Table)
    requires WellFormed(t)
    ensures WellFormed(r) && NoneEmpty(r) && |r.order| <= |t.order|
    ensures forall c :: c in r.hits <==> c in t.hits && !Stale(t.hits[c], threshold)
    ensures forall c | c in r.hits :: r.hits[c] == t.hits[c]
  {
    StaleClientsAre(t, t.order, threshold);
    DeleteAllDrops(t, StaleClients(t, t.order, threshold));
    DeleteAll(t, StaleClients(t, t.order, threshold))
  }

  function MakeRoom(t: Table, threshold: int, maximum: int): Table
    requires WellFormed(t) && maximum >= 1
  {
    Shrink(DropStale(t, threshold), maximum)
  }

  lemma {:induction false} ShrinkKeepsDeques(t: Table, maximum: int)
    requires WellFormed(t) && NoneEmpty(t) && maximum >= 1
    ensures var r := Shrink(t, maximum);
            WellFormed(r) && |r.order| < maximum && forall c | c in r.hits :: c in t.hits && r.hits[c] == t.hits[c]
    decreases |t.order|
  {
    if |t.order| >= maximum {
      DeleteWellFormed(t, Oldest(t, t.order));
      ShrinkKeepsDeques(Delete(t, Oldest(t, t.order)), maximum);
    }
  }

  function Prune(hits: seq<int>, threshold: int): seq<int> {
    if hits != [] && hits[0] <= threshold then Prune(hits[1..], threshold) else hits
  }

  function Seated(t: Table, client: string, threshold: int, maximum: int): (r: Table)
    requires WellFormed(t) && maximum >= 1
    ensures WellFormed(r) && client in r.hits
    ensures forall c | c in r.hits :: r.hits[c] == if c in t.hits then t.hits[c] else []
    ensures |t.order| <= maximum ==> |r.order| <= maximum
  {
    var roomy := if client !in t.hits && |t.order| >= maximum then
        ShrinkKeepsDeques(DropStale(t, threshold), maximum); MakeRoom(t, threshold, maximum)
      else t;
    if client in roomy.hits then roomy else Table(roomy.hits[client := []], roomy.order + [client])
  }

  function Admit(limits: Limits, t: Table, client: string, now: int): (r: (Table, bool))
    requires WellFormed(t) && limits.maximumClients >= 1
    ensures WellFormed(r.0)
  {
    var seated := Seated(t, client, now - limits.window, limits.maximumClients);
    var hits := Prune(seated.hits[client], now - limits.window);
    if |hits| >= limits.limit then (seated.(hits := seated.hits[client := hits]), false)
    else (seated.(hits := seated.hits[client := hits + [now]]), true)
  }

  // ----- The limiter as the process holds it -----

  // `min` over the keys: the first of the least.
  method OldestOf(t: Table, order: seq<string>) returns (client: string)
    requires order != [] && (forall c | c in order :: c in t.hits) && NoneEmpty(t)
    ensures client == Oldest(t, order)
  {
    client := order[0];
    assert order[..1] == [order[0]];
    for i := 1 to |order|
      invariant client in order && client == Oldest(t, order[..i])
    {
      assert order[..i + 1][..i] == order[..i];
      assert order[i] in order;
      var a, b := t.hits[order[i]], t.hits[client];
      if a[|a| - 1] < b[|b| - 1] { client := order[i]; }
    }
    assert order[..|order|] == order;
  }

  method DropOld(hits: seq<int>, threshold: int) returns (deque: seq<int>)
    ensures deque == Prune(hits, threshold)
  {
    deque := hits;
    while deque != [] && deque[0] <= threshold
      invariant Prune(hits, threshold) == Prune(deque, threshold)
      decreases |deque|
    {
      deque := deque[1..];
    }
  }

  class RateLimiter {
    const limits: Limits
    var hits: map<string, seq<int>>
    var order: seq<string>

    function State(): Table reads this { Table(hits, order) }

    constructor (limits: Limits)
      ensures this.limits == limits && State() == Table(map[], []) && WellFormed(State())
    {
      this.limits := limits;
      hits, order := map[], [];
    }

    method Remove(client: string)
      modifies this
      ensures State() == Delete(old(State()), client)
    {
      hits, order := hits - {client}, Without(order, client);
    }

    method FindStale(threshold: int) returns (clients: seq<string>)
      requires WellFormed(State())
      ensures clients == StaleClients(State(), order, threshold)
    {
      clients := [];
      for i := 0 to |order|
        invariant clients == StaleClients(State(), order[..i], threshold)
      {
        assert order[..i + 1][..i] == order[..i];
        if Stale(hits[order[i]], threshold) { clients := clients + [order[i]]; }
      }
      assert order[..|order|] == order;
    }

    method FindOldest() returns (client: string)
      requires WellFormed(State()) && NoneEmpty(State()) && order != []
      ensures client == Oldest(State(), order)
    {
      client := OldestOf(State(), order);
    }

    // Without room for a single client there is nothing left to drop, and the source raises.
    method MakeSpace(threshold: int) returns (ok: bool)
      requires WellFormed(State())
      modifies this
      ensures ok <==> limits.maximumClients >= 1
      ensures WellFormed(State())
      ensures ok ==> State() == MakeRoom(old(State()), threshold, limits.maximumClients)
      ensures !ok ==> State() == Table(map[], [])
    {
      ghost var t := State();
      var stale := FindStale(threshold);
      for i := 0 to |stale|
        invariant State() == DeleteAll(t, stale[..i])
      {
        assert stale[..i + 1][..i] == stale[..i];
        Remove(stale[i]);
      }
      assert stale[..|stale|] == stale;
      ghost var dropped := DropStale(t, threshold);
      while |order| >= limits.maximumClients
        invariant WellFormed(State()) && NoneEmpty(State())
        invariant limits.maximumClients >= 1 ==> Shrink(dropped, limits.maximumClients) == Shrink(State(), limits.maximumClients)
        decreases |order|
      {
        if order == [] {
          assert hits == map[];
          return false;
        }
        var client := FindOldest();
        DeleteWellFormed(State(), client);
        Remove(client);
      }
      return true;
    }

    method Allow(client: string, now: int) returns (r: Result<bool, LimiterError>)
      requires WellFormed(State()) && (limits.maximumClients < 1 ==> State() == Table(map[], []))
      modifies this
      ensures WellFormed(State())
      ensures limits.maximumClients < 1 ==> r == Failure(NoClientToDrop) && State() == old(State())
      ensures limits.maximumClients >= 1 ==>
                State() == Admit(limits, old(State()), client, now).0
                && r == Success(Admit(limits, old(State()), client, now).1)
    {
      hide Shrink, DropStale, Prune;
      var threshold := now - limits.window;
      if client !in hits && |order| >= limits.maximumClients {
        var ok := MakeSpace(threshold);
        if !ok { return Failure(NoClientToDrop); }
      }
      if client !in hits { hits, order := hits[client := []], order + [client]; }
      var deque := DropOld(hits[client], threshold);
      if |deque| >= limits.limit {
        hits := hits[client := deque];
        return Success(false);
      }
      hits := hits[client := deque + [now]];
      return Success(true);
    }
  }

  // ----- The limiter that forgets nothing -----

  function TimesOf(history: seq<Hit>, client: string): seq<int> {
    if history == [] then [] else
    var h := history[|history| - 1];
    if h.client == client then TimesOf(history[..|history| - 1], client) + [h.at] else TimesOf(history[..|history| - 1], client)
  }

  // The allowed requests of the client after the threshold.
  function Recent(times: seq<int>, threshold: int): nat {
    if times == [] then 0
    else Recent(times[..|times| - 1], threshold) + if times[|times| - 1] > threshold then 1 else 0
  }

  predicate NaiveAllows(limits: Limits, history: seq<Hit>, call: Call) {
    Recent(TimesOf(history, call.client), call.now - limits.window) < limits.limit
  }

  function Naive(limits: Limits, calls: seq<Call>): seq<Hit> {
    if calls == [] then [] else
    var history, call := Naive(limits, calls[..|calls| - 1]), calls[|calls| - 1];
    if NaiveAllows(limits, history, call) then history + [Hit(call.client, call.now)] else history
  }

  function LiveClients(history: seq<Hit>, threshold: int): set<string> { set h | h in history && h.at > threshold :: h.client }

  ghost predicate Ascending(times: seq<int>) { forall i, j | 0 <= i < j < |times| :: times[i] <= times[j] }

  ghost predicate InOrder(calls: seq<Call>) { forall i, j | 0 <= i < j < |calls| :: calls[i].now <= calls[j].now }

  // ----- What a run does -----

  datatype World = World(table: Table, history: seq<Hit>)

  ghost function Step(limits: Limits, w: World, call: Call): World
    requires WellFormed(w.table) && limits.maximumClients >= 1
  {
    var (table, allowed) := Admit(limits, w.table, call.client, call.now);
    World(table, if allowed then w.history + [Hit(call.client, call.now)] else w.history)
  }

  ghost function Run(limits: Limits, calls: seq<Call>): (w: World)
    requires limits.maximumClients >= 1
    ensures WellFormed(w.table)
  {
    if calls == [] then World(Table(map[], []), [])
    else Step(limits, Run(limits, calls[..|calls| - 1]), calls[|calls| - 1])
  }

  function Deque(t: Table, client: string): seq<int> { if client in t.hits then t.hits[client] else [] }

  // The table's deque is the end of the client's allowed requests; complete, when what is missing is no longer recent.
  ghost predicate EndOf(deque: seq<int>, times: seq<int>) { |deque| <= |times| && deque == times[|times| - |deque|..] }

  ghost predicate CompleteFor(deque: seq<int>, times: seq<int>, threshold: int) {
    EndOf(deque, times) && forall i | 0 <= i < |times| - |deque| :: times[i] <= threshold
  }

  ghost predicate Inv(limits: Limits, w: World) {
    && WellFormed(w.table) && |w.table.order| <= limits.maximumClients
    && (forall c :: EndOf(Deque(w.table, c), TimesOf(w.history, c)))
    && (forall c :: Ascending(TimesOf(w.history, c)))
  }

  ghost predicate NotAfter(history: seq<Hit>, now: int) { forall h | h in history :: h.at <= now }

  ghost predicate Complete(w: World, threshold: int) {
    forall c :: CompleteFor(Deque(w.table, c), TimesOf(w.history, c), threshold)
  }

  lemma {:induction false} TimesBelong(history: seq<Hit>, client: string)
    ensures forall i | 0 <= i < |TimesOf(history, client)| :: Hit(client, TimesOf(history, client)[i]) in history
  {
    if history != [] {
      TimesBelong(history[..|history| - 1], client);
      assert history == history[..|history| - 1] + [history[|history| - 1]];
    }
  }

  // Pruning an ascending deque drops exactly what is no longer recent.
  lemma {:induction false} PruneDropsTheOld(hits: seq<int>, threshold: int)
    requires Ascending(hits)
    ensures EndOf(Prune(hits, threshold), hits) && CompleteFor(Prune(hits, threshold), hits, threshold)
    ensures forall i | 0 <= i < |Prune(hits, threshold)| :: Prune(hits, threshold)[i] > threshold
  {
    if hits != [] && hits[0] <= threshold { PruneDropsTheOld(hits[1..], threshold); }
  }

  lemma {:induction false} RecentOf(times: seq<int>, k: nat, threshold: int)
    requires k <= |times| && forall i | k <= i < |times| :: times[i] > threshold
    ensures Recent(times, threshold) >= |times| - k
    ensures (forall i | 0 <= i < k :: times[i] <= threshold) ==> Recent(times, threshold) == |times| - k
  {
    if times != [] {
      if k == |times| { NoneRecent(times, threshold); } else { RecentOf(times[..|times| - 1], k, threshold); }
    }
  }

  lemma {:induction false} NoneRecent(times: seq<int>, threshold: int)
    ensures (forall i | 0 <= i < |times| :: times[i] <= threshold) ==> Recent(times, threshold) == 0
  {
    if times != [] { NoneRecent(times[..|times| - 1], threshold); }
  }

  // One client's answer, from the end of its requests that the table kept.
  lemma AnswerFrom(deque: seq<int>, times: seq<int>, threshold: int)
    requires Ascending(times) && EndOf(deque, times)
    ensures var kept := Prune(deque, threshold);
            && EndOf(kept, times) && |kept| <= Recent(times, threshold)
            && (CompleteFor(deque, times, threshold) ==> CompleteFor(kept, times, threshold) && |kept| == Recent(times, threshold))
  {
    PruneDropsTheOld(deque, threshold);
    EndOfEnd(Prune(deque, threshold), deque, times, threshold);
    hide Prune, Recent;
    RecentOf(times, |times| - |Prune(deque, threshold)|, threshold);
  }

  lemma EndOfEnd(kept: seq<int>, deque: seq<int>, times: seq<int>, threshold: int)
    requires EndOf(deque, times) && CompleteFor(kept, deque, threshold)
    ensures EndOf(kept, times)
    ensures CompleteFor(deque, times, threshold) ==> CompleteFor(kept, times, threshold)
  {
    var d := |times| - |deque|;
    assert forall i | 0 <= i < |deque| :: times[d + i] == deque[i];
  }

  lemma Appended(deque: seq<int>, times: seq<int>, now: int, threshold: int)
    requires EndOf(deque, times)
    ensures EndOf(deque + [now], times + [now])
    ensures CompleteFor(deque, times, threshold) ==> CompleteFor(deque + [now], times + [now], threshold)
  {
  }

  lemma NextTimes(history: seq<Hit>, h: Hit)
    ensures TimesOf(history + [h], h.client) == TimesOf(history, h.client) + [h.at]
    ensures forall c | c != h.client :: TimesOf(history + [h], c) == TimesOf(history, c)
  {
    assert (history + [h])[..|history|] == history;
  }

  /** No request is refused to a client with fewer than limit recent ones, and the table never outgrows its bound. */
  lemma StepKeepsInv(limits: Limits, w: World, call: Call)
    requires limits.maximumClients >= 1 && Inv(limits, w) && NotAfter(w.history, call.now)
    ensures Inv(limits, Step(limits, w, call)) && NotAfter(Step(limits, w, call).history, call.now)
    ensures NaiveAllows(limits, w.history, call) ==> Admit(limits, w.table, call.client, call.now).1
  {
    hide Seated, Prune, EndOf, Ascending, Recent, TimesOf, Without;
    var w' := Step(limits, w, call);
    var threshold := call.now - limits.window;
    var seated := Seated(w.table, call.client, threshold, limits.maximumClients);
    var times := TimesOf(w.history, call.client);
    var kept := Prune(seated.hits[call.client], threshold);
    EmptyEnds(times);
    AnswerFrom(seated.hits[call.client], times, threshold);
    NextTimes(w.history, Hit(call.client, call.now));
    forall c ensures EndOf(Deque(w'.table, c), TimesOf(w'.history, c)) && Ascending(TimesOf(w'.history, c)) {
      EmptyEnds(TimesOf(w'.history, c));
      if c == call.client {
        Appended(kept, times, call.now, threshold);
        TimesBelong(w.history, c);
        StillAscending(times, call.now);
      }
    }
  }

  lemma StillAscending(times: seq<int>, now: int)
    requires Ascending(times) && forall i | 0 <= i < |times| :: times[i] <= now
    ensures Ascending(times + [now])
  {
  }

  lemma EmptyEnds(times: seq<int>)
    ensures EndOf([], times)
  {
    assert times[|times|..] == [];
  }

  // The caller has a place, or there is room for it, if need be after the stale clients went.
  predicate Spares(limits: Limits, t: Table, call: Call)
    requires WellFormed(t)
  {
    || call.client in t.hits || |t.order| < limits.maximumClients
    || |DropStale(t, call.now - limits.window).order| < limits.maximumClients
  }

  // The client is live, and loses its place to the call.
  ghost predicate Loses(limits: Limits, t: Table, call: Call, c: string)
    requires WellFormed(t) && limits.maximumClients >= 1
  {
    var threshold := call.now - limits.window;
    c in t.hits && !Stale(t.hits[c], threshold) && c !in Seated(t, call.client, threshold, limits.maximumClients).hits
  }

  /** A call takes a live client's place exactly when it has none itself and even without the stale clients there is no room. */
  lemma LosesExactlyWhen(limits: Limits, t: Table, call: Call)
    requires WellFormed(t) && limits.maximumClients >= 1
    ensures (exists c :: Loses(limits, t, call, c)) <==> !Spares(limits, t, call)
    ensures !Spares(limits, t, call) ==> |Seated(t, call.client, call.now - limits.window, limits.maximumClients).order| == limits.maximumClients
  {
    hide *;
    if Spares(limits, t, call) { NobodyLoses(limits, t, call); } else { SomebodyLoses(limits, t, call); }
  }

  lemma NobodyLoses(limits: Limits, t: Table, call: Call)
    requires WellFormed(t) && limits.maximumClients >= 1 && Spares(limits, t, call)
    ensures !exists c :: Loses(limits, t, call, c)
  {
    hide StaleClients, DeleteAll, Oldest, WellFormed, Stale;
    var dropped := DropStale(t, call.now - limits.window);
    if call.client !in t.hits && |t.order| >= limits.maximumClients {
      assert Shrink(dropped, limits.maximumClients) == dropped;
    }
  }

  lemma SomebodyLoses(limits: Limits, t: Table, call: Call)
    requires WellFormed(t) && limits.maximumClients >= 1 && !Spares(limits, t, call)
    ensures exists c :: Loses(limits, t, call, c)
    ensures |Seated(t, call.client, call.now - limits.window, limits.maximumClients).order| == limits.maximumClients
  {
    hide StaleClients, DeleteAll, Oldest, Shrink, Stale;
    var dropped := DropStale(t, call.now - limits.window);
    var c := Oldest(dropped, dropped.order);
    ShrinkDropsOldest(dropped, limits.maximumClients);
    assert Loses(limits, t, call, c);
  }

  lemma ShrinkDropsOldest(t: Table, maximum: int)
    requires WellFormed(t) && NoneEmpty(t) && maximum >= 1 && |t.order| >= maximum
    ensures Oldest(t, t.order) !in Shrink(t, maximum).hits
    ensures |Shrink(t, maximum).order| == maximum - 1
    ensures forall c | c in Shrink(t, maximum).hits :: c in t.hits
  {
    DeleteWellFormed(t, Oldest(t, t.order));
    ShrinkKeepsDeques(Delete(t, Oldest(t, t.order)), maximum);
    ShrinkFills(t, maximum);
    ShrinkKeepsDeques(t, maximum);
  }

  lemma {:induction false} ShrinkFills(t: Table, maximum: int)
    requires WellFormed(t) && NoneEmpty(t) && maximum >= 1 && |t.order| >= maximum - 1
    ensures |Shrink(t, maximum).order| == maximum - 1
    decreases |t.order|
  {
    if |t.order| >= maximum {
      DeleteWellFormed(t, Oldest(t, t.order));
      ShrinkFills(Delete(t, Oldest(t, t.order)), maximum);
    }
  }

  // With fewer live clients than the bound, there is always room.
  lemma RoomForTheLive(limits: Limits, w: World, call: Call)
    requires limits.maximumClients >= 1 && Inv(limits, w)
    requires |LiveClients(w.history, call.now - limits.window)| < limits.maximumClients
    ensures Spares(limits, w.table, call)
  {
    hide Ascending, TimesOf, Recent, StaleClients, DeleteAll;
    var threshold := call.now - limits.window;
    var dropped := DropStale(w.table, threshold);
    forall c | c in dropped.hits ensures c in LiveClients(w.history, threshold) { LiveIsRecorded(limits, w, c, threshold); }
    FewKeys(dropped.order, LiveClients(w.history, threshold));
  }

  lemma LiveIsRecorded(limits: Limits, w: World, c: string, threshold: int)
    requires Inv(limits, w) && c in w.table.hits && !Stale(w.table.hits[c], threshold)
    ensures c in LiveClients(w.history, threshold) && exists h :: h in w.history && h.at > threshold
    ensures TimesOf(w.history, c) != [] && TimesOf(w.history, c)[|TimesOf(w.history, c)| - 1] > threshold
  {
    hide Ascending, TimesOf, Recent;
    var deque, times := w.table.hits[c], TimesOf(w.history, c);
    assert EndOf(Deque(w.table, c), times);
    TimesBelong(w.history, c);
    assert deque[|deque| - 1] == times[|times| - 1];
    assert Hit(c, times[|times| - 1]) in w.history;
  }

  lemma {:induction false} FewKeys(order: seq<string>, clients: set<string>)
    requires Distinct(order) && forall c | c in order :: c in clients
    ensures |order| <= |clients|
  {
    if order != [] {
      var last := order[|order| - 1];
      FewKeys(order[..|order| - 1], clients - {last});
    }
  }

  lemma StaleIsComplete(deque: seq<int>, times: seq<int>, threshold: int)
    requires Ascending(times) && CompleteFor(deque, times, threshold) && Stale(deque, threshold)
    ensures CompleteFor([], times, threshold)
  {
    EmptyEnds(times);
    forall i | 0 <= i < |times| ensures times[i] <= threshold {
      if deque != [] { assert times[|times| - 1] == deque[|deque| - 1]; }
    }
  }

  lemma LaterIsComplete(w: World, earlier: int, threshold: int)
    requires Complete(w, earlier) && earlier <= threshold
    ensures Complete(w, threshold)
  {
    hide TimesOf, Deque, EndOf;
  }

  // What a step makes of the table and the record.
  lemma StepShape(limits: Limits, w: World, call: Call)
    requires limits.maximumClients >= 1 && WellFormed(w.table)
    ensures var threshold, w' := call.now - limits.window, Step(limits, w, call);
            var seated := Seated(w.table, call.client, threshold, limits.maximumClients);
            var kept := Prune(seated.hits[call.client], threshold);
            && (Admit(limits, w.table, call.client, call.now).1 <==> |kept| < limits.limit)
            && w'.history == (if |kept| < limits.limit then w.history + [Hit(call.client, call.now)] else w.history)
            && Deque(w'.table, call.client) == (if |kept| < limits.limit then kept + [call.now] else kept)
            && forall c | c != call.client :: Deque(w'.table, c) == Deque(seated, c)
  {
    hide Seated, Prune;
  }

  // The answer of a complete table is the naive one, and the table stays complete.
  lemma StepKeepsComplete(limits: Limits, w: World, call: Call)
    requires limits.maximumClients >= 1 && Inv(limits, w) && Complete(w, call.now - limits.window)
    requires WellFormed(w.table) && Spares(limits, w.table, call)
    ensures Admit(limits, w.table, call.client, call.now).1 <==> NaiveAllows(limits, w.history, call)
    ensures Complete(Step(limits, w, call), call.now - limits.window)
  {
    hide *;
    var threshold := call.now - limits.window;
    InvAt(limits, w, call.client);
    CompleteAt(w, threshold, call.client);
    ClientAnswered(limits, w, call, threshold);
    forall c ensures CompleteFor(Deque(Step(limits, w, call).table, c), TimesOf(Step(limits, w, call).history, c), threshold) {
      if c != call.client { OtherStaysComplete(limits, w, call, threshold, c); }
    }
    AllComplete(Step(limits, w, call), threshold);
  }

  lemma AllComplete(w: World, threshold: int)
    requires forall c :: CompleteFor(Deque(w.table, c), TimesOf(w.history, c), threshold)
    ensures Complete(w, threshold)
  {
    hide CompleteFor, Deque, TimesOf;
  }

  lemma InvAt(limits: Limits, w: World, c: string)
    requires Inv(limits, w)
    ensures WellFormed(w.table) && EndOf(Deque(w.table, c), TimesOf(w.history, c)) && Ascending(TimesOf(w.history, c))
  {
    hide EndOf, Ascending, TimesOf, Deque, WellFormed;
  }

  lemma CompleteAt(w: World, threshold: int, c: string)
    requires Complete(w, threshold)
    ensures CompleteFor(Deque(w.table, c), TimesOf(w.history, c), threshold)
  {
    hide CompleteFor, TimesOf, Deque;
  }

  lemma DequeIs(t: Table, c: string)
    ensures Deque(t, c) == if c in t.hits then t.hits[c] else []
  {
  }

  lemma NaiveAnswer(limits: Limits, history: seq<Hit>, call: Call)
    ensures NaiveAllows(limits, history, call) <==> Recent(TimesOf(history, call.client), call.now - limits.window) < limits.limit
  {
  }

  // The calling client: its answer and its own deque.
  lemma ClientAnswered(limits: Limits, w: World, call: Call, threshold: int)
    requires limits.maximumClients >= 1 && Inv(limits, w) && threshold == call.now - limits.window
    requires CompleteFor(Deque(w.table, call.client), TimesOf(w.history, call.client), threshold)
    requires WellFormed(w.table)
    ensures Admit(limits, w.table, call.client, call.now).1 <==> NaiveAllows(limits, w.history, call)
    ensures CompleteFor(Deque(Step(limits, w, call).table, call.client), TimesOf(Step(limits, w, call).history, call.client), threshold)
  {
    hide *;
    var seated := Seated(w.table, call.client, threshold, limits.maximumClients);
    var times := TimesOf(w.history, call.client);
    StepShape(limits, w, call);
    InvAt(limits, w, call.client);
    DequeIs(w.table, call.client);
    AnswerFrom(seated.hits[call.client], times, threshold);
    NaiveAnswer(limits, w.history, call);
    NextTimes(w.history, Hit(call.client, call.now));
    CompleteEnds(Prune(seated.hits[call.client], threshold), times, threshold);
    Appended(Prune(seated.hits[call.client], threshold), times, call.now, threshold);
  }

  lemma CompleteEnds(deque: seq<int>, times: seq<int>, threshold: int)
    requires CompleteFor(deque, times, threshold)
    ensures EndOf(deque, times)
  {
  }

  // Any other client: its deque stays, or was stale and went.
  lemma OtherStaysComplete(limits: Limits, w: World, call: Call, threshold: int, c: string)
    requires limits.maximumClients >= 1 && Inv(limits, w) && Complete(w, threshold) && threshold == call.now - limits.window
    requires c != call.client && WellFormed(w.table) && Spares(limits, w.table, call)
    ensures CompleteFor(Deque(Step(limits, w, call).table, c), TimesOf(Step(limits, w, call).history, c), threshold)
  {
    hide *;
    var seated := Seated(w.table, call.client, threshold, limits.maximumClients);
    StepShape(limits, w, call);
    LosesExactlyWhen(limits, w.table, call);
    LosesNothing(limits, w.table, call, c);
    NextTimes(w.history, Hit(call.client, call.now));
    InvAt(limits, w, c);
    CompleteAt(w, threshold, c);
    DequeIs(w.table, c);
    DequeIs(seated, c);
    if c in w.table.hits && c !in seated.hits { StaleIsComplete(w.table.hits[c], TimesOf(w.history, c), threshold); }
  }

  lemma LosesNothing(limits: Limits, t: Table, call: Call, c: string)
    requires WellFormed(t) && limits.maximumClients >= 1 && !Loses(limits, t, call, c)
    ensures var threshold := call.now - limits.window;
            c in t.hits && c !in Seated(t, call.client, threshold, limits.maximumClients).hits ==> Stale(t.hits[c], threshold)
  {
    hide Seated;
  }

  lemma {:induction false} RunKeepsInv(limits: Limits, calls: seq<Call>)
    requires limits.maximumClients >= 1 && InOrder(calls)
    ensures Inv(limits, Run(limits, calls))
    ensures calls != [] ==> NotAfter(Run(limits, calls).history, calls[|calls| - 1].now)
  {
    hide Step, Admit;
    if calls == [] {
      Nothing(limits);
    } else {
      var n := |calls| - 1;
      RunKeepsInv(limits, calls[..n]);
      var w := Run(limits, calls[..n]);
      if n == 0 { assert calls[..n] == []; } else { assert calls[..n][n - 1].now <= calls[n].now; }
      StepKeepsInv(limits, w, calls[n]);
    }
  }

  lemma Nothing(limits: Limits)
    requires limits.maximumClients >= 1
    ensures Inv(limits, World(Table(map[], []), [])) && forall now :: Complete(World(Table(map[], []), []), now)
  {
  }

  /** On every run with a clock that never goes back, the table holds at most maximumClients clients, and a request is
      refused only when its client really has limit allowed requests in the window. */
  lemma RefusalsAreJustified(limits: Limits, calls: seq<Call>, i: nat)
    requires limits.maximumClients >= 1 && InOrder(calls) && i < |calls|
    ensures var w := Run(limits, calls[..i]);
            && |w.table.hits| <= limits.maximumClients
            && (!Admit(limits, w.table, calls[i].client, calls[i].now).1 ==>
                  Recent(TimesOf(w.history, calls[i].client), calls[i].now - limits.window) >= limits.limit)
  {
    hide Step, Admit;
    RunKeepsInv(limits, calls[..i]);
    RunKeepsInv(limits, calls[..i + 1]);
    var w := Run(limits, calls[..i]);
    assert NotAfter(w.history, calls[i].now);
    StepKeepsInv(limits, w, calls[i]);
    KeysOfOrder(w.table);
  }

  lemma KeysOfOrder(t: Table)
    requires WellFormed(t)
    ensures |t.hits| == |t.order|
  {
    CountDistinct(t.order, t.hits.Keys);
    assert |t.hits| == |t.hits.Keys|;
  }

  lemma {:induction false} CountDistinct(order: seq<string>, clients: set<string>)
    requires Distinct(order) && forall c :: c in order <==> c in clients
    ensures |order| == |clients|
  {
    if order == [] {
      assert clients == {};
    } else {
      CountDistinct(order[..|order| - 1], clients - {order[|order| - 1]});
    }
  }

  // No call of the run takes a live client's place.
  ghost predicate Undropped(limits: Limits, calls: seq<Call>)
    requires limits.maximumClients >= 1
  {
    forall i | 0 <= i < |calls| :: Spares(limits, Run(limits, calls[..i]).table, calls[i])
  }

  /** As long as no call takes a live client's place, the bounded limiter is the one that forgets nothing. */
  lemma {:induction false} BoundedIsNaive(limits: Limits, calls: seq<Call>)
    requires limits.maximumClients >= 1 && InOrder(calls) && Undropped(limits, calls)
    ensures Run(limits, calls).history == Naive(limits, calls)
    ensures calls != [] ==> Complete(Run(limits, calls), calls[|calls| - 1].now - limits.window)
    ensures calls != [] ==>
              var n := |calls| - 1;
              Admit(limits, Run(limits, calls[..n]).table, calls[n].client, calls[n].now).1 <==> NaiveAllows(limits, Naive(limits, calls[..n]), calls[n])
  {
    hide *;
    if calls == [] {
      RunNone(limits);
    } else {
      var n := |calls| - 1;
      var w, call := Run(limits, calls[..n]), calls[n];
      Shorter(limits, calls);
      BoundedIsNaive(limits, calls[..n]);
      RunKeepsInv(limits, calls[..n]);
      InTurn(calls);
      if n == 0 { RunNone(limits); } else { LaterIsComplete(w, calls[n - 1].now - limits.window, call.now - limits.window); }
      StepKeepsComplete(limits, w, call);
      StepRecords(limits, w, call);
      RunMore(limits, calls[..n], call);
      assert calls == calls[..n] + [call];
    }
  }

  lemma InTurn(calls: seq<Call>)
    requires InOrder(calls)
    ensures |calls| > 1 ==> calls[..|calls| - 1][|calls| - 2] == calls[|calls| - 2] && calls[|calls| - 2].now <= calls[|calls| - 1].now
  {
  }

  lemma Shorter(limits: Limits, calls: seq<Call>)
    requires limits.maximumClients >= 1 && InOrder(calls) && Undropped(limits, calls) && calls != []
    ensures InOrder(calls[..|calls| - 1]) && Undropped(limits, calls[..|calls| - 1])
    ensures Spares(limits, Run(limits, calls[..|calls| - 1]).table, calls[|calls| - 1])
  {
    hide Spares, Run;
    var n := |calls| - 1;
    assert forall i | 0 <= i < n :: calls[..n][i] == calls[i] && calls[..n][..i] == calls[..i];
  }

  lemma StepRecords(limits: Limits, w: World, call: Call)
    requires limits.maximumClients >= 1 && WellFormed(w.table)
    ensures Step(limits, w, call).history ==
              if Admit(limits, w.table, call.client, call.now).1 then w.history + [Hit(call.client, call.now)] else w.history
  {
  }

  // At each call of the naive limiter, fewer clients than the bound have an allowed request in the window.
  ghost predicate Roomy(limits: Limits, calls: seq<Call>) {
    forall i | 0 <= i < |calls| :: |LiveClients(Naive(limits, calls[..i]), calls[i].now - limits.window)| < limits.maximumClients
  }

  /** In particular while fewer than maximumClients clients are live. */
  lemma {:induction false} RoomyIsUndropped(limits: Limits, calls: seq<Call>)
    requires limits.maximumClients >= 1 && InOrder(calls) && Roomy(limits, calls)
    ensures Undropped(limits, calls)
  {
    hide Admit, NaiveAllows, LiveClients, Inv, Step, Spares, Naive, Run;
    if calls != [] {
      var n := |calls| - 1;
      assert forall i | 0 <= i < n :: calls[..n][i] == calls[i] && calls[..n][..i] == calls[..i];
      RoomyIsUndropped(limits, calls[..n]);
      BoundedIsNaive(limits, calls[..n]);
      RunKeepsInv(limits, calls[..n]);
      RoomForTheLive(limits, Run(limits, calls[..n]), calls[n]);
    }
  }

  // ----- One client asking again and again at one moment -----

  function Repeat(call: Call, k: nat): seq<Call> { seq(k, i => call) }

  lemma RunMore(limits: Limits, calls: seq<Call>, call: Call)
    requires limits.maximumClients >= 1
    ensures Run(limits, calls + [call]) == Step(limits, Run(limits, calls), call)
    ensures Naive(limits, calls + [call]) ==
              if NaiveAllows(limits, Naive(limits, calls), call) then Naive(limits, calls) + [Hit(call.client, call.now)] else Naive(limits, calls)
  {
    hide Step, NaiveAllows;
    assert (calls + [call])[..|calls|] == calls;
  }

  lemma OneMore(calls: seq<Call>, call: Call, k: nat)
    ensures calls + Repeat(call, k + 1) == (calls + Repeat(call, k)) + [call]
    ensures calls + Repeat(call, 0) == calls
  {
  }

  lemma StillInOrder(calls: seq<Call>, call: Call, k: nat)
    requires InOrder(calls) && (calls != [] ==> calls[|calls| - 1].now <= call.now)
    ensures InOrder(calls + Repeat(call, k))
  {
  }

  // A client the table has all of is answered right, however often it asks and whomever it displaces.
  lemma {:induction false} OneClientIsExact(limits: Limits, calls: seq<Call>, call: Call, k: nat)
    requires limits.maximumClients >= 1 && InOrder(calls) && (calls != [] ==> calls[|calls| - 1].now <= call.now)
    requires Run(limits, calls).history == Naive(limits, calls)
    requires CompleteFor(Deque(Run(limits, calls).table, call.client), TimesOf(Run(limits, calls).history, call.client), call.now - limits.window)
    ensures var w := Run(limits, calls + Repeat(call, k));
            && w.history == Naive(limits, calls + Repeat(call, k))
            && CompleteFor(Deque(w.table, call.client), TimesOf(w.history, call.client), call.now - limits.window)
  {
    hide Admit, NaiveAllows, Inv, Step, Run, Naive, CompleteFor, TimesOf, Deque, Repeat;
    if k == 0 {
      OneMore(calls, call, 0);
    } else {
      var before := calls + Repeat(call, k - 1);
      var w := Run(limits, before);
      OneClientIsExact(limits, calls, call, k - 1);
      OneMore(calls, call, k - 1);
      StillInOrder(calls, call, k - 1);
      RunKeepsInv(limits, before);
      ClientAnswered(limits, w, call, call.now - limits.window);
      StepRecords(limits, w, call);
      RunMore(limits, before, call);
    }
  }

  // A client that lost its place gets limit requests all over again.
  lemma {:induction false} ReturnedClient(limits: Limits, calls: seq<Call>, call: Call, k: nat)
    requires limits.maximumClients >= 1 && limits.window > 0 && k <= limits.limit && InOrder(calls)
    requires call.client !in Run(limits, calls).table.hits
    ensures var w, before := Run(limits, calls + Repeat(call, k)), Run(limits, calls);
            && Deque(w.table, call.client) == seq(k, i => call.now)
            && w.history == before.history + seq(k, i => Hit(call.client, call.now))
    ensures k > 0 ==> Admit(limits, Run(limits, calls + Repeat(call, k - 1)).table, call.client, call.now).1
  {
    hide Admit, NaiveAllows, Inv, Step, Run, Naive, CompleteFor, TimesOf, Repeat;
    if k == 0 {
      OneMore(calls, call, 0);
    } else {
      var before := calls + Repeat(call, k - 1);
      ReturnedClient(limits, calls, call, k - 1);
      OneMore(calls, call, k - 1);
      RunMore(limits, before, call);
      ReturnedAgain(limits, Run(limits, before), call, k - 1);
      assert seq(k, i => call.now) == seq(k - 1, i => call.now) + [call.now];
      assert seq(k, i => Hit(call.client, call.now)) == seq(k - 1, i => Hit(call.client, call.now)) + [Hit(call.client, call.now)];
    }
  }

  // One more of its requests is allowed while the deque holds fewer than limit of them.
  lemma ReturnedAgain(limits: Limits, w: World, call: Call, k: nat)
    requires limits.maximumClients >= 1 && limits.window > 0 && k < limits.limit && WellFormed(w.table)
    requires Deque(w.table, call.client) == seq(k, i => call.now)
    ensures Admit(limits, w.table, call.client, call.now).1
    ensures Deque(Step(limits, w, call).table, call.client) == seq(k, i => call.now) + [call.now]
    ensures Step(limits, w, call).history == w.history + [Hit(call.client, call.now)]
  {
    hide *;
    var threshold := call.now - limits.window;
    StepShape(limits, w, call);
    AllNow(k, call.now, threshold);
    SeatedDeque(limits, w.table, call);
  }

  lemma AllNow(k: nat, now: int, threshold: int)
    requires now > threshold
    ensures Prune(seq(k, i => now), threshold) == seq(k, i => now)
  {
  }

  lemma SeatedDeque(limits: Limits, t: Table, call: Call)
    requires limits.maximumClients >= 1 && WellFormed(t)
    ensures Seated(t, call.client, call.now - limits.window, limits.maximumClients).hits[call.client] == Deque(t, call.client)
  {
  }

  // The naive limiter counts the repeated requests on top of the recent ones.
  lemma {:induction false} RecentMore(history: seq<Hit>, client: string, now: int, threshold: int, k: nat)
    requires now > threshold
    ensures Recent(TimesOf(history + seq(k, i => Hit(client, now)), client), threshold) == Recent(TimesOf(history, client), threshold) + k
  {
    if k == 0 {
      assert history + seq(0, i => Hit(client, now)) == history;
    } else {
      RecentMore(history, client, now, threshold, k - 1);
      var before := history + seq(k - 1, i => Hit(client, now));
      assert history + seq(k, i => Hit(client, now)) == before + [Hit(client, now)];
      NextTimes(before, Hit(client, now));
      assert (TimesOf(before, client) + [now])[..|TimesOf(before, client)|] == TimesOf(before, client);
    }
  }

  lemma LastIsRecent(times: seq<int>, threshold: int)
    requires times != [] && times[|times| - 1] > threshold
    ensures Recent(times, threshold) >= 1
  {
  }

  // The call takes the place of a live client: after it that client is gone, and all answers were still right.
  lemma AfterTheDrop(limits: Limits, calls: seq<Call>, call: Call) returns (c: string)
    requires limits.maximumClients >= 1 && InOrder(calls + [call]) && Undropped(limits, calls)
    requires !Spares(limits, Run(limits, calls).table, call)
    ensures var after := calls + [call];
            && Run(limits, after).history == Naive(limits, after)
            && c !in Run(limits, after).table.hits && limits.window > 0
            && Recent(TimesOf(Naive(limits, after), c), call.now - limits.window) >= 1
  {
    hide Admit, NaiveAllows, Complete, Inv, Step, Spares, Run, Naive, TimesOf, Recent, CompleteFor, Loses, Undropped, LiveClients;
    var w, after, threshold := Run(limits, calls), calls + [call], call.now - limits.window;
    Prefix(calls, call);
    LosesExactlyWhen(limits, w.table, call);
    c :| Loses(limits, w.table, call, c);
    BoundedIsNaive(limits, calls);
    RunKeepsInv(limits, calls);
    if calls == [] { RunNone(limits); } else { LaterIsComplete(w, calls[|calls| - 1].now - limits.window, threshold); }
    CompleteAt(w, threshold, call.client);
    ClientAnswered(limits, w, call, threshold);
    StepRecords(limits, w, call);
    RunMore(limits, calls, call);
    LostFrom(limits, w, call, c);
    LiveIsRecorded(limits, w, c, threshold);
    assert exists h :: h in w.history && h.at > threshold;
    if calls == [] { RunNone(limits); }
    NextTimes(w.history, Hit(call.client, call.now));
    LastIsRecent(TimesOf(w.history, c), threshold);
  }

  lemma Prefix(calls: seq<Call>, call: Call)
    requires InOrder(calls + [call])
    ensures InOrder(calls) && (calls != [] ==> calls[|calls| - 1].now <= call.now)
  {
    var longer := calls + [call];
    assert forall i | 0 <= i < |calls| :: longer[i] == calls[i];
    assert longer[|calls|] == call;
  }

  lemma RunNone(limits: Limits)
    requires limits.maximumClients >= 1
    ensures Run(limits, []).history == [] == Naive(limits, []) && forall now :: Complete(Run(limits, []), now)
  {
    Nothing(limits);
  }

  lemma LostFrom(limits: Limits, w: World, call: Call, c: string)
    requires WellFormed(w.table) && limits.maximumClients >= 1 && Loses(limits, w.table, call, c)
    ensures c in w.table.hits && !Stale(w.table.hits[c], call.now - limits.window)
    ensures c != call.client && c !in Step(limits, w, call).table.hits
  {
    hide Prune, Seated;
  }

  /** After a call that takes a live client's place, that client, asking again at once, is allowed a request the naive
      limiter refuses, while every answer before that one was right. */
  lemma DroppedClientExceedsTheLimit(limits: Limits, calls: seq<Call>, call: Call)
    requires limits.maximumClients >= 1 && limits.limit >= 1 && InOrder(calls + [call]) && Undropped(limits, calls)
    requires !Spares(limits, Run(limits, calls).table, call)
    ensures exists c: string, k: nat {:trigger Repeat(Call(c, call.now), k)} ::
              var before := calls + [call] + Repeat(Call(c, call.now), k);
              && InOrder(before) && Run(limits, before).history == Naive(limits, before)
              && Admit(limits, Run(limits, before).table, c, call.now).1 && !NaiveAllows(limits, Naive(limits, before), Call(c, call.now))
  {
    hide Admit, NaiveAllows, Inv, Step, Spares, Run, Naive, TimesOf, Recent, Undropped, Repeat;
    var after, threshold := calls + [call], call.now - limits.window;
    var c := AfterTheDrop(limits, calls, call);
    var again := Call(c, call.now);
    var r := Recent(TimesOf(Naive(limits, after), c), threshold);
    var k := if r >= limits.limit then 0 else limits.limit - r;
    NaiveFills(limits, after, again, k);
    ReturnedClient(limits, after, again, k);
    ReturnedClient(limits, after, again, k + 1);
    StillInOrder(after, again, k);
    assert after + Repeat(again, k) == calls + [call] + Repeat(again, k);
  }

  // The naive limiter allows the client exactly up to its limit, then refuses.
  lemma {:induction false} NaiveFills(limits: Limits, calls: seq<Call>, call: Call, k: nat)
    requires limits.window > 0 && limits.maximumClients >= 1
    requires var r := Recent(TimesOf(Naive(limits, calls), call.client), call.now - limits.window); k == 0 || k <= limits.limit - r
    ensures Naive(limits, calls + Repeat(call, k)) == Naive(limits, calls) + seq(k, i => Hit(call.client, call.now))
    ensures NaiveAllows(limits, Naive(limits, calls + Repeat(call, k)), call)
            <==> Recent(TimesOf(Naive(limits, calls), call.client), call.now - limits.window) + k < limits.limit
  {
    hide Naive, TimesOf, Recent, Repeat, Run, Step;
    var history := Naive(limits, calls);
    RecentMore(history, call.client, call.now, call.now - limits.window, k);
    if k == 0 {
      OneMore(calls, call, 0);
      assert history + seq(0, i => Hit(call.client, call.now)) == history;
    } else {
      NaiveFills(limits, calls, call, k - 1);
      OneMore(calls, call, k - 1);
      RunMore(limits, calls + Repeat(call, k - 1), call);
      assert seq(k, i => Hit(call.client, call.now)) == seq(k - 1, i => Hit(call.client, call.now)) + [Hit(call.client, call.now)];
    }
  }

  // Wherever the run is interrupted, any one client could now ask any number of times and be answered right each time.
  ghost predicate Exact(limits: Limits, calls: seq<Call>)
    requires limits.maximumClients >= 1
  {
    forall i, c, k: nat {:trigger Repeat(Call(c, calls[i].now), k)} | 0 <= i < |calls| ::
      Run(limits, calls[..i + 1] + Repeat(Call(c, calls[i].now), k)).history == Naive(limits, calls[..i + 1] + Repeat(Call(c, calls[i].now), k))
  }

  /** A run with a clock that never goes back can be told from the naive limiter, at some point of it by some client, exactly
      when one of its calls takes a live client's place. */
  lemma ExactExactlyWhen(limits: Limits, calls: seq<Call>)
    requires limits.maximumClients >= 1 && limits.limit >= 1 && InOrder(calls)
    ensures Exact(limits, calls) <==> Undropped(limits, calls)
  {
    if Undropped(limits, calls) { UndroppedIsExact(limits, calls); } else { DroppedIsInexact(limits, calls); }
  }

  lemma UndroppedIsExact(limits: Limits, calls: seq<Call>)
    requires limits.maximumClients >= 1 && InOrder(calls) && Undropped(limits, calls)
    ensures Exact(limits, calls)
  {
    hide Run, Naive, Spares, CompleteFor, TimesOf, Deque, Complete, Repeat;
    forall i, c, k: nat | 0 <= i < |calls|
      ensures Run(limits, calls[..i + 1] + Repeat(Call(c, calls[i].now), k)).history == Naive(limits, calls[..i + 1] + Repeat(Call(c, calls[i].now), k))
    {
      var front := calls[..i + 1];
      assert forall j | 0 <= j < |front| :: front[j] == calls[j] && front[..j] == calls[..j];
      BoundedIsNaive(limits, front);
      CompleteAt(Run(limits, front), calls[i].now - limits.window, c);
      OneClientIsExact(limits, front, Call(c, calls[i].now), k);
    }
  }

  // The first call that takes a live client's place.
  lemma {:induction false} FirstDrop(limits: Limits, calls: seq<Call>) returns (i: nat)
    requires limits.maximumClients >= 1 && !Undropped(limits, calls)
    ensures i < |calls| && Undropped(limits, calls[..i]) && !Spares(limits, Run(limits, calls[..i]).table, calls[i])
  {
    hide Run, Spares;
    var n := |calls| - 1;
    var front := calls[..n];
    assert forall j | 0 <= j < n :: front[j] == calls[j] && front[..j] == calls[..j];
    if Undropped(limits, front) { i := n; } else { i := FirstDrop(limits, front); }
  }

  lemma DroppedIsInexact(limits: Limits, calls: seq<Call>)
    requires limits.maximumClients >= 1 && limits.limit >= 1 && InOrder(calls) && !Undropped(limits, calls)
    ensures !Exact(limits, calls)
  {
    hide Run, Naive, Spares, Repeat, Undropped, Admit, NaiveAllows, Step;
    var i := FirstDrop(limits, calls);
    var front := calls[..i + 1];
    assert front == calls[..i] + [calls[i]];
    DroppedClientExceedsTheLimit(limits, calls[..i], calls[i]);
    var c: string, k: nat :| var before := front + Repeat(Call(c, calls[i].now), k);
                && InOrder(before) && Run(limits, before).history == Naive(limits, before)
                && Admit(limits, Run(limits, before).table, c, calls[i].now).1 && !NaiveAllows(limits, Naive(limits, before), Call(c, calls[i].now));
    var again := Call(c, calls[i].now);
    OneMore(front, again, k);
    RunMore(limits, front + Repeat(again, k), again);
    StepRecords(limits, Run(limits, front + Repeat(again, k)), again);
    assert Run(limits, front + Repeat(again, k + 1)).history != Naive(limits, front + Repeat(again, k + 1));
  }

  // ----- A crowd -----

  function Crowd(names: seq<string>): seq<Call> { seq(|names|, i requires 0 <= i < |names| => Call(names[i], 0)) }

  function FirstHits(names: seq<string>): map<string, seq<int>> { map c | c in names :: [0] }

  // As long as there is room, newcomers take their places one after another.
  lemma {:induction false} CrowdTakesPlaces(limits: Limits, names: seq<string>)
    requires limits.limit >= 1 && |names| <= limits.maximumClients && limits.maximumClients >= 1 && Distinct(names)
    ensures Run(limits, Crowd(names)).table == Table(FirstHits(names), names) && Undropped(limits, Crowd(names))
  {
    hide Admit, Spares, Run;
    if names == [] {
      assert Crowd(names) == [];
      NobodyYet(limits);
      assert FirstHits(names) == map[];
    } else {
      var n := |names| - 1;
      var front, last := names[..n], names[n];
      assert names == front + [last] && last !in front;
      CrowdTakesPlaces(limits, front);
      assert Crowd(names) == Crowd(front) + [Call(last, 0)];
      RunMore(limits, Crowd(front), Call(last, 0));
      NewcomerSits(limits, Run(limits, Crowd(front)), front, last);
      assert FirstHits(names) == FirstHits(front)[last := [0]];
      UndroppedMore(limits, Crowd(front), Call(last, 0));
    }
  }

  lemma NobodyYet(limits: Limits)
    requires limits.maximumClients >= 1
    ensures Run(limits, []).table == Table(map[], []) && Undropped(limits, [])
  {
  }

  lemma NewcomerSits(limits: Limits, w: World, names: seq<string>, last: string)
    requires limits.limit >= 1 && |names| < limits.maximumClients && last !in names && WellFormed(w.table)
    requires w.table == Table(FirstHits(names), names)
    ensures Step(limits, w, Call(last, 0)).table == Table(FirstHits(names)[last := [0]], names + [last]) && Spares(limits, w.table, Call(last, 0))
  {
    hide DropStale, Shrink, WellFormed, Distinct;
    var seated := Seated(w.table, last, -limits.window, limits.maximumClients);
    assert seated == Table(FirstHits(names)[last := []], names + [last]);
    hide Seated, FirstHits;
    assert Prune([], -limits.window) == [] && [] + [0] == [0];
    assert seated.hits[last := [0]] == FirstHits(names)[last := [0]];
  }

  lemma UndroppedMore(limits: Limits, calls: seq<Call>, call: Call)
    requires limits.maximumClients >= 1 && Undropped(limits, calls) && Spares(limits, Run(limits, calls).table, call)
    ensures Undropped(limits, calls + [call])
  {
    hide Run, Spares;
    var longer := calls + [call];
    assert longer[..|calls|] == calls;
    forall i | 0 <= i < |longer| ensures Spares(limits, Run(limits, longer[..i]).table, longer[i]) {
      if i < |calls| { assert longer[..i] == calls[..i] && longer[i] == calls[i]; }
    }
  }

  lemma NoRoomLeft(limits: Limits, t: Table, names: seq<string>, late: string)
    requires limits.window > 0 && |names| == limits.maximumClients && late !in names && WellFormed(t) && t == Table(FirstHits(names), names)
    ensures !Spares(limits, t, Call(late, 0))
  {
    hide StaleClients, DeleteAll;
    var dropped := DropStale(t, -limits.window);
    assert dropped.hits.Keys == t.hits.Keys;
    hide DropStale, Stale;
    SameCount(names, dropped.order, t, dropped);
  }

  lemma SameCount(names: seq<string>, order: seq<string>, t: Table, dropped: Table)
    requires WellFormed(t) && WellFormed(dropped) && t.order == names && dropped.order == order && dropped.hits.Keys == t.hits.Keys
    ensures |order| == |names|
  {
    KeysOfOrder(t);
    KeysOfOrder(dropped);
    assert |dropped.hits.Keys| == |dropped.hits| && |t.hits.Keys| == |t.hits|;
  }

  /** Whatever the limit, the window and the bound, one client more than the bound, all asking at once, is enough: the last
      one takes a live client's place, which is then allowed a request beyond its limit. */
  lemma CrowdExceedsTheLimit(limits: Limits, names: seq<string>, late: string)
    requires limits.limit >= 1 && limits.window > 0 && limits.maximumClients == |names| >= 1 && Distinct(names) && late !in names
    ensures !Spares(limits, Run(limits, Crowd(names)).table, Call(late, 0))
    ensures exists c: string, k: nat {:trigger Repeat(Call(c, 0), k)} ::
              var before := Crowd(names) + [Call(late, 0)] + Repeat(Call(c, 0), k);
              Admit(limits, Run(limits, before).table, c, 0).1 && !NaiveAllows(limits, Naive(limits, before), Call(c, 0))
  {
    hide Run, Naive, Spares, Admit, NaiveAllows, Repeat, Undropped;
    CrowdTakesPlaces(limits, names);
    NoRoomLeft(limits, Run(limits, Crowd(names)).table, names, late);
    DroppedClientExceedsTheLimit(limits, Crowd(names), Call(late, 0));
  }
}
