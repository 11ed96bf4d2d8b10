/** The combined market replay of scripts/replay_market.py and its checker. */
module ReplayMerge {
  import opened Sorting

  datatype Event = Event(
    sequence: int, runId: string, eventType: string, source: string, occurredAt: int, receivedAt: int,
    stockCode: string, sourceSequence: int, payload: string, payloadSha256: string, schemaVersion: int)

  // One database's selected events, and whether it is replayed by the time an event occurred.
  datatype Source = Source(events: seq<Event>, usesOccurredAt: bool)

  // What the heap holds: a source's next event, and where that source's iterator goes on.
  datatype Head = Head(at: int, rank: nat, sequence: int, event: Event, following: nat)

  // An event by its place: the source it comes from and its position there.
  datatype Place = Place(rank: nat, index: nat)

  function ReplayAt(e: Event, usesOccurredAt: bool): int { if usesOccurredAt then e.occurredAt else e.receivedAt }

  // The order the selecting query delivers a source in.
  ghost predicate Ordered(s: Source) {
    forall i, j | 0 <= i < j < |s.events| ::
      var a, b := s.events[i], s.events[j];
      ReplayAt(a, s.usesOccurredAt) < ReplayAt(b, s.usesOccurredAt)
      || (ReplayAt(a, s.usesOccurredAt) == ReplayAt(b, s.usesOccurredAt) && a.sequence <= b.sequence)
  }

  ghost predicate AllOrdered(sources: seq<Source>) { forall s | s in sources :: Ordered(s) }

  predicate Exists(sources: seq<Source>, p: Place) { p.rank < |sources| && p.index < |sources[p.rank].events| }

  function EventAt(sources: seq<Source>, p: Place): Event
    requires Exists(sources, p)
  {
    sources[p.rank].events[p.index]
  }

  function TimeAt(sources: seq<Source>, p: Place): int {
    if Exists(sources, p) then ReplayAt(EventAt(sources, p), sources[p.rank].usesOccurredAt) else 0
  }

  // Time first, then the source's rank, then the source's own order.
  predicate PlaceLe(sources: seq<Source>, a: Place, b: Place) {
    TimeAt(sources, a) < TimeAt(sources, b)
    || (TimeAt(sources, a) == TimeAt(sources, b) && (a.rank < b.rank || (a.rank == b.rank && a.index <= b.index)))
  }

  function By(sources: seq<Source>): (Place, Place) -> bool { (a, b) => PlaceLe(sources, a, b) }

  predicate HeadLe(a: Head, b: Head) {
    a.at < b.at || (a.at == b.at && (a.rank < b.rank || (a.rank == b.rank && a.sequence <= b.sequence)))
  }

  // Every place of every source, source after source.
  function Places(sources: seq<Source>): seq<Place> {
    if sources == [] then [] else
    var last := |sources| - 1;
    Places(sources[..last]) + seq(|sources[last].events|, i requires 0 <= i => Place(last, i))
  }

  lemma {:induction false} PlacesAreAll(sources: seq<Source>)
    ensures Distinct(Places(sources))
    ensures forall p :: p in Places(sources) <==> Exists(sources, p)
  {
    if sources != [] {
      var last := |sources| - 1;
      PlacesAreAll(sources[..last]);
      var own := seq(|sources[last].events|, i requires 0 <= i => Place(last, i));
      forall p ensures p in own <==> p.rank == last && Exists(sources, p) {
        if p.rank == last && Exists(sources, p) { assert own[p.index] == p; }
      }
      var front, all := Places(sources[..last]), Places(sources);
      assert all == front + own;
      forall i, j | 0 <= i < j < |all| ensures all[i] != all[j] {
        if i < |front| { assert front[i] in front && all[i].rank < last; }
      }
    }
  }

  function Emitted(sources: seq<Source>, p: Place, sequence: int, runId: string): Event
    requires Exists(sources, p)
  {
    EventAt(sources, p).(sequence := sequence, runId := runId, receivedAt := TimeAt(sources, p))
  }

  // The replay a reader would specify: sort all places and number them.
  ghost function Replayed(sources: seq<Source>, runId: string): seq<Event> {
    var order := Sort(Places(sources), By(sources));
    seq(|order|, k requires 0 <= k < |order| =>
      if Exists(sources, order[k]) then Emitted(sources, order[k], k + 1, runId)
      else Event(0, "", "", "", 0, 0, "", 0, "", "", 0))
  }

  lemma PlaceLeIsTotal(sources: seq<Source>)
    ensures TotalPreorder(By(sources))
    ensures forall a, b | By(sources)(a, b) && By(sources)(b, a) :: a == b
  {
  }

  lemma SortedPlaces(sources: seq<Source>)
    ensures var order := Sort(Places(sources), By(sources));
            && SortedBy(order, By(sources)) && Distinct(order) && |order| == |Places(sources)|
            && forall p :: p in order <==> Exists(sources, p)
  {
    PlaceLeIsTotal(sources);
    SortCorrect(Places(sources), By(sources));
    PlacesAreAll(sources);
    DistinctOfMultiset(Places(sources), Sort(Places(sources), By(sources)));
  }

  // ----- The heap of one head a source -----

  function HeadOf(sources: seq<Source>, rank: nat, index: nat): Head
    requires Exists(sources, Place(rank, index))
  {
    var e := sources[rank].events[index];
    Head(ReplayAt(e, sources[rank].usesOccurredAt), rank, e.sequence, e, index + 1)
  }

  // The head is the next event of its source.
  ghost predicate IsNext(h: Head, taken: seq<nat>, sources: seq<Source>)
    requires |taken| == |sources|
  {
    h.rank < |sources| && taken[h.rank] < |sources[h.rank].events| && h == HeadOf(sources, h.rank, taken[h.rank])
  }

  ghost predicate RanksDiffer(heap: seq<Head>) { forall i, j | 0 <= i < j < |heap| :: heap[i].rank != heap[j].rank }

  // taken[r] events of source r have been emitted; the heap holds the next one of each source that has one, and no more.
  ghost predicate OneHeadPerSource(heap: seq<Head>, taken: seq<nat>, sources: seq<Source>, upTo: nat) {
    && |taken| == |sources| && upTo <= |sources|
    && (forall r | 0 <= r < |sources| :: taken[r] <= |sources[r].events|)
    && (forall h | h in heap :: h.rank < upTo && IsNext(h, taken, sources))
    && RanksDiffer(heap)
    && (forall r | 0 <= r < upTo && taken[r] < |sources[r].events| :: HeadOf(sources, r, taken[r]) in heap)
  }

  method PopLeast(heap: seq<Head>) returns (least: Head, rest: seq<Head>)
    requires heap != []
    ensures least in heap && forall h | h in heap :: HeadLe(least, h)
    ensures exists i :: 0 <= i < |heap| && heap[i] == least && rest == heap[..i] + heap[i + 1..]
  {
    var k := 0;
    for i := 1 to |heap|
      invariant 0 <= k < |heap| && forall j | 0 <= j < i :: HeadLe(heap[k], heap[j])
    {
      if !HeadLe(heap[k], heap[i]) { k := i; }
    }
    least, rest := heap[k], heap[..k] + heap[k + 1..];
  }

  lemma WithoutHead(heap: seq<Head>, i: nat)
    requires i < |heap| && RanksDiffer(heap)
    ensures var rest := heap[..i] + heap[i + 1..];
            && |rest| == |heap| - 1 && RanksDiffer(rest)
            && forall h :: h in rest <==> h in heap && h.rank != heap[i].rank
  {
    var rest := heap[..i] + heap[i + 1..];
    assert forall k | 0 <= k < |rest| :: rest[k] == heap[if k < i then k else k + 1];
    forall h | h in heap && h.rank != heap[i].rank ensures h in rest {
      var j :| 0 <= j < |heap| && heap[j] == h;
      assert rest[if j < i then j else j - 1] == h;
    }
  }

  // Popping a head and pushing its source's next event, when there is one.
  lemma StepKeepsHeads(heap: seq<Head>, taken: seq<nat>, sources: seq<Source>, least: Head, i: nat, after: seq<Head>)
    requires OneHeadPerSource(heap, taken, sources, |sources|)
    requires i < |heap| && heap[i] == least
    requires var rest := heap[..i] + heap[i + 1..];
             after == if least.following < |sources[least.rank].events|
                      then rest + [HeadOf(sources, least.rank, least.following)] else rest
    ensures OneHeadPerSource(after, taken[least.rank := taken[least.rank] + 1], sources, |sources|)
    ensures |after| <= |heap|
  {
    WithoutHead(heap, i);
    RestAndNext(heap, heap[..i] + heap[i + 1..], taken, sources, least, after);
  }

  lemma RestAndNext(heap: seq<Head>, rest: seq<Head>, taken: seq<nat>, sources: seq<Source>, least: Head, after: seq<Head>)
    requires OneHeadPerSource(heap, taken, sources, |sources|) && least in heap && |rest| == |heap| - 1
    requires RanksDiffer(rest) && forall h :: h in rest <==> h in heap && h.rank != least.rank
    requires after == if least.following < |sources[least.rank].events|
                      then rest + [HeadOf(sources, least.rank, least.following)] else rest
    ensures OneHeadPerSource(after, taken[least.rank := taken[least.rank] + 1], sources, |sources|)
    ensures |after| <= |heap|
  {
    var r := least.rank;
    assert IsNext(least, taken, sources);
    assert least.following == taken[r] + 1;
    hide RanksDiffer, IsNext, HeadOf;
    StillNext(heap, rest, taken, sources, r);
    StillCovered(heap, rest, taken, sources, r);
    if least.following < |sources[r].events| {
      NewIsNext(taken[r := taken[r] + 1], sources, r);
      OneMoreRank(rest, HeadOf(sources, r, least.following));
    }
  }

  lemma StillNext(heap: seq<Head>, rest: seq<Head>, taken: seq<nat>, sources: seq<Source>, r: nat)
    requires |taken| == |sources| && r < |sources| && forall h | h in heap :: IsNext(h, taken, sources)
    requires forall h | h in rest :: h in heap && h.rank != r
    ensures forall h | h in rest :: IsNext(h, taken[r := taken[r] + 1], sources)
  {
    hide IsNext;
    forall h | h in rest ensures IsNext(h, taken[r := taken[r] + 1], sources) { OtherIsNext(h, taken, sources, r); }
  }

  lemma StillCovered(heap: seq<Head>, rest: seq<Head>, taken: seq<nat>, sources: seq<Source>, r: nat)
    requires |taken| == |sources| && r < |sources|
    requires forall q | 0 <= q < |sources| && taken[q] < |sources[q].events| :: HeadOf(sources, q, taken[q]) in heap
    requires forall h | h in heap && h.rank != r :: h in rest
    ensures forall q | 0 <= q < |sources| && q != r && taken[q] < |sources[q].events| :: HeadOf(sources, q, taken[q]) in rest
  {
    hide HeadOf;
    forall q | 0 <= q < |sources| && q != r && taken[q] < |sources[q].events| ensures HeadOf(sources, q, taken[q]) in rest {
      HeadRank(sources, q, taken[q]);
    }
  }

  lemma HeadRank(sources: seq<Source>, rank: nat, index: nat)
    requires Exists(sources, Place(rank, index))
    ensures HeadOf(sources, rank, index).rank == rank
  {
  }

  lemma OtherIsNext(h: Head, taken: seq<nat>, sources: seq<Source>, r: nat)
    requires |taken| == |sources| && r < |sources| && IsNext(h, taken, sources) && h.rank != r
    ensures IsNext(h, taken[r := taken[r] + 1], sources)
  {
  }

  lemma NewIsNext(taken: seq<nat>, sources: seq<Source>, r: nat)
    requires |taken| == |sources| && r < |sources| && taken[r] < |sources[r].events|
    ensures IsNext(HeadOf(sources, r, taken[r]), taken, sources) && HeadOf(sources, r, taken[r]).rank == r
  {
  }

  lemma OneMoreRank(rest: seq<Head>, next: Head)
    requires RanksDiffer(rest) && forall h | h in rest :: h.rank != next.rank
    ensures RanksDiffer(rest + [next])
  {
  }

  // What has been emitted so far: the taken places, in order, and nothing that comes later is due earlier.
  ghost predicate Emitting(trace: seq<Place>, taken: seq<nat>, sources: seq<Source>) {
    && |taken| == |sources|
    && SortedBy(trace, By(sources)) && Distinct(trace)
    && (forall p :: p in trace <==> Exists(sources, p) && p.index < taken[p.rank])
    && (forall p, q | p in trace && Exists(sources, q) && q.index >= taken[q.rank] :: PlaceLe(sources, p, q))
  }

  lemma LeastIsDueFirst(heap: seq<Head>, taken: seq<nat>, sources: seq<Source>, least: Head, q: Place)
    requires AllOrdered(sources) && OneHeadPerSource(heap, taken, sources, |sources|)
    requires least in heap && forall h | h in heap :: HeadLe(least, h)
    requires Exists(sources, q) && q.index >= taken[q.rank]
    ensures PlaceLe(sources, Place(least.rank, taken[least.rank]), q)
  {
    var h := HeadOf(sources, q.rank, taken[q.rank]);
    assert h in heap && HeadLe(least, h);
    assert Ordered(sources[q.rank]);
    assert h.at <= TimeAt(sources, q);
    assert least.rank == h.rank ==> least == h;
  }

  lemma StepKeepsEmitting(heap: seq<Head>, taken: seq<nat>, sources: seq<Source>, least: Head, trace: seq<Place>)
    requires AllOrdered(sources) && OneHeadPerSource(heap, taken, sources, |sources|) && Emitting(trace, taken, sources)
    requires least in heap && forall h | h in heap :: HeadLe(least, h)
    ensures Emitting(trace + [Place(least.rank, taken[least.rank])], taken[least.rank := taken[least.rank] + 1], sources)
  {
    hide Ordered, HeadLe;
    var place := Place(least.rank, taken[least.rank]);
    var trace', taken' := trace + [place], taken[least.rank := taken[least.rank] + 1];
    assert place !in trace;
    forall i | 0 <= i < |trace| ensures By(sources)(trace[i], place) { assert trace[i] in trace; }
    forall q | Exists(sources, q) && q.index >= taken[q.rank] ensures PlaceLe(sources, place, q) {
      LeastIsDueFirst(heap, taken, sources, least, q);
    }
    forall p ensures p in trace' <==> Exists(sources, p) && p.index < taken'[p.rank] {}
    forall p, q | p in trace' && Exists(sources, q) && q.index >= taken'[q.rank] ensures PlaceLe(sources, p, q) {
      assert q.index >= taken[q.rank];
    }
  }

  lemma SameMultiset(a: seq<Place>, b: seq<Place>)
    requires Distinct(a) && Distinct(b) && forall p :: p in a <==> p in b
    ensures multiset(a) == multiset(b)
  {
    MultiplicityOne(a);
    MultiplicityOne(b);
    forall p ensures multiset(a)[p] == multiset(b)[p] {
      assert p in a <==> p in multiset(a);
      assert p in b <==> p in multiset(b);
    }
  }

  lemma TraceIsTheSort(trace: seq<Place>, taken: seq<nat>, sources: seq<Source>)
    requires Emitting(trace, taken, sources)
    requires forall r | 0 <= r < |sources| :: taken[r] >= |sources[r].events|
    ensures trace == Sort(Places(sources), By(sources))
  {
    PlacesAreAll(sources);
    PlaceLeIsTotal(sources);
    SortedPlaces(sources);
    SortCorrect(Places(sources), By(sources));
    forall p ensures p in trace <==> p in Places(sources) {}
    SameMultiset(trace, Places(sources));
    SortedUnique(trace, Sort(Places(sources), By(sources)), By(sources));
  }

  // The events emitted for a trace.
  ghost predicate Emits(out: seq<Event>, trace: seq<Place>, sources: seq<Source>, runId: string) {
    && |out| == |trace|
    && forall k | 0 <= k < |out| :: Exists(sources, trace[k]) && out[k] == Emitted(sources, trace[k], k + 1, runId)
  }

  method FirstHeads(sources: seq<Source>) returns (heap: seq<Head>)
    ensures OneHeadPerSource(heap, seq(|sources|, r => 0), sources, |sources|) && |heap| <= |sources|
  {
    heap := [];
    for rank := 0 to |sources|
      invariant OneHeadPerSource(heap, seq(|sources|, r => 0), sources, rank) && |heap| <= rank
    {
      if sources[rank].events == [] { continue; }
      var event := sources[rank].events[0];
      heap := heap + [Head(ReplayAt(event, sources[rank].usesOccurredAt), rank, event.sequence, event, 1)];
    }
  }

  ghost function Left(taken: seq<nat>, sources: seq<Source>): int
    requires |taken| == |sources|
  {
    if sources == [] then 0
    else Left(taken[..|taken| - 1], sources[..|sources| - 1]) + |sources[|sources| - 1].events| - taken[|taken| - 1]
  }

  lemma {:induction false} LeftShrinks(taken: seq<nat>, sources: seq<Source>, rank: nat)
    requires |taken| == |sources| && rank < |sources|
    ensures Left(taken[rank := taken[rank] + 1], sources) == Left(taken, sources) - 1
  {
    var last := |sources| - 1;
    if rank < last {
      LeftShrinks(taken[..last], sources[..last], rank);
      assert taken[rank := taken[rank] + 1][..last] == taken[..last][rank := taken[rank] + 1];
    } else {
      assert taken[rank := taken[rank] + 1][..last] == taken[..last];
    }
  }

  lemma {:induction false} LeftIsNotNegative(taken: seq<nat>, sources: seq<Source>)
    requires |taken| == |sources| && forall r | 0 <= r < |sources| :: taken[r] <= |sources[r].events|
    ensures Left(taken, sources) >= 0
  {
    if sources != [] { LeftIsNotNegative(taken[..|taken| - 1], sources[..|sources| - 1]); }
  }

  lemma Popped(heap: seq<Head>, taken: seq<nat>, sources: seq<Source>, least: Head)
    requires OneHeadPerSource(heap, taken, sources, |sources|) && least in heap
    ensures |taken| == |sources| && least.rank < |sources|
    ensures taken[least.rank] < |sources[least.rank].events| && least.following == taken[least.rank] + 1
    ensures least.event == EventAt(sources, Place(least.rank, taken[least.rank]))
    ensures least.at == TimeAt(sources, Place(least.rank, taken[least.rank]))
  {
  }

  lemma EmitsOneMore(out: seq<Event>, trace: seq<Place>, sources: seq<Source>, runId: string, p: Place, e: Event)
    requires Emits(out, trace, sources, runId) && Exists(sources, p) && e == Emitted(sources, p, |out| + 1, runId)
    ensures Emits(out + [e], trace + [p], sources, runId)
  {
  }

  lemma Finished(out: seq<Event>, trace: seq<Place>, taken: seq<nat>, sources: seq<Source>, runId: string)
    requires OneHeadPerSource([], taken, sources, |sources|) && Emitting(trace, taken, sources) && Emits(out, trace, sources, runId)
    ensures out == Replayed(sources, runId)
  {
    hide Sort, SortedBy, Places, By;
    assert forall r | 0 <= r < |sources| :: taken[r] >= |sources[r].events|;
    TraceIsTheSort(trace, taken, sources);
  }

  lemma AtMostTheEvents(heap: seq<Head>, taken: seq<nat>, sources: seq<Source>)
    requires OneHeadPerSource(heap, taken, sources, |sources|)
    ensures Left(taken, sources) >= 0
  {
    LeftIsNotNegative(taken, sources);
  }

  // Where a merge stands: one head a source, and the events of the trace emitted.
  ghost predicate Merging(heap: seq<Head>, taken: seq<nat>, trace: seq<Place>, out: seq<Event>, sources: seq<Source>, runId: string) {
    && OneHeadPerSource(heap, taken, sources, |sources|) && |heap| <= |sources|
    && Emitting(trace, taken, sources) && Emits(out, trace, sources, runId)
  }

  function Renumbered(head: Head, usesOccurredAt: bool, sequence: int, runId: string): Event {
    head.event.(sequence := sequence, runId := runId, receivedAt := if usesOccurredAt then head.at else head.event.receivedAt)
  }

  function NextHeads(rest: seq<Head>, popped: Head, sources: seq<Source>): seq<Head>
    requires popped.rank < |sources|
  {
    if popped.following < |sources[popped.rank].events| then rest + [HeadOf(sources, popped.rank, popped.following)] else rest
  }

  // One turn of the loop.
  lemma MergesOne(heap: seq<Head>, taken: seq<nat>, trace: seq<Place>, out: seq<Event>, sources: seq<Source>, runId: string,
                  least: Head, i: nat)
    requires AllOrdered(sources) && Merging(heap, taken, trace, out, sources, runId)
    requires i < |heap| && heap[i] == least && forall h | h in heap :: HeadLe(least, h)
    ensures least.rank < |sources| == |taken|
    ensures Merging(NextHeads(heap[..i] + heap[i + 1..], least, sources), taken[least.rank := taken[least.rank] + 1],
                    trace + [Place(least.rank, taken[least.rank])],
                    out + [Renumbered(least, sources[least.rank].usesOccurredAt, |out| + 1, runId)], sources, runId)
    ensures Left(taken[least.rank := taken[least.rank] + 1], sources) == Left(taken, sources) - 1
  {
    hide AllOrdered, OneHeadPerSource, Emitting, Emits, HeadLe, Left, TimeAt, HeadOf;
    assert least in heap;
    Popped(heap, taken, sources, least);
    var place := Place(least.rank, taken[least.rank]);
    StepKeepsEmitting(heap, taken, sources, least, trace);
    TimeOfPlace(sources, place);
    EmitsOneMore(out, trace, sources, runId, place, Renumbered(least, sources[least.rank].usesOccurredAt, |out| + 1, runId));
    StepKeepsHeads(heap, taken, sources, least, i, NextHeads(heap[..i] + heap[i + 1..], least, sources));
    LeftShrinks(taken, sources, least.rank);
  }

  lemma MergeStands(heap: seq<Head>, taken: seq<nat>, trace: seq<Place>, out: seq<Event>, sources: seq<Source>, runId: string)
    requires Merging(heap, taken, trace, out, sources, runId)
    ensures |taken| == |sources| && Left(taken, sources) >= 0
    ensures heap == [] ==> out == Replayed(sources, runId)
  {
    hide Emitting, Emits, HeadOf, Replayed, Left;
    AtMostTheEvents(heap, taken, sources);
    hide OneHeadPerSource;
    if heap == [] { Finished(out, trace, taken, sources, runId); }
  }

  lemma MergeStarts(heap: seq<Head>, sources: seq<Source>, runId: string)
    requires OneHeadPerSource(heap, seq(|sources|, r => 0), sources, |sources|) && |heap| <= |sources|
    ensures Merging(heap, seq(|sources|, r => 0), [], [], sources, runId)
  {
    hide OneHeadPerSource;
    Start(sources);
    hide Emitting;
  }

  /** The heap merge, which holds one head a source, replays exactly what sorting everything would. */
  method IterCombinedEvents(sources: seq<Source>, runId: string) returns (out: seq<Event>)
    requires AllOrdered(sources)
    ensures out == Replayed(sources, runId)
  {
    hide *;
    var heap := FirstHeads(sources);
    out := [];
    ghost var taken: seq<nat>, trace: seq<Place> := seq(|sources|, r => 0), [];
    MergeStarts(heap, sources, runId);
    MergeStands(heap, taken, trace, out, sources, runId);
    while heap != []
      invariant |taken| == |sources| && Left(taken, sources) >= 0
      invariant Merging(heap, taken, trace, out, sources, runId)
      decreases Left(taken, sources)
    {
      var least, rest := PopLeast(heap);
      ghost var i :| 0 <= i < |heap| && heap[i] == least && rest == heap[..i] + heap[i + 1..];
      MergesOne(heap, taken, trace, out, sources, runId, least, i);
      out := out + [Renumbered(least, sources[least.rank].usesOccurredAt, |out| + 1, runId)];
      heap := PushNext(rest, least, sources);
      trace := trace + [Place(least.rank, taken[least.rank])];
      taken := taken[least.rank := taken[least.rank] + 1];
      MergeStands(heap, taken, trace, out, sources, runId);
    }
    MergeStands(heap, taken, trace, out, sources, runId);
  }

  lemma TimeOfPlace(sources: seq<Source>, p: Place)
    requires Exists(sources, p)
    ensures TimeAt(sources, p) == ReplayAt(EventAt(sources, p), sources[p.rank].usesOccurredAt)
  {
  }

  method PushNext(rest: seq<Head>, popped: Head, sources: seq<Source>) returns (heap: seq<Head>)
    requires popped.rank < |sources|
    ensures heap == NextHeads(rest, popped, sources)
  {
    heap := rest;
    if popped.following < |sources[popped.rank].events| {
      var following := sources[popped.rank].events[popped.following];
      heap := heap + [Head(ReplayAt(following, sources[popped.rank].usesOccurredAt), popped.rank, following.sequence, following, popped.following + 1)];
    }
  }

  lemma Start(sources: seq<Source>)
    ensures Emitting([], seq(|sources|, r => 0), sources)
  {
  }

  // ----- What a replay is -----

  /** The replay is numbered from 1, in order of time, then source rank, then the source's sequence. */
  lemma ReplayIsOrdered(sources: seq<Source>, runId: string)
    requires AllOrdered(sources)
    ensures var order, out := Sort(Places(sources), By(sources)), Replayed(sources, runId);
            && |out| == |order| && Emits(out, order, sources, runId)
            && (forall k | 0 <= k < |out| :: out[k].sequence == k + 1)
            && (forall i, j | 0 <= i < j < |out| ::
                  out[i].receivedAt < out[j].receivedAt
                  || (out[i].receivedAt == out[j].receivedAt
                      && (order[i].rank < order[j].rank
                          || (order[i].rank == order[j].rank && EventAt(sources, order[i]).sequence <= EventAt(sources, order[j]).sequence))))
  {
    SortedPlaces(sources);
    hide Sort, Places;
    var order, out := Sort(Places(sources), By(sources)), Replayed(sources, runId);
    forall k | 0 <= k < |order| ensures Exists(sources, order[k]) { assert order[k] in order; }
    forall i, j | 0 <= i < j < |out|
      ensures out[i].receivedAt < out[j].receivedAt
              || (out[i].receivedAt == out[j].receivedAt
                  && (order[i].rank < order[j].rank
                      || (order[i].rank == order[j].rank && EventAt(sources, order[i]).sequence <= EventAt(sources, order[j]).sequence)))
    {
      assert By(sources)(order[i], order[j]);
      assert Ordered(sources[order[i].rank]);
    }
  }

  /** Every event of every source appears exactly once, and the events of one source keep their own order. */
  lemma ReplayInterleaves(sources: seq<Source>)
    requires AllOrdered(sources)
    ensures var order := Sort(Places(sources), By(sources));
            && Distinct(order) && (forall p :: p in order <==> Exists(sources, p))
            && forall i, j | 0 <= i < j < |order| && order[i].rank == order[j].rank :: order[i].index < order[j].index
  {
    SortedPlaces(sources);
    hide Sort, Places;
    var order := Sort(Places(sources), By(sources));
    forall i, j | 0 <= i < j < |order| && order[i].rank == order[j].rank ensures order[i].index < order[j].index {
      assert By(sources)(order[i], order[j]) && order[i] != order[j] && order[i] in order && order[j] in order;
      assert Ordered(sources[order[i].rank]);
    }
  }

  // ----- The checker -----

  datatype Verdict = Verdict(passed: bool, eventCount: nat, sequenceMonotonic: bool, receivedAtMonotonic: bool, mismatches: seq<int>)

  ghost predicate Numbered(events: seq<Event>) { forall k | 0 <= k < |events| :: events[k].sequence == k + 1 }

  ghost predicate InTimeOrder(events: seq<Event>) { forall i, j | 0 <= i < j < |events| :: events[i].receivedAt <= events[j].receivedAt }

  predicate Intact(e: Event, hash: string -> string) { hash(e.payload) == e.payloadSha256 }

  ghost predicate AllIntact(events: seq<Event>, hash: string -> string) { forall e | e in events :: Intact(e, hash) }

  lemma AllOneMore(events: seq<Event>, k: nat, hash: string -> string)
    requires k < |events|
    ensures AllIntact(events[..k + 1], hash) <==> AllIntact(events[..k], hash) && Intact(events[k], hash)
  {
    assert events[..k + 1] == events[..k] + [events[k]];
    assert events[k] in events[..k + 1];
  }

  method ProveReplay(events: seq<Event>, hash: string -> string) returns (v: Verdict)
    ensures v.eventCount == |events|
    ensures v.sequenceMonotonic <==> Numbered(events)
    ensures v.receivedAtMonotonic <==> InTimeOrder(events)
    ensures |v.mismatches| <= 20 && (v.mismatches == [] <==> AllIntact(events, hash))
    ensures v.passed <==> events != [] && Numbered(events) && InTimeOrder(events) && AllIntact(events, hash)
  {
    var sequenceOk, orderOk, mismatches := true, true, [];
    for k := 0 to |events|
      invariant sequenceOk <==> Numbered(events[..k])
      invariant orderOk <==> InTimeOrder(events[..k])
      invariant |mismatches| <= 20 && (mismatches == [] <==> AllIntact(events[..k], hash))
    {
      var event := events[k];
      OneMore(events, k);
      AllOneMore(events, k, hash);
      sequenceOk := sequenceOk && event.sequence == k + 1;
      if k > 0 && event.receivedAt < events[k - 1].receivedAt { orderOk := false; }
      if hash(event.payload) != event.payloadSha256 {
        if |mismatches| < 20 { mismatches := mismatches + [event.sequence]; }
      }
    }
    assert events[..|events|] == events;
    v := Verdict(|events| > 0 && sequenceOk && orderOk && mismatches == [], |events|, sequenceOk, orderOk, mismatches);
  }

  lemma OneMore(events: seq<Event>, k: nat)
    requires k < |events|
    ensures Numbered(events[..k + 1]) <==> Numbered(events[..k]) && events[k].sequence == k + 1
    ensures InTimeOrder(events[..k + 1]) <==> InTimeOrder(events[..k]) && (k > 0 ==> events[k - 1].receivedAt <= events[k].receivedAt)
  {
    assert forall i | 0 <= i < k :: events[..k + 1][i] == events[..k][i];
    assert events[..k + 1][k] == events[k];
    if k > 0 { assert events[..k][k - 1] == events[k - 1] == events[..k + 1][k - 1]; }
  }

  /** The checker accepts a combined replay exactly when there is something to replay and every payload is intact. */
  lemma CheckerAcceptsReplay(sources: seq<Source>, runId: string, hash: string -> string)
    requires AllOrdered(sources)
    ensures var out := Replayed(sources, runId);
            && Numbered(out) && InTimeOrder(out)
            && (out != [] <==> exists s :: s in sources && s.events != [])
            && (AllIntact(out, hash) <==> forall s | s in sources :: AllIntact(s.events, hash))
  {
    ReplayIsOrdered(sources, runId);
    SortedPlaces(sources);
    hide Sort, Places, By, SortedBy, Replayed, Ordered, TimeAt;
    var order, out := Sort(Places(sources), By(sources)), Replayed(sources, runId);
    if out != [] {
      assert order[0] in order;
      assert sources[order[0].rank] in sources;
    }
    forall s | s in sources && s.events != [] ensures out != [] {
      var r :| 0 <= r < |sources| && sources[r] == s;
      assert Exists(sources, Place(r, 0));
      assert Place(r, 0) in order;
    }
    IntactTransfers(sources, order, out, runId, hash);
  }

  lemma IntactTransfers(sources: seq<Source>, order: seq<Place>, out: seq<Event>, runId: string, hash: string -> string)
    requires Emits(out, order, sources, runId) && forall p :: p in order <==> Exists(sources, p)
    ensures AllIntact(out, hash) <==> forall s | s in sources :: AllIntact(s.events, hash)
  {
    hide TimeAt;
    forall k | 0 <= k < |out| ensures out[k] in out && Intact(out[k], hash) == Intact(EventAt(sources, order[k]), hash) {}
    if AllIntact(out, hash) {
      forall s, e | s in sources && e in s.events ensures Intact(e, hash) {
        var r :| 0 <= r < |sources| && sources[r] == s;
        var i :| 0 <= i < |s.events| && s.events[i] == e;
        assert Exists(sources, Place(r, i));
        var k :| 0 <= k < |order| && order[k] == Place(r, i);
        assert out[k] in out;
      }
    }
    if forall s | s in sources :: AllIntact(s.events, hash) {
      forall o | o in out ensures Intact(o, hash) {
        var k :| 0 <= k < |out| && out[k] == o;
        var s := sources[order[k].rank];
        assert s in sources && s.events[order[k].index] in s.events;
      }
    }
  }
}
