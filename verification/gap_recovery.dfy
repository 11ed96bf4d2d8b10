/** The per-minute sweep of scripts/collect_market_gap_recovery.py:133-224. */
module GapRecovery {
  import opened Results
  import opened Sorting

  // Times are microseconds; a minute is named by its number.
  datatype Event =
    | Rest(at: int, sequence: int, code: Option<string>)
    | Condition(at: int, sequence: int, code: Option<string>, refreshes: bool)
    | Subscription(at: int, sequence: int, stockTrade: bool, targets: seq<Option<string>>)

  datatype State = State(lastSeen: map<string, int>, targets: set<string>)

  datatype Themes = Themes(stockToThemes: map<string, set<string>>, themeMembers: map<string, set<string>>, master: set<string>)

  function MinuteStart(minute: int): int { minute * 60_000_000 }

  function MinuteEnd(minute: int): int { minute * 60_000_000 + 59_999_999 }

  predicate EventLe(a: Event, b: Event) { a.at < b.at || (a.at == b.at && a.sequence <= b.sequence) }

  // ----- Replaying the recorded decisions -----

  predicate Refreshes(e: Event) {
    (e.Rest? && e.code.Some? && e.code.value != "") || (e.Condition? && e.code.Some? && e.code.value != "" && e.refreshes)
  }

  function Listed(targets: seq<Option<string>>): set<string> { set o | o in targets && o.Some? :: o.value }

  function Apply(s: State, e: Event): State {
    if Refreshes(e) then s.(lastSeen := s.lastSeen[e.code.value := e.at])
    else if e.Subscription? && e.stockTrade then s.(targets := Listed(e.targets))
    else s
  }

  function Replay(events: seq<Event>): State {
    if events == [] then State(map[], {}) else Apply(Replay(events[..|events| - 1]), events[|events| - 1])
  }

  function UpTo(events: seq<Event>, time: int): seq<Event> {
    if events == [] then [] else if events[0].at <= time then [events[0]] + UpTo(events[1..], time) else UpTo(events[1..], time)
  }

  function ActiveAt(s: State, minute: int, ttlSeconds: int): set<string> {
    set c | c in s.lastSeen && ttlSeconds >= 0 && s.lastSeen[c] <= MinuteEnd(minute)
            && s.lastSeen[c] + ttlSeconds * 1_000_000 >= MinuteStart(minute)
  }

  function ThemesOf(t: Themes, code: string): set<string> { if code in t.stockToThemes then t.stockToThemes[code] else {} }

  function MembersOf(t: Themes, theme: string): set<string> { if theme in t.themeMembers then t.themeMembers[theme] else {} }

  function Intended(t: Themes, s: State, minute: int, ttlSeconds: int): set<string> {
    (set c, theme, m | c in ActiveAt(s, minute, ttlSeconds) && theme in ThemesOf(t, c) && m in MembersOf(t, theme) :: m) * t.master - s.targets
  }

  // What a minute's answer should be: replay, from scratch, everything received by the minute's end.
  function AsOf(events: seq<Event>, minute: int): State { Replay(Sort(UpTo(events, MinuteEnd(minute)), EventLe)) }

  // ----- The replayed state in plain terms -----

  lemma EventLeIsTotal()
    ensures TotalPreorder(EventLe)
  {
  }

  lemma {:induction false} UpToAre(events: seq<Event>, time: int)
    ensures forall e :: e in UpTo(events, time) <==> e in events && e.at <= time
  {
    if events != [] {
      UpToAre(events[1..], time);
      assert events == [events[0]] + events[1..];
    }
  }

  lemma {:induction false} ReplaySeen(events: seq<Event>, code: string)
    requires SortedBy(events, EventLe)
    ensures code in Replay(events).lastSeen <==> exists e :: e in events && Refreshes(e) && e.code == Some(code)
    ensures forall e | e in events && Refreshes(e) && e.code == Some(code) :: e.at <= Replay(events).lastSeen[code]
    ensures code in Replay(events).lastSeen ==>
              exists e :: e in events && Refreshes(e) && e.code == Some(code) && e.at == Replay(events).lastSeen[code]
  {
    hide SortedBy, Apply, Listed;
    if events != [] {
      var front, last := events[..|events| - 1], events[|events| - 1];
      assert events == front + [last];
      LastIsLatest(front, last);
      ReplaySeen(front, code);
      SeesAnew(Replay(front), last);
    }
  }

  lemma SeesAnew(s: State, e: Event)
    ensures Apply(s, e).lastSeen == if Refreshes(e) then s.lastSeen[e.code.value := e.at] else s.lastSeen
  {
  }

  lemma LastIsLatest(front: seq<Event>, last: Event)
    requires SortedBy(front + [last], EventLe)
    ensures SortedBy(front, EventLe) && forall e | e in front :: EventLe(e, last)
  {
    hide EventLe;
    var all := front + [last];
    forall e | e in front ensures EventLe(e, last) {
      var i :| 0 <= i < |front| && front[i] == e;
      assert EventLe(all[i], all[|front|]);
    }
    forall i, j | 0 <= i < j < |front| ensures EventLe(front[i], front[j]) { assert EventLe(all[i], all[j]); }
  }

  predicate Subscribes(e: Event) { e.Subscription? && e.stockTrade }

  // The list of the latest stock subscription, or none at all if there was none.
  ghost predicate LatestList(events: seq<Event>, targets: set<string>) {
    if exists e :: e in events && Subscribes(e)
    then exists e :: e in events && Subscribes(e) && targets == Listed(e.targets) && forall f | f in events && Subscribes(f) :: EventLe(f, e)
    else targets == {}
  }

  lemma {:induction false} ReplayTargets(events: seq<Event>)
    requires SortedBy(events, EventLe)
    ensures LatestList(events, Replay(events).targets)
  {
    hide EventLe, SortedBy, Listed;
    if events != [] {
      var front, last := events[..|events| - 1], events[|events| - 1];
      assert events == front + [last];
      LastIsLatest(front, last);
      ReplayTargets(front);
      hide Refreshes;
      if Subscribes(last) {
        SubscribesAnew(Replay(front), last);
        EventLeIsTotal();
      } else {
        StillSubscribed(Replay(front), last);
      }
    }
  }

  lemma SubscribesAnew(s: State, e: Event)
    requires Subscribes(e)
    ensures Apply(s, e).targets == Listed(e.targets)
  {
    hide Listed;
  }

  lemma StillSubscribed(s: State, e: Event)
    requires !Subscribes(e)
    ensures Apply(s, e).targets == s.targets
  {
  }

  /** As of a minute, the subscribed stocks are those listed by the latest stock subscription received by the minute's end. */
  lemma TargetsAreTheLatest(events: seq<Event>, minute: int)
    ensures LatestList(UpTo(events, MinuteEnd(minute)), AsOf(events, minute).targets)
    ensures forall e :: e in UpTo(events, MinuteEnd(minute)) <==> e in events && e.at <= MinuteEnd(minute)
  {
    var known := UpTo(events, MinuteEnd(minute));
    UpToAre(events, MinuteEnd(minute));
    EventLeIsTotal();
    SortCorrect(known, EventLe);
    hide UpTo, Sort, MinuteEnd, Replay, EventLe, Listed, SortedBy, Subscribes;
    ReplayTargets(Sort(known, EventLe));
  }

  /** As of a minute, a stock was last seen at the latest refreshing event received by the minute's end. */
  lemma LastSeenIsTheLatest(events: seq<Event>, minute: int, code: string)
    ensures var s := AsOf(events, minute);
            && (code in s.lastSeen <==> exists e :: e in events && e.at <= MinuteEnd(minute) && Refreshes(e) && e.code == Some(code))
            && (forall e | e in events && e.at <= MinuteEnd(minute) && Refreshes(e) && e.code == Some(code) ::
                  code in s.lastSeen && e.at <= s.lastSeen[code])
            && (code in s.lastSeen ==>
                  exists e :: e in events && e.at <= MinuteEnd(minute) && Refreshes(e) && e.code == Some(code) && e.at == s.lastSeen[code])
  {
    var known := UpTo(events, MinuteEnd(minute));
    UpToAre(events, MinuteEnd(minute));
    EventLeIsTotal();
    SortCorrect(known, EventLe);
    hide UpTo, Sort, Refreshes, MinuteEnd, Replay;
    ReplaySeen(Sort(known, EventLe), code);
  }

  /** A minute's stocks are those of a theme of a stock seen within the lifetime, known to the master, and not listed by the
      latest stock subscription. */
  lemma IntendedMeans(t: Themes, events: seq<Event>, minute: int, ttlSeconds: int, code: string)
    ensures code in Intended(t, AsOf(events, minute), minute, ttlSeconds) <==>
              code in t.master && code !in AsOf(events, minute).targets && ttlSeconds >= 0
              && exists e, theme :: e in events && e.at <= MinuteEnd(minute) && Refreshes(e)
                   && e.at + ttlSeconds * 1_000_000 >= MinuteStart(minute)
                   && theme in ThemesOf(t, e.code.value) && code in MembersOf(t, theme)
    ensures LatestList(UpTo(events, MinuteEnd(minute)), AsOf(events, minute).targets)
  {
    TargetsAreTheLatest(events, minute);
    hide LatestList, UpTo;
    hide AsOf, ThemesOf, MembersOf;
    var s := AsOf(events, minute);
    forall c
      ensures c in ActiveAt(s, minute, ttlSeconds) <==>
                ttlSeconds >= 0
                && exists e :: e in events && e.at <= MinuteEnd(minute) && Refreshes(e) && e.code == Some(c)
                     && e.at + ttlSeconds * 1_000_000 >= MinuteStart(minute)
    {
      LastSeenIsTheLatest(events, minute, c);
    }
    hide ActiveAt;
    if ttlSeconds >= 0 {
      forall e, theme | e in events && e.at <= MinuteEnd(minute) && Refreshes(e) && e.at + ttlSeconds * 1_000_000 >= MinuteStart(minute)
                        && theme in ThemesOf(t, e.code.value) && code in MembersOf(t, theme)
        ensures e.code.value in ActiveAt(s, minute, ttlSeconds)
      {
        assert e.code == Some(e.code.value);
      }
    }
  }

  // ----- The cursor -----

  lemma {:induction false} UpToInsert(x: Event, s: seq<Event>, time: int)
    requires SortedBy(s, EventLe)
    ensures UpTo(Insert(x, s, EventLe), time) == if x.at <= time then Insert(x, UpTo(s, time), EventLe) else UpTo(s, time)
  {
    if s == [] {
    } else if EventLe(x, s[0]) {
      assert ([x] + s)[1..] == s;
      if s[0].at > time { NoneUpTo(s, time); }
    } else {
      UpToInsert(x, s[1..], time);
      assert ([s[0]] + Insert(x, s[1..], EventLe))[1..] == Insert(x, s[1..], EventLe);
      if s[0].at > time { NoneUpTo(s, time); }
    }
  }

  lemma {:induction false} NoneUpTo(s: seq<Event>, time: int)
    requires forall e | e in s :: e.at > time
    ensures UpTo(s, time) == []
  {
    if s != [] { NoneUpTo(s[1..], time); }
  }

  lemma {:induction false} SortUpTo(s: seq<Event>, time: int)
    ensures UpTo(Sort(s, EventLe), time) == Sort(UpTo(s, time), EventLe)
  {
    if s != [] {
      SortUpTo(s[1..], time);
      EventLeIsTotal();
      SortCorrect(s[1..], EventLe);
      UpToInsert(s[0], Sort(s[1..], EventLe), time);
      if s[0].at <= time { assert ([s[0]] + UpTo(s[1..], time))[1..] == UpTo(s[1..], time); }
    }
  }

  lemma {:induction false} UpToUpTo(s: seq<Event>, a: int, b: int)
    requires a <= b
    ensures UpTo(UpTo(s, b), a) == UpTo(s, a)
  {
    if s != [] {
      UpToUpTo(s[1..], a, b);
      if s[0].at <= b { assert ([s[0]] + UpTo(s[1..], b))[1..] == UpTo(s[1..], b); }
    }
  }

  lemma {:induction false} PrefixIsUpTo(s: seq<Event>, p: nat, time: int)
    requires p <= |s| && (forall i | 0 <= i < p :: s[i].at <= time) && (forall i | p <= i < |s| :: s[i].at > time)
    ensures UpTo(s, time) == s[..p]
  {
    if p == 0 {
      NoneUpTo(s, time);
    } else {
      PrefixIsUpTo(s[1..], p - 1, time);
      assert s[..p] == [s[0]] + s[1..][..p - 1];
    }
  }

  // The cursor's prefix is what a replay from scratch would sort.
  lemma CursorIsAsOf(events: seq<Event>, minute: int, end: int, p: nat)
    requires minute <= end
    requires var sorted := Sort(UpTo(events, MinuteEnd(end)), EventLe);
             p <= |sorted| && (forall i | 0 <= i < p :: sorted[i].at <= MinuteEnd(minute))
             && (p == |sorted| || sorted[p].at > MinuteEnd(minute))
    ensures Replay(Sort(UpTo(events, MinuteEnd(end)), EventLe)[..p]) == AsOf(events, minute)
  {
    var sorted := Sort(UpTo(events, MinuteEnd(end)), EventLe);
    EventLeIsTotal();
    SortCorrect(UpTo(events, MinuteEnd(end)), EventLe);
    forall i | p <= i < |sorted| ensures sorted[i].at > MinuteEnd(minute) { assert i == p || EventLe(sorted[p], sorted[i]); }
    PrefixIsUpTo(sorted, p, MinuteEnd(minute));
    SortUpTo(UpTo(events, MinuteEnd(end)), MinuteEnd(minute));
    UpToUpTo(events, MinuteEnd(minute), MinuteEnd(end));
  }

  /** One entry a minute, each the answer a replay from scratch up to that minute would give. */
  method ReconstructIntendedCodesByMinute(events: seq<Event>, t: Themes, start: int, end: int, ttlSeconds: int)
    returns (result: map<int, set<string>>)
    ensures forall minute :: minute in result <==> start <= minute <= end
    ensures forall minute | minute in result :: result[minute] == Intended(t, AsOf(events, minute), minute, ttlSeconds)
  {
    hide Intended, AsOf, Sort, UpTo;
    result := map[];
    var selected := SelectUpTo(events, MinuteEnd(end));
    var sorted := Sort(selected, EventLe);
    var lastSeen: map<string, int>, targets: set<string>, position := map[], {}, 0;
    var minute := start;
    while minute <= end
      invariant start <= minute && (minute <= end + 1 || minute == start)
      invariant 0 <= position <= |sorted| && Replay(sorted[..position]) == State(lastSeen, targets)
      invariant forall i | 0 <= i < position :: sorted[i].at <= MinuteEnd(minute)
      invariant forall m :: m in result <==> start <= m < minute
      invariant forall m | m in result :: result[m] == Intended(t, AsOf(events, m), m, ttlSeconds)
    {
      while position < |sorted| && sorted[position].at <= MinuteEnd(minute)
        invariant 0 <= position <= |sorted| && Replay(sorted[..position]) == State(lastSeen, targets)
        invariant forall i | 0 <= i < position :: sorted[i].at <= MinuteEnd(minute)
      {
        var event := sorted[position];
        assert sorted[..position + 1][..position] == sorted[..position];
        position := position + 1;
        match event
        case Rest(at, _, code) =>
          if code.Some? && code.value != "" { lastSeen := lastSeen[code.value := at]; }
        case Condition(at, _, code, refreshes) =>
          if code.Some? && code.value != "" && refreshes { lastSeen := lastSeen[code.value := at]; }
        case Subscription(_, _, stockTrade, listed) =>
          if stockTrade { targets := Listed(listed); }
      }
      CursorIsAsOf(events, minute, end, position);
      var codes := IntendedCodes(t, State(lastSeen, targets), minute, ttlSeconds);
      result := result[minute := codes];
      minute := minute + 1;
    }
  }

  method SelectUpTo(events: seq<Event>, time: int) returns (selected: seq<Event>)
    ensures selected == UpTo(events, time)
  {
    selected := [];
    for i := 0 to |events|
      invariant selected + UpTo(events[i..], time) == UpTo(events, time)
    {
      assert events[i..][1..] == events[i + 1..];
      if events[i].at <= time { selected := selected + [events[i]]; }
    }
  }

  method IntendedCodes(t: Themes, s: State, minute: int, ttlSeconds: int) returns (codes: set<string>)
    ensures codes == Intended(t, s, minute, ttlSeconds)
  {
    var active := ActiveAt(s, minute, ttlSeconds);
    var themes := set c, theme | c in active && theme in ThemesOf(t, c) :: theme;
    var related := set theme, m | theme in themes && m in MembersOf(t, theme) :: m;
    codes := related * t.master - s.targets;
  }
}
