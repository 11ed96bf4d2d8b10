/** The supplemental search gate of packages/catalyst/supplemental.py:35-88. */
module SupplementalGate {
  import opened Results

  datatype Limits = Limits(cooldown: int, quota: int, window: int)

  datatype Denial = LocalEvidenceExists | Cooldown | QuotaExhausted

  datatype Grant = Grant(eventId: string, at: int)

  datatype Ask = Ask(eventId: string, now: int, hasLocalEvidence: bool)

  // The event's last granted request, and the grants still counted.
  datatype Gate = Gate(lastRequest: map<string, int>, calls: seq<int>)

  function After(calls: seq<int>, threshold: int): seq<int> {
    if calls == [] then [] else
    var n := |calls| - 1;
    if calls[n] > threshold then After(calls[..n], threshold) + [calls[n]] else After(calls[..n], threshold)
  }

  function SupplementalRequest(limits: Limits, g: Gate, ask: Ask): (Gate, Option<Denial>) {
    if ask.hasLocalEvidence then (g, Some(LocalEvidenceExists))
    else if ask.eventId in g.lastRequest && ask.now - g.lastRequest[ask.eventId] < limits.cooldown then (g, Some(Cooldown))
    else
      var calls := After(g.calls, ask.now - limits.window);
      if |calls| >= limits.quota then (g.(calls := calls), Some(QuotaExhausted))
      else (Gate(g.lastRequest[ask.eventId := ask.now], calls + [ask.now]), None)
  }

  class SupplementalSearchGate {
    const limits: Limits
    var lastRequest: map<string, int>
    var calls: seq<int>

    function State(): Gate reads this { Gate(lastRequest, calls) }

    constructor (limits: Limits)
      ensures this.limits == limits && State() == Gate(map[], [])
    {
      this.limits := limits;
      lastRequest, calls := map[], [];
    }

    method Request(ask: Ask) returns (denial: Option<Denial>)
      modifies this
      ensures (State(), denial) == SupplementalRequest(limits, old(State()), ask)
    {
      if ask.hasLocalEvidence { return Some(LocalEvidenceExists); }
      if ask.eventId in lastRequest && ask.now - lastRequest[ask.eventId] < limits.cooldown { return Some(Cooldown); }
      var kept := [];
      for i := 0 to |calls|
        invariant kept == After(calls[..i], ask.now - limits.window)
      {
        assert calls[..i + 1][..i] == calls[..i];
        if ask.now - calls[i] < limits.window { kept := kept + [calls[i]]; }
      }
      assert calls[..|calls|] == calls;
      calls := kept;
      if |calls| >= limits.quota { return Some(QuotaExhausted); }
      lastRequest := lastRequest[ask.eventId := ask.now];
      calls := calls + [ask.now];
      return None;
    }
  }

  // ----- The rule over everything ever granted -----

  function Times(grants: seq<Grant>): seq<int> { seq(|grants|, i requires 0 <= i < |grants| => grants[i].at) }

  ghost predicate Cooling(limits: Limits, grants: seq<Grant>, ask: Ask) {
    exists g :: g in grants && g.eventId == ask.eventId && ask.now - g.at < limits.cooldown
  }

  // Local evidence comes first, then the event's cooldown, then the quota of the window.
  ghost function Rule(limits: Limits, grants: seq<Grant>, ask: Ask): Option<Denial> {
    if ask.hasLocalEvidence then Some(LocalEvidenceExists)
    else if Cooling(limits, grants, ask) then Some(Cooldown)
    else if |After(Times(grants), ask.now - limits.window)| >= limits.quota then Some(QuotaExhausted)
    else None
  }

  datatype World = World(gate: Gate, grants: seq<Grant>)

  ghost function Step(limits: Limits, w: World, ask: Ask): World {
    var (gate, denial) := SupplementalRequest(limits, w.gate, ask);
    World(gate, if denial.None? then w.grants + [Grant(ask.eventId, ask.now)] else w.grants)
  }

  ghost function Run(limits: Limits, asks: seq<Ask>): World {
    if asks == [] then World(Gate(map[], []), []) else Step(limits, Run(limits, asks[..|asks| - 1]), asks[|asks| - 1])
  }

  ghost predicate InOrder(asks: seq<Ask>) { forall i, j | 0 <= i < j < |asks| :: asks[i].now <= asks[j].now }

  // The last request of an event is its latest grant.
  ghost predicate LastIsLatest(w: World) {
    && (forall g | g in w.grants :: g.eventId in w.gate.lastRequest && g.at <= w.gate.lastRequest[g.eventId])
    && (forall e | e in w.gate.lastRequest :: Grant(e, w.gate.lastRequest[e]) in w.grants)
  }

  // Nothing counted at or after the threshold has been dropped.
  ghost predicate CountsFrom(w: World, threshold: int) {
    forall t | t >= threshold :: After(w.gate.calls, t) == After(Times(w.grants), t)
  }

  lemma {:induction false} AfterAfter(calls: seq<int>, a: int, b: int)
    requires a <= b
    ensures After(After(calls, a), b) == After(calls, b)
  {
    if calls != [] {
      var n := |calls| - 1;
      AfterAfter(calls[..n], a, b);
      if calls[n] > a { assert (After(calls[..n], a) + [calls[n]])[..|After(calls[..n], a)|] == After(calls[..n], a); }
    }
  }

  lemma AfterSnoc(calls: seq<int>, now: int, t: int)
    ensures After(calls + [now], t) == if now > t then After(calls, t) + [now] else After(calls, t)
  {
    assert (calls + [now])[..|calls|] == calls;
  }

  lemma TimesSnoc(grants: seq<Grant>, g: Grant)
    ensures Times(grants + [g]) == Times(grants) + [g.at]
  {
  }

  ghost predicate Granted(w: World, now: int) { forall g | g in w.grants :: g.at <= now }

  /** The gate's two small tables answer as if it remembered every grant. */
  lemma StepFollowsRule(limits: Limits, w: World, ask: Ask)
    requires LastIsLatest(w) && CountsFrom(w, ask.now - limits.window) && Granted(w, ask.now)
    ensures SupplementalRequest(limits, w.gate, ask).1 == Rule(limits, w.grants, ask)
    ensures LastIsLatest(Step(limits, w, ask)) && CountsFrom(Step(limits, w, ask), ask.now - limits.window)
    ensures Granted(Step(limits, w, ask), ask.now)
  {
    hide After, Times;
    var threshold, w' := ask.now - limits.window, Step(limits, w, ask);
    var kept := After(w.gate.calls, threshold);
    forall t | t >= threshold ensures After(w'.gate.calls, t) == After(Times(w'.grants), t) {
      AfterAfter(w.gate.calls, threshold, t);
      AfterSnoc(kept, ask.now, t);
      TimesSnoc(w.grants, Grant(ask.eventId, ask.now));
      AfterSnoc(Times(w.grants), ask.now, t);
    }
  }

  lemma {:induction false} RunKeeps(limits: Limits, asks: seq<Ask>)
    requires InOrder(asks)
    ensures var w := Run(limits, asks);
            LastIsLatest(w) && (asks == [] ==> w == World(Gate(map[], []), []))
            && (asks != [] ==> CountsFrom(w, asks[|asks| - 1].now - limits.window) && Granted(w, asks[|asks| - 1].now))
  {
    hide Step;
    if asks != [] {
      var n := |asks| - 1;
      RunKeeps(limits, asks[..n]);
      Ready(limits, asks, n);
      StepFollowsRule(limits, Run(limits, asks[..n]), asks[n]);
    }
  }

  lemma Ready(limits: Limits, asks: seq<Ask>, n: nat)
    requires InOrder(asks) && n < |asks|
    requires n > 0 ==> CountsFrom(Run(limits, asks[..n]), asks[n - 1].now - limits.window) && Granted(Run(limits, asks[..n]), asks[n - 1].now)
    ensures CountsFrom(Run(limits, asks[..n]), asks[n].now - limits.window) && Granted(Run(limits, asks[..n]), asks[n].now)
  {
    hide Step;
    if n == 0 { assert asks[..0] == []; } else { assert asks[n - 1].now <= asks[n].now; }
  }

  /** On a run whose clock never goes back, every answer is the rule's. */
  lemma EveryAnswerFollowsTheRule(limits: Limits, asks: seq<Ask>, n: nat)
    requires InOrder(asks) && n < |asks|
    ensures var w := Run(limits, asks[..n]);
            SupplementalRequest(limits, w.gate, asks[n]).1 == Rule(limits, w.grants, asks[n])
  {
    hide Step;
    RunKeeps(limits, asks[..n]);
    Ready(limits, asks, n);
    StepFollowsRule(limits, Run(limits, asks[..n]), asks[n]);
  }

  // Grants to one event are a cooldown apart, and no window holds more than quota grants.
  ghost predicate Spaced(limits: Limits, grants: seq<Grant>) {
    && (forall i, j | 0 <= i < j < |grants| && grants[i].eventId == grants[j].eventId :: grants[j].at - grants[i].at >= limits.cooldown)
    && (forall k | 0 <= k < |grants| :: |After(Times(grants[..k + 1]), grants[k].at - limits.window)| <= limits.quota)
  }

  lemma {:induction false} GrantsAreSpaced(limits: Limits, asks: seq<Ask>)
    requires InOrder(asks)
    ensures Spaced(limits, Run(limits, asks).grants)
  {
    hide Step, Rule, After;
    if asks != [] {
      var n := |asks| - 1;
      var w, ask := Run(limits, asks[..n]), asks[n];
      GrantsAreSpaced(limits, asks[..n]);
      EveryAnswerFollowsTheRule(limits, asks, n);
      GrantIsSpaced(limits, w, ask);
    }
  }

  lemma GrantIsSpaced(limits: Limits, w: World, ask: Ask)
    requires Spaced(limits, w.grants) && SupplementalRequest(limits, w.gate, ask).1 == Rule(limits, w.grants, ask)
    ensures Spaced(limits, Step(limits, w, ask).grants)
  {
    hide After, Times;
    var all := Step(limits, w, ask).grants;
    if all != w.grants {
      var n := |w.grants|;
      forall k | 0 <= k < |all| ensures |After(Times(all[..k + 1]), all[k].at - limits.window)| <= limits.quota {
        if k < n {
          assert all[..k + 1] == w.grants[..k + 1];
        } else {
          assert all[..k + 1] == w.grants + [Grant(ask.eventId, ask.now)];
          TimesSnoc(w.grants, Grant(ask.eventId, ask.now));
          AfterSnoc(Times(w.grants), ask.now, ask.now - limits.window);
        }
      }
      forall i, j | 0 <= i < j < |all| && all[i].eventId == all[j].eventId ensures all[j].at - all[i].at >= limits.cooldown {
        if j == n { assert w.grants[i] in w.grants; }
      }
    }
  }
}
