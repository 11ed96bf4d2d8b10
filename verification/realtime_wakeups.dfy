/** apps/api/realtime.py:178-320, 407-469 and 548-585: who is told of a new snapshot, and when a connection may sleep.
    A publish sets a listener's event from another thread, some time after the snapshot is in place; a connection clears its
    event, then drains, one topic at a time, while publishes go on. */
module RealtimeWakeUps {
  import opened Results
  import opened Realtime

  // A topic of one of a connection's subscriptions.
  type Item = (string, Scope)

  datatype Hub = Hub(
    fences: map<Scope, Fence>,
    subscriptions: map<nat, map<string, seq<Scope>>>,
    // Listeners whose event is about to be set, those whose event is set, those that have cleared it and owe a drain, and
    // what a running drain still has to offer.
    notifying: set<nat>, signalled: set<nat>, awake: set<nat>, draining: map<nat, set<Item>>,
    lastSent: map<nat, map<Item, Version>>)

  const NO_ONE: Hub := Hub(map[], map[], {}, {}, {}, map[], map[])

  datatype Step =
    | Publish(scope: Scope, snapshot: Snapshot)
    | Notify(who: nat)
    | Open(who: nat)
    | Subscribe(who: nat, id: string, scopes: seq<Scope>)
    | Unsubscribe(who: nat, id: string)
    | Wake(who: nat)
    | Drain(who: nat)
    | Offer(who: nat, item: Item)
    | Close(who: nat)

  function Draining(h: Hub, who: nat): set<Item> { if who in h.draining then h.draining[who] else {} }

  function LastSent(h: Hub, who: nat): map<Item, Version> { if who in h.lastSent then h.lastSent[who] else map[] }

  function Topics(h: Hub, who: nat): set<Item> {
    if who !in h.subscriptions then {} else
    set id, scope | id in h.subscriptions[who] && scope in h.subscriptions[who][id] :: (id, scope)
  }

  // Whoever has a subscription to the scope when a snapshot is put in place.
  function Listeners(h: Hub, scope: Scope): set<nat> {
    set who | who in h.subscriptions && exists item :: item in Topics(h, who) && item.1 == scope
  }

  // A connection's own steps follow one another: it handles a message, wakes or begins a drain only when none of its drains
  // is running; a message that came with the wake-up is handled before the drain.
  ghost predicate Possible(h: Hub, step: Step) {
    match step
    case Publish(_, _) => true
    case Notify(who) => who in h.notifying
    case Open(who) => who !in h.subscriptions && who !in h.notifying && who !in h.signalled && who !in h.awake
    case Subscribe(who, _, _) => who in h.subscriptions && Draining(h, who) == {}
    case Unsubscribe(who, _) => who in h.subscriptions && Draining(h, who) == {}
    case Wake(who) => who in h.subscriptions && who in h.signalled && who !in h.awake && Draining(h, who) == {}
    case Drain(who) => who in h.subscriptions && who in h.awake && Draining(h, who) == {}
    case Offer(who, item) => item in Draining(h, who)
    case Close(_) => true
  }

  function Offered(h: Hub, who: nat, item: Item, schema: string): map<Item, Version> {
    var latest := FenceOf(h.fences, item.1).latest;
    if Sends(LastSent(h, who), item, latest, schema) then LastSent(h, who)[item := VersionOf(latest.value)] else LastSent(h, who)
  }

  function Next(h: Hub, step: Step, schema: string): Hub {
    match step
    case Publish(scope, s) =>
      var (f, d) := Admit(FenceOf(h.fences, scope), s);
      h.(fences := h.fences[scope := f], notifying := if d == Applied then h.notifying + Listeners(h, scope) else h.notifying)
    case Notify(who) =>
      h.(notifying := h.notifying - {who}, signalled := if who in h.subscriptions then h.signalled + {who} else h.signalled)
    case Open(who) =>
      h.(subscriptions := h.subscriptions[who := map[]], draining := h.draining[who := {}], lastSent := h.lastSent[who := map[]])
    case Subscribe(who, id, scopes) =>
      if who !in h.subscriptions then h else
      h.(subscriptions := h.subscriptions[who := h.subscriptions[who][id := scopes]],
         draining := h.draining[who := set scope | scope in scopes :: (id, scope)])
    case Unsubscribe(who, id) =>
      if who !in h.subscriptions then h else
      h.(subscriptions := h.subscriptions[who := h.subscriptions[who] - {id}],
         lastSent := h.lastSent[who := map item | item in LastSent(h, who) && item.0 != id :: LastSent(h, who)[item]])
    case Wake(who) => h.(signalled := h.signalled - {who}, awake := h.awake + {who})
    case Drain(who) => h.(awake := h.awake - {who}, draining := h.draining[who := Topics(h, who)])
    case Offer(who, item) =>
      h.(draining := h.draining[who := Draining(h, who) - {item}], lastSent := h.lastSent[who := Offered(h, who, item, schema)])
    case Close(who) =>
      h.(subscriptions := h.subscriptions - {who},
         signalled := h.signalled - {who}, awake := h.awake - {who}, draining := h.draining - {who}, lastSent := h.lastSent - {who})
  }

  function After(steps: seq<Step>, schema: string): Hub {
    if steps == [] then NO_ONE else Next(After(steps[..|steps| - 1], schema), steps[|steps| - 1], schema)
  }

  ghost predicate CanRun(steps: seq<Step>, schema: string) {
    forall i | 0 <= i < |steps| :: Possible(After(steps[..i], schema), steps[i])
  }

  // The topic's latest snapshot is one this client speaks and has not been sent.
  predicate Due(h: Hub, who: nat, item: Item, schema: string) {
    item in Topics(h, who) && Sends(LastSent(h, who), item, FenceOf(h.fences, item.1).latest, schema)
  }

  // Whoever still has something due is about to be told, has been told, is about to drain, or is draining just that.
  ghost predicate NothingForgotten(h: Hub, schema: string) {
    forall who, item | Due(h, who, item, schema) :: who in h.notifying || who in h.signalled || who in h.awake || item in Draining(h, who)
  }

  ghost predicate Cared(h: Hub, who: nat, item: Item, schema: string) {
    Due(h, who, item, schema) ==> who in h.notifying || who in h.signalled || who in h.awake || item in Draining(h, who)
  }

  lemma CaredFor(h: Hub, schema: string, who: nat, item: Item)
    requires NothingForgotten(h, schema)
    ensures Cared(h, who, item, schema)
  {
    hide Due;
  }

  // A snapshot that is not applied changes no scope's latest one; an applied one changes its own scope only.
  lemma OnlyThatScope(fences: map<Scope, Fence>, scope: Scope, s: Snapshot, other: Scope)
    ensures var (f, d) := Admit(FenceOf(fences, scope), s);
            (other != scope || d != Applied) ==> FenceOf(fences[scope := f], other).latest == FenceOf(fences, other).latest
  {
  }

  lemma PublishForgetsNothing(h: Hub, scope: Scope, s: Snapshot, schema: string, who: nat, item: Item)
    requires NothingForgotten(h, schema)
    ensures Cared(Next(h, Step.Publish(scope, s), schema), who, item, schema)
  {
    CaredFor(h, schema, who, item);
    OnlyThatScope(h.fences, scope, s, item.1);
    var h' := Next(h, Step.Publish(scope, s), schema);
    assert Topics(h', who) == Topics(h, who) && LastSent(h', who) == LastSent(h, who) && Draining(h', who) == Draining(h, who);
    hide Admit, Topics, Sends;
    if item in Topics(h, who) && item.1 == scope { assert who in Listeners(h, scope) by { TopicsAreSubscribed(h, who, item); } }
  }

  lemma TopicsAreSubscribed(h: Hub, who: nat, item: Item)
    requires item in Topics(h, who)
    ensures who in h.subscriptions
  {
  }

  // A drain that offers an item leaves it not due; others of the connection, and other connections, are as they were.
  lemma OfferForgetsNothing(h: Hub, at: nat, done: Item, schema: string, who: nat, item: Item)
    requires NothingForgotten(h, schema)
    ensures Cared(Next(h, Offer(at, done), schema), who, item, schema)
  {
    CaredFor(h, schema, who, item);
    var h' := Next(h, Offer(at, done), schema);
    assert Topics(h', who) == Topics(h, who) && h'.fences == h.fences;
    hide Topics, FenceOf;
    if who == at {
      if item != done { assert item in LastSent(h', who) <==> item in LastSent(h, who); }
    }
  }

  lemma DrainForgetsNothing(h: Hub, at: nat, schema: string, who: nat, item: Item)
    requires NothingForgotten(h, schema)
    ensures Cared(Next(h, Drain(at), schema), who, item, schema)
  {
    CaredFor(h, schema, who, item);
    var h' := Next(h, Drain(at), schema);
    assert Topics(h', who) == Topics(h, who);
    hide Topics, Sends;
  }

  lemma SubscribeForgetsNothing(h: Hub, at: nat, id: string, scopes: seq<Scope>, schema: string, who: nat, item: Item)
    requires NothingForgotten(h, schema) && Possible(h, Step.Subscribe(at, id, scopes))
    ensures Cared(Next(h, Step.Subscribe(at, id, scopes), schema), who, item, schema)
  {
    CaredFor(h, schema, who, item);
    hide Sends;
  }

  lemma UnsubscribeForgetsNothing(h: Hub, at: nat, id: string, schema: string, who: nat, item: Item)
    requires NothingForgotten(h, schema) && Possible(h, Step.Unsubscribe(at, id))
    ensures Cared(Next(h, Step.Unsubscribe(at, id), schema), who, item, schema)
  {
    CaredFor(h, schema, who, item);
  }

  lemma OtherStepsForgetNothing(h: Hub, step: Step, schema: string, who: nat, item: Item)
    requires NothingForgotten(h, schema) && Possible(h, step) && (step.Notify? || step.Open? || step.Wake? || step.Close?)
    ensures Cared(Next(h, step, schema), who, item, schema)
  {
    CaredFor(h, schema, who, item);
    hide Sends;
  }

  lemma StepForgetsNothing(h: Hub, step: Step, schema: string)
    requires NothingForgotten(h, schema) && Possible(h, step)
    ensures NothingForgotten(Next(h, step, schema), schema)
  {
    var h' := Next(h, step, schema);
    forall who, item | Due(h', who, item, schema) ensures Cared(h', who, item, schema) {
      match step
      case Publish(scope, s) => PublishForgetsNothing(h, scope, s, schema, who, item);
      case Subscribe(at, id, scopes) => SubscribeForgetsNothing(h, at, id, scopes, schema, who, item);
      case Unsubscribe(at, id) => UnsubscribeForgetsNothing(h, at, id, schema, who, item);
      case Drain(at) => DrainForgetsNothing(h, at, schema, who, item);
      case Offer(at, done) => OfferForgetsNothing(h, at, done, schema, who, item);
      case Wake(_) => OtherStepsForgetNothing(h, step, schema, who, item);
      case Notify(_) => OtherStepsForgetNothing(h, step, schema, who, item);
      case Open(_) => OtherStepsForgetNothing(h, step, schema, who, item);
      case Close(_) => OtherStepsForgetNothing(h, step, schema, who, item);
    }
    hide Next, Due, Possible;
  }

  lemma {:induction false} NothingIsForgotten(steps: seq<Step>, schema: string)
    requires CanRun(steps, schema)
    ensures NothingForgotten(After(steps, schema), schema)
    decreases |steps|
  {
    hide Next, Possible, NothingForgotten;
    if steps == [] {
      NobodyForgotten(schema);
    } else {
      var n := |steps| - 1;
      assert forall i | 0 <= i < n :: steps[..n][i] == steps[i] && steps[..n][..i] == steps[..i];
      NothingIsForgotten(steps[..n], schema);
      StepForgetsNothing(After(steps[..n], schema), steps[n], schema);
    }
  }

  lemma NobodyForgotten(schema: string)
    ensures NothingForgotten(NO_ONE, schema)
  {
  }

  /** No wake-up is lost: however publishes, notifications, subscriptions and drains interleave, a connection whose event is
      clear, with no notification on its way and no drain owed or running, has sent the latest snapshot of every topic it subscribes
      to whose schema its client speaks. */
  lemma SleepersAreUpToDate(steps: seq<Step>, schema: string, who: nat, item: Item)
    requires CanRun(steps, schema)
    requires var h := After(steps, schema); who !in h.notifying && who !in h.signalled && who !in h.awake && Draining(h, who) == {}
    requires var h := After(steps, schema);
             && item in Topics(h, who) && FenceOf(h.fences, item.1).latest.Some?
             && FenceOf(h.fences, item.1).latest.value.schemaVersion == schema
    ensures var h := After(steps, schema);
            item in LastSent(h, who) && LastSent(h, who)[item] == VersionOf(FenceOf(h.fences, item.1).latest.value)
  {
    NothingIsForgotten(steps, schema);
    CaredFor(After(steps, schema), schema, who, item);
    hide After, CanRun, Topics;
  }
}
