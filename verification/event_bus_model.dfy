/**
 The event bus as a state machine: deduplication through a pruned table, priority routing, pause,
 resume and replay. Handlers are total and do not publish; the clock is a function from the number
 of readings to times.
 */
module EventBusModel {
  import opened Clocks
  import opened Wrappers
  import opened EventQueue

  datatype Subscription = Subscription(
    subscriberId: string,
    matches: Event -> bool,
    debounceSeconds: real,
    throttleSeconds: real)

  datatype Delivery = Delivery(subscriberId: string, event: Event, time: real, interval: real)

  datatype Accepted = Accepted(event: Event, time: real)

  /** `pruneAbove` is the size above which the table is pruned; the bus uses `DEDUPE_CAPACITY`. */
  datatype Config = Config(dedupeSeconds: real, historyLimit: int, clock: Clock, pruneAbove: Option<nat>)

  const DEDUPE_CAPACITY := 10000
  const NEVER := -1000000000.0

  /** The fields of the bus, then the logs that its theorems speak about. */
  datatype Bus = Bus(
    dedupe: map<string, real>,
    queue: seq<Entry>,
    sequence: nat,
    paused: bool,
    history: seq<Event>,
    subscriptions: seq<Subscription>,
    lastDelivery: map<(string, string), real>,
    readings: nat,
    accepted: seq<Accepted>,
    replayed: seq<Event>,
    routed: seq<Event>,
    deliveries: seq<Delivery>)

  const INITIAL := Bus(map[], [], 0, false, [], [], map[], 0, [], [], [], [])

  // ---- Publishing ----------------------------------------------------

  function Retain(history: seq<Event>, limit: int): seq<Event> {
    var size := if limit < 1 then 1 else limit;
    if |history| <= size then history else history[|history| - size..]
  }

  predicate Duplicate(table: map<string, real>, fingerprint: string, now: real, dedupeSeconds: real) {
    fingerprint in table && now - table[fingerprint] < dedupeSeconds
  }

  function Prune(table: map<string, real>, now: real, dedupeSeconds: real, above: Option<nat>): map<string, real> {
    if above.Some? && |table| > above.value then map f | f in table && now - table[f] < dedupeSeconds :: table[f]
    else table
  }

  predicate Accepts(cfg: Config, b: Bus, event: Event) {
    !Duplicate(b.dedupe, event.fingerprint, cfg.clock(b.readings), cfg.dedupeSeconds)
  }

  /** What `publish` does, before it routes, with an event that is no duplicate. */
  function Accept(cfg: Config, b: Bus, event: Event): Bus {
    Admit(cfg, b.(readings := b.readings + 1), event, cfg.clock(b.readings))
  }

  function Admit(cfg: Config, b: Bus, event: Event, now: real): Bus {
    b.(dedupe := Prune(b.dedupe[event.fingerprint := now], now, cfg.dedupeSeconds, cfg.pruneAbove),
       history := Retain(b.history + [event], cfg.historyLimit),
       sequence := b.sequence + 1,
       queue := Put(b.queue, Entry(event, b.sequence + 1)),
       accepted := b.accepted + [Accepted(event, now)])
  }

  // ---- Routing -------------------------------------------------------

  function Interval(s: Subscription): real {
    if s.throttleSeconds > s.debounceSeconds then s.throttleSeconds else s.debounceSeconds
  }

  function Deliver(last: map<(string, string), real>, deliveries: seq<Delivery>, subscriptions: seq<Subscription>,
                   event: Event, now: real): (map<(string, string), real>, seq<Delivery>)
    decreases |subscriptions|
  {
    if subscriptions == [] then (last, deliveries)
    else
      var s := subscriptions[0];
      var key := (s.subscriberId, event.eventType);
      var previous := if key in last then last[key] else NEVER;
      if !s.matches(event) || now - previous < Interval(s) then
        Deliver(last, deliveries, subscriptions[1..], event, now)
      else
        Deliver(last[key := now], deliveries + [Delivery(s.subscriberId, event, now, Interval(s))],
                subscriptions[1..], event, now)
  }

  function RouteOne(cfg: Config, b: Bus): Bus
    requires b.queue != []
  {
    var event := b.queue[0].event;
    var (last, deliveries) := Deliver(b.lastDelivery, b.deliveries, b.subscriptions, event, cfg.clock(b.readings));
    b.(queue := b.queue[1..], readings := b.readings + 1, routed := b.routed + [event],
       lastDelivery := last, deliveries := deliveries)
  }

  function RoutePending(cfg: Config, b: Bus): Bus
    decreases |b.queue|
  {
    if b.queue == [] || b.paused then b else RoutePending(cfg, RouteOne(cfg, b))
  }

  // ---- Operations ----------------------------------------------------

  /** Absent and empty event types select every event. */
  predicate IsSelected(event: Event, eventType: Option<string>, since: Option<int>) {
    && (eventType.None? || eventType.value == "" || event.eventType == eventType.value)
    && (since.None? || event.timestamp >= since.value)
  }

  function Selected(history: seq<Event>, eventType: Option<string>, since: Option<int>): seq<Event> {
    if history == [] then []
    else (if IsSelected(history[0], eventType, since) then [history[0]] else [])
         + Selected(history[1..], eventType, since)
  }

  function Requeue(b: Bus, events: seq<Event>): Bus {
    b.(queue := PutAll(b.queue, b.sequence, events), sequence := b.sequence + |events|, replayed := b.replayed + events)
  }

  /** A second subscription under one id takes the place of the first. */
  function Registered(subscriptions: seq<Subscription>, s: Subscription): seq<Subscription> {
    if subscriptions == [] then [s]
    else if subscriptions[0].subscriberId == s.subscriberId then [s] + subscriptions[1..]
    else [subscriptions[0]] + Registered(subscriptions[1..], s)
  }

  function Removed(subscriptions: seq<Subscription>, id: string): seq<Subscription> {
    if subscriptions == [] then []
    else if subscriptions[0].subscriberId == id then subscriptions[1..]
    else [subscriptions[0]] + Removed(subscriptions[1..], id)
  }

  datatype Operation =
    | Publish(event: Event)
    | Replay(eventType: Option<string>, since: Option<int>)
    | Pause
    | Resume
    | Subscribe(subscription: Subscription)
    | Unsubscribe(id: string)

  function Apply(cfg: Config, b: Bus, op: Operation): Bus {
    match op
    case Publish(event) =>
      if Accepts(cfg, b, event) then RoutePending(cfg, Accept(cfg, b, event)) else b.(readings := b.readings + 1)
    case Replay(eventType, since) => RoutePending(cfg, Requeue(b, Selected(b.history, eventType, since)))
    case Pause => b.(paused := true)
    case Resume => RoutePending(cfg, b.(paused := false))
    case Subscribe(s) => b.(subscriptions := Registered(b.subscriptions, s))
    case Unsubscribe(id) => b.(subscriptions := Removed(b.subscriptions, id))
  }

  function After(cfg: Config, ops: seq<Operation>): Bus
    decreases |ops|
  {
    if ops == [] then INITIAL else Apply(cfg, After(cfg, ops[..|ops| - 1]), ops[|ops| - 1])
  }

  // ---- Conservation --------------------------------------------------

  function AcceptedEvents(log: seq<Accepted>): seq<Event> {
    if log == [] then [] else AcceptedEvents(log[..|log| - 1]) + [log[|log| - 1].event]
  }

  function Taken(b: Bus): multiset<Event> {
    multiset(AcceptedEvents(b.accepted)) + multiset(b.replayed)
  }

  function Kept(b: Bus): multiset<Event> {
    multiset(b.routed) + multiset(EventsOf(b.queue))
  }

  /** Every accepted or replayed event is routed or pending, and nothing else is. */
  ghost predicate Conserved(b: Bus) {
    Taken(b) == Kept(b) && (!b.paused ==> b.queue == [])
  }

  /** Routing runs the queue empty unless the bus is paused, in queue order, and touches no more. */
  lemma {:induction false} RoutingDrains(cfg: Config, b: Bus)
    ensures
      var b' := RoutePending(cfg, b);
      && b'.routed + EventsOf(b'.queue) == b.routed + EventsOf(b.queue)
      && (!b.paused ==> b'.queue == [])
      && b' == b.(queue := b'.queue, routed := b'.routed, readings := b'.readings,
                  lastDelivery := b'.lastDelivery, deliveries := b'.deliveries)
      && b'.readings >= b.readings
    decreases |b.queue|
  {
    hide Deliver;
    if b.queue != [] && !b.paused {
      RoutingDrains(cfg, RouteOne(cfg, b));
      assert EventsOf(b.queue) == [b.queue[0].event] + EventsOf(b.queue[1..]);
    }
  }

  /** The events that an operation adds to the queue. */
  function Adds(cfg: Config, b: Bus, op: Operation): seq<Event> {
    match op
    case Publish(event) => if Accepts(cfg, b, event) then [event] else []
    case Replay(eventType, since) => Selected(b.history, eventType, since)
    case _ => []
  }

  lemma RoutingBalances(cfg: Config, b: Bus)
    ensures
      var b' := RoutePending(cfg, b);
      Taken(b') == Taken(b) && Kept(b') == Kept(b) && b'.paused == b.paused && (!b.paused ==> b'.queue == [])
  {
    hide RoutePending, EventsOf;
    RoutingDrains(cfg, b);
    var b' := RoutePending(cfg, b);
    assert multiset(b'.routed + EventsOf(b'.queue)) == multiset(b.routed + EventsOf(b.queue));
  }

  lemma AcceptBalances(cfg: Config, b: Bus, event: Event)
    ensures
      var b' := Accept(cfg, b, event);
      Taken(b') == Taken(b) + multiset{event} && Kept(b') == Kept(b) + multiset{event} && b'.paused == b.paused
  {
    hide Put, EventsOf, Prune, Retain;
    var b' := Accept(cfg, b, event);
    EventsOfPut(b.queue, Entry(event, b.sequence + 1));
    assert b'.accepted[..|b'.accepted| - 1] == b.accepted;
  }

  lemma RequeueBalances(b: Bus, events: seq<Event>)
    ensures
      var b' := Requeue(b, events);
      Taken(b') == Taken(b) + multiset(events) && Kept(b') == Kept(b) + multiset(events) && b'.paused == b.paused
  {
    hide PutAll, EventsOf;
    EventsOfPutAll(b.queue, b.sequence, events);
  }

  /** An operation takes exactly the events that it adds, and keeps them. */
  lemma ApplyBalances(cfg: Config, b: Bus, op: Operation)
    ensures
      var b', added := Apply(cfg, b, op), multiset(Adds(cfg, b, op));
      && Taken(b') == Taken(b) + added && Kept(b') == Kept(b) + added
      && (!b'.paused && (!b.paused ==> b.queue == []) ==> b'.queue == [])
  {
    hide RoutePending, Selected, Admit, PutAll, EventsOf, Duplicate, Registered, Removed;
    if op.Publish? && Accepts(cfg, b, op.event) {
      hide Taken, Kept, Accept;
      AcceptBalances(cfg, b, op.event);
      RoutingBalances(cfg, Accept(cfg, b, op.event));
    } else if op.Replay? {
      hide Taken, Kept, Requeue;
      var events := Selected(b.history, op.eventType, op.since);
      RequeueBalances(b, events);
      RoutingBalances(cfg, Requeue(b, events));
    } else if op.Resume? {
      RoutingBalances(cfg, b.(paused := false));
    }
  }

  /** In every run, accepted plus replayed events equal routed plus pending ones; only a paused bus has any pending. */
  lemma {:induction false} RunsConserve(cfg: Config, ops: seq<Operation>)
    ensures Conserved(After(cfg, ops))
    decreases |ops|
  {
    hide Apply, Adds;
    if ops != [] {
      RunsConserve(cfg, ops[..|ops| - 1]);
      ApplyBalances(cfg, After(cfg, ops[..|ops| - 1]), ops[|ops| - 1]);
    }
  }

  // ---- The replay history --------------------------------------------

  lemma RetainTwice(a: seq<Event>, e: Event, limit: int)
    ensures Retain(Retain(a, limit) + [e], limit) == Retain(a + [e], limit)
  {
    var size := if limit < 1 then 1 else limit;
    if |a| > size {
      assert (Retain(a, limit) + [e])[1..] == (a + [e])[|a| + 1 - size..];
    }
  }

  /** Over every run the bounded history holds the latest accepted events; replays add nothing to it. */
  lemma {:induction false} HistoryIsLatestAccepted(cfg: Config, ops: seq<Operation>)
    ensures After(cfg, ops).history == Retain(AcceptedEvents(After(cfg, ops).accepted), cfg.historyLimit)
    decreases |ops|
  {
    hide RoutePending, Selected, Put, PutAll, EventsOf, Prune, Retain, Duplicate, Registered, Removed;
    if ops == [] {
      RetainNothing(cfg.historyLimit);
    } else {
      HistoryIsLatestAccepted(cfg, ops[..|ops| - 1]);
      var b, op := After(cfg, ops[..|ops| - 1]), ops[|ops| - 1];
      if op.Publish? && Accepts(cfg, b, op.event) {
        var b1 := Accept(cfg, b, op.event);
        RoutingDrains(cfg, b1);
        assert b1.accepted[..|b1.accepted| - 1] == b.accepted;
        RetainTwice(AcceptedEvents(b.accepted), op.event, cfg.historyLimit);
      } else if op.Replay? {
        RoutingDrains(cfg, Requeue(b, Selected(b.history, op.eventType, op.since)));
      } else if op.Resume? {
        RoutingDrains(cfg, b.(paused := false));
      }
    }
  }

  /** In particular it is the end of the accepted events, as long as the limit allows and at least one event long. */
  lemma HistoryIsTail(cfg: Config, ops: seq<Operation>)
    ensures
      var history, accepted := After(cfg, ops).history, AcceptedEvents(After(cfg, ops).accepted);
      var size := if cfg.historyLimit < 1 then 1 else cfg.historyLimit;
      && |history| == (if |accepted| < size then |accepted| else size)
      && history == accepted[|accepted| - |history|..]
  {
    hide AcceptedEvents, After, Retain;
    HistoryIsLatestAccepted(cfg, ops);
    RetainTells(AcceptedEvents(After(cfg, ops).accepted), cfg.historyLimit);
  }

  lemma RetainTells(events: seq<Event>, limit: int)
    ensures
      var kept, size := Retain(events, limit), if limit < 1 then 1 else limit;
      |kept| == (if |events| < size then |events| else size) && kept == events[|events| - |kept|..]
  {
  }

  /** `places` lists in order where the picked events stand, and those are exactly the selected ones. */
  ghost predicate PickedAt(history: seq<Event>, picked: seq<Event>, places: seq<nat>, eventType: Option<string>,
                           since: Option<int>)
  {
    && |picked| == |places|
    && (forall j, k | 0 <= j < k < |places| :: places[j] < places[k])
    && (forall j | 0 <= j < |places| :: places[j] < |history| && picked[j] == history[places[j]])
    && (forall i | 0 <= i < |history| :: i in places <==> IsSelected(history[i], eventType, since))
  }

  lemma {:induction false} SelectedSnoc(history: seq<Event>, e: Event, eventType: Option<string>, since: Option<int>)
    ensures Selected(history + [e], eventType, since)
         == Selected(history, eventType, since) + (if IsSelected(e, eventType, since) then [e] else [])
  {
    hide IsSelected;
    if history == [] {
      assert [] + [e] == [e] && [e][1..] == [];
    } else {
      SelectedSnoc(history[1..], e, eventType, since);
      assert (history + [e])[1..] == history[1..] + [e];
    }
  }

  lemma KeepLast(history: seq<Event>, e: Event, picked: seq<Event>, places: seq<nat>, eventType: Option<string>,
                 since: Option<int>)
    requires PickedAt(history, picked, places, eventType, since) && IsSelected(e, eventType, since)
    ensures PickedAt(history + [e], picked + [e], places + [|history|], eventType, since)
  {
    hide IsSelected;
    var all := places + [|history|];
    assert all[|places|] == |history|;
    forall i | 0 <= i < |history| ensures i in all <==> i in places {
    }
  }

  lemma SkipLast(history: seq<Event>, e: Event, picked: seq<Event>, places: seq<nat>, eventType: Option<string>,
                 since: Option<int>)
    requires PickedAt(history, picked, places, eventType, since) && !IsSelected(e, eventType, since)
    ensures PickedAt(history + [e], picked, places, eventType, since)
  {
    hide IsSelected;
  }

  lemma {:induction false} SelectedAt(history: seq<Event>, eventType: Option<string>, since: Option<int>)
    returns (places: seq<nat>)
    ensures PickedAt(history, Selected(history, eventType, since), places, eventType, since)
  {
    places := [];
    if history != [] {
      hide IsSelected, Selected, PickedAt;
      var before, e := history[..|history| - 1], history[|history| - 1];
      assert history == before + [e];
      places := SelectedAt(before, eventType, since);
      SelectedSnoc(before, e, eventType, since);
      var picked := Selected(before, eventType, since);
      if IsSelected(e, eventType, since) {
        KeepLast(before, e, picked, places, eventType, since);
        places := places + [|before|];
      } else {
        SkipLast(before, e, picked, places, eventType, since);
        assert picked + [] == picked;
      }
    }
  }

  /** Selecting keeps the order and takes exactly the events of the type, or of every type, that are recent enough. */
  lemma SelectsExactly(history: seq<Event>, eventType: Option<string>, since: Option<int>) returns (places: seq<nat>)
    ensures forall j, k | 0 <= j < k < |places| :: places[j] < places[k]
    ensures |Selected(history, eventType, since)| == |places|
    ensures forall j | 0 <= j < |places| ::
              places[j] < |history| && Selected(history, eventType, since)[j] == history[places[j]]
    ensures forall i | 0 <= i < |history| :: i in places <==>
              && (eventType == None || eventType == Some("") || history[i].eventType == eventType.value)
              && (since == None || history[i].timestamp >= since.value)
  {
    places := SelectedAt(history, eventType, since);
    hide Selected;
  }

  lemma RetainNothing(limit: int)
    ensures Retain([], limit) == []
  {
  }

  // ---- Draining a backlog --------------------------------------------

  function Continue(cfg: Config, b: Bus, ops: seq<Operation>): Bus
    decreases |ops|
  {
    if ops == [] then b else Continue(cfg, Apply(cfg, b, ops[0]), ops[1..])
  }

  /** Everything a run adds to the queue, in order. */
  function Backlog(cfg: Config, b: Bus, ops: seq<Operation>): seq<Event>
    decreases |ops|
  {
    if ops == [] then [] else Adds(cfg, b, ops[0]) + Backlog(cfg, Apply(cfg, b, ops[0]), ops[1..])
  }

  lemma PausedStepHolds(cfg: Config, b: Bus, backlog: seq<Event>, op: Operation)
    requires b.paused && Holds(b.queue, b.sequence, backlog) && !op.Resume?
    ensures
      var b' := Apply(cfg, b, op);
      b'.paused && b'.routed == b.routed && Holds(b'.queue, b'.sequence, backlog + Adds(cfg, b, op))
  {
    hide Holds, Put, PutAll, Selected, Prune, Retain, Duplicate, Registered, Removed;
    assert backlog + [] == backlog;
    if op.Publish? {
      PutHolds(b.queue, b.sequence, backlog, op.event);
    } else if op.Replay? {
      PutAllHolds(b.queue, b.sequence, backlog, Selected(b.history, op.eventType, op.since));
    }
  }

  lemma {:induction false} PausedBusHolds(cfg: Config, b: Bus, backlog: seq<Event>, ops: seq<Operation>)
    requires b.paused && Holds(b.queue, b.sequence, backlog) && forall op | op in ops :: !op.Resume?
    ensures
      var b' := Continue(cfg, b, ops);
      b'.paused && b'.routed == b.routed && Holds(b'.queue, b'.sequence, backlog + Backlog(cfg, b, ops))
    decreases |ops|
  {
    hide Apply, Holds, Adds;
    if ops == [] {
      assert backlog + [] == backlog;
    } else {
      var b1, added := Apply(cfg, b, ops[0]), Adds(cfg, b, ops[0]);
      PausedStepHolds(cfg, b, backlog, ops[0]);
      PausedBusHolds(cfg, b1, backlog + added, ops[1..]);
      assert backlog + (added + Backlog(cfg, b1, ops[1..])) == backlog + added + Backlog(cfg, b1, ops[1..]);
    }
  }

  /** Replaying on a running bus routes the selected events at once, as their stable sort. */
  lemma ReplayRoutesSelected(cfg: Config, b: Bus, eventType: Option<string>, since: Option<int>)
    requires b.queue == [] && !b.paused
    ensures
      var b' := Apply(cfg, b, Replay(eventType, since));
      && b'.queue == [] && b'.history == b.history && b'.accepted == b.accepted && b.routed <= b'.routed
      && StablySorted(Selected(b.history, eventType, since), b'.routed[|b.routed|..])
  {
    assert EventsOf(b.queue) == [] && Holds(b.queue, b.sequence, []);
    hide RoutePending, WithPriority, Descending, Selected, PutAll;
    var events := Selected(b.history, eventType, since);
    PutAllHolds(b.queue, b.sequence, [], events);
    assert [] + events == events;
    var mid := Requeue(b, events);
    RoutingDrains(cfg, mid);
    var b' := Apply(cfg, b, Replay(eventType, since));
    assert b'.routed + EventsOf(b'.queue) == b'.routed;
    assert b'.routed == b.routed + EventsOf(mid.queue);
    assert b'.routed[|b.routed|..] == EventsOf(mid.queue);
  }

  /**
   Pausing an empty bus, adding any backlog and resuming routes exactly that backlog, each event
   once, as its stable sort by descending priority, and leaves nothing pending.
   */
  lemma ResumeRoutesStableSort(cfg: Config, b: Bus, ops: seq<Operation>)
    requires b.queue == [] && forall op | op in ops :: !op.Resume?
    ensures
      var paused := Apply(cfg, b, Pause);
      var b' := Apply(cfg, Continue(cfg, paused, ops), Resume);
      && b'.queue == []
      && b.routed <= b'.routed
      && StablySorted(Backlog(cfg, paused, ops), b'.routed[|b.routed|..])
  {
    assert EventsOf(b.queue) == [] && Holds(b.queue, b.sequence, []);
    hide RoutePending, Continue, Backlog, WithPriority, Descending;
    var paused := Apply(cfg, b, Pause);
    assert paused == b.(paused := true);
    PausedBusHolds(cfg, paused, [], ops);
    var mid := Continue(cfg, paused, ops);
    assert [] + Backlog(cfg, paused, ops) == Backlog(cfg, paused, ops);
    RoutingDrains(cfg, mid.(paused := false));
    var b' := Apply(cfg, mid, Resume);
    assert b'.routed + EventsOf(b'.queue) == b'.routed;
    assert b'.routed == b.routed + EventsOf(mid.queue);
    assert b'.routed[|b.routed|..] == EventsOf(mid.queue);
  }
}
