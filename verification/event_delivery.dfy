/**
 Who receives what: every routing step read off the log of deliveries, and what a subscriber receives
 over a run.
 */
module EventDelivery {
  import opened Clocks
  import opened Wrappers
  import opened EventQueue
  import opened EventBusModel
  import opened EventDedupe

  // ---- The table of last deliveries against their log ----------------

  /** The delivery went to this subscriber and was of this event type. */
  predicate Went(d: Delivery, id: string, eventType: string) {
    d.subscriberId == id && d.event.eventType == eventType
  }

  /** The table knows the latest delivery of each type to each subscriber, and no others. */
  ghost predicate Recorded(last: map<(string, string), real>, log: seq<Delivery>, now: real) {
    && (forall i | 0 <= i < |log| ::
          var key := (log[i].subscriberId, log[i].event.eventType);
          log[i].time <= now && key in last && log[i].time <= last[key])
    && KnowsLatest(last, log)
  }

  ghost predicate KnowsLatest(last: map<(string, string), real>, log: seq<Delivery>) {
    forall key | key in last :: exists i | 0 <= i < |log| :: Went(log[i], key.0, key.1) && log[i].time == last[key]
  }

  ghost predicate DistinctIds(subscriptions: seq<Subscription>) {
    forall i, j | 0 <= i < j < |subscriptions| :: subscriptions[i].subscriberId != subscriptions[j].subscriberId
  }

  /** What every reachable bus keeps. */
  ghost predicate Delivering(cfg: Config, b: Bus) {
    Recorded(b.lastDelivery, b.deliveries, cfg.clock(b.readings)) && DistinctIds(b.subscriptions)
  }

  /**
   The subscription takes the event now: its filter matches, and the deliveries of this type that it ever
   had are as long ago as both its debounce and its throttle interval ask; before the first one the clock
   counts from a billion seconds before its origin.
   */
  ghost predicate Takes(log: seq<Delivery>, s: Subscription, event: Event, now: real) {
    && s.matches(event)
    && (forall i | 0 <= i < |log| && Went(log[i], s.subscriberId, event.eventType) ::
          now - log[i].time >= s.debounceSeconds && now - log[i].time >= s.throttleSeconds)
    && ((forall i | 0 <= i < |log| :: !Went(log[i], s.subscriberId, event.eventType)) ==>
          now + 1000000000.0 >= s.debounceSeconds && now + 1000000000.0 >= s.throttleSeconds)
  }

  /** What the table says of it. */
  predicate Due(last: map<(string, string), real>, s: Subscription, event: Event, now: real) {
    var key := (s.subscriberId, event.eventType);
    s.matches(event) && now - (if key in last then last[key] else NEVER) >= Interval(s)
  }

  lemma DueIsTakes(last: map<(string, string), real>, log: seq<Delivery>, s: Subscription, event: Event, now: real)
    requires Recorded(last, log, now)
    ensures Due(last, s, event, now) <==> Takes(log, s, event, now)
  {
    var key := (s.subscriberId, event.eventType);
    if key in last {
      var i :| 0 <= i < |log| && Went(log[i], key.0, key.1) && log[i].time == last[key];
      assert forall j | 0 <= j < |log| && Went(log[j], key.0, key.1) :: log[j].time <= last[key];
      hide Recorded;
      DueAfterLatest(last, log, s, event, now, i);
    } else {
      assert forall j | 0 <= j < |log| :: !Went(log[j], key.0, key.1);
      hide Recorded;
    }
  }

  lemma DueAfterLatest(last: map<(string, string), real>, log: seq<Delivery>, s: Subscription, event: Event, now: real,
                       i: nat)
    requires i < |log| && Went(log[i], s.subscriberId, event.eventType)
    requires (s.subscriberId, event.eventType) in last && last[(s.subscriberId, event.eventType)] == log[i].time
    requires forall j | 0 <= j < |log| && Went(log[j], s.subscriberId, event.eventType) :: log[j].time <= log[i].time
    ensures Due(last, s, event, now) <==> Takes(log, s, event, now)
  {
    hide Went;
    assert !(forall j | 0 <= j < |log| :: !Went(log[j], s.subscriberId, event.eventType));
  }

  // ---- One event -----------------------------------------------------

  /** `places` lists, in order, the subscriptions from `from` on that take the event. */
  ghost predicate Chosen(log: seq<Delivery>, subscriptions: seq<Subscription>, from: nat, event: Event, now: real,
                         places: seq<nat>)
  {
    && (forall j | 0 <= j < |places| :: from <= places[j] < |subscriptions|)
    && (forall j, k | 0 <= j < k < |places| :: places[j] < places[k])
    && (forall i | from <= i < |subscriptions| :: i in places <==> Takes(log, subscriptions[i], event, now))
  }

  /** One delivery of the event for each of the places. */
  ghost predicate DeliveredAt(added: seq<Delivery>, subscriptions: seq<Subscription>, event: Event, now: real,
                              places: seq<nat>)
  {
    && |added| == |places|
    && forall j | 0 <= j < |places| ::
         && places[j] < |subscriptions|
         && added[j].subscriberId == subscriptions[places[j]].subscriberId
         && added[j].event == event && added[j].time == now
  }

  /** What was taken before does not change what later subscriptions take. */
  lemma OthersTakeAlike(log: seq<Delivery>, d: Delivery, s: Subscription, event: Event, now: real)
    requires d.subscriberId != s.subscriberId
    ensures Takes(log + [d], s, event, now) <==> Takes(log, s, event, now)
  {
    var all := log + [d];
    assert forall i | 0 <= i < |log| :: all[i] == log[i];
    assert !Went(all[|log|], s.subscriberId, event.eventType);
    if Takes(all, s, event, now) {
      if forall i | 0 <= i < |log| :: !Went(log[i], s.subscriberId, event.eventType) {
        assert forall i | 0 <= i < |all| :: !Went(all[i], s.subscriberId, event.eventType);
      }
    }
    if Takes(log, s, event, now) {
      assert forall i | 0 <= i < |all| && Went(all[i], s.subscriberId, event.eventType) :: all[i] == log[i];
    }
  }

  lemma RecordsDelivery(last: map<(string, string), real>, log: seq<Delivery>, d: Delivery, now: real)
    requires Recorded(last, log, now) && d.time == now
    ensures Recorded(last[(d.subscriberId, d.event.eventType) := now], log + [d], now)
  {
    var all, last' := log + [d], last[(d.subscriberId, d.event.eventType) := now];
    assert forall i | 0 <= i < |log| :: all[i] == log[i];
    forall key | key in last'
      ensures exists i | 0 <= i < |all| :: Went(all[i], key.0, key.1) && all[i].time == last'[key]
    {
      if key == (d.subscriberId, d.event.eventType) {
        assert Went(all[|log|], key.0, key.1);
      } else {
        var i :| 0 <= i < |log| && Went(log[i], key.0, key.1) && log[i].time == last[key];
        assert Went(all[i], key.0, key.1);
      }
    }
  }

  lemma RecordedLater(last: map<(string, string), real>, log: seq<Delivery>, now: real, later: real)
    requires Recorded(last, log, now) && now <= later
    ensures Recorded(last, log, later)
  {
    hide KnowsLatest;
  }

  /** The call adds these deliveries to the log, and the table keeps up. */
  ghost predicate Delivers(last: map<(string, string), real>, log: seq<Delivery>, subscriptions: seq<Subscription>,
                           from: nat, event: Event, now: real, added: seq<Delivery>)
  {
    && from <= |subscriptions|
    && var (last', log') := Deliver(last, log, subscriptions[from..], event, now);
    && log' == log + added && Recorded(last', log', now)
  }

  lemma {:induction false} DeliverChooses(last: map<(string, string), real>, log: seq<Delivery>,
                                          subscriptions: seq<Subscription>, from: nat, event: Event, now: real)
    returns (places: seq<nat>, added: seq<Delivery>)
    requires from <= |subscriptions| && DistinctIds(subscriptions) && Recorded(last, log, now)
    ensures Chosen(log, subscriptions, from, event, now, places)
    ensures DeliveredAt(added, subscriptions, event, now, places)
    ensures Delivers(last, log, subscriptions, from, event, now, added)
    decreases |subscriptions| - from
  {
    if from == |subscriptions| {
      places, added := [], [];
      assert log + [] == log;
    } else {
      var s := subscriptions[from];
      DueIsTakes(last, log, s, event, now);
      hide Deliver, Delivers, Takes, Due, Recorded, Chosen, DeliveredAt;
      if Due(last, s, event, now) {
        var d := Delivery(s.subscriberId, event, now, Interval(s));
        RecordsDelivery(last, log, d, now);
        var last' := last[(s.subscriberId, event.eventType) := now];
        var later, others := DeliverChooses(last', log + [d], subscriptions, from + 1, event, now);
        places, added := [from] + later, [d] + others;
        TakerAdded(log, d, subscriptions, from, event, now, later);
        DeliveryAdded(others, d, subscriptions, from, event, now, later);
        TakerStep(last, log, subscriptions, from, event, now, others);
      } else {
        places, added := DeliverChooses(last, log, subscriptions, from + 1, event, now);
        OtherSkipped(log, subscriptions, from, event, now, places);
        SkipStep(last, log, subscriptions, from, event, now, added);
      }
    }
  }

  lemma TakerStep(last: map<(string, string), real>, log: seq<Delivery>, subscriptions: seq<Subscription>, from: nat,
                  event: Event, now: real, others: seq<Delivery>)
    requires from < |subscriptions| && Due(last, subscriptions[from], event, now)
    requires
      var s := subscriptions[from];
      var d := Delivery(s.subscriberId, event, now, Interval(s));
      Delivers(last[(s.subscriberId, event.eventType) := now], log + [d], subscriptions, from + 1, event, now, others)
    ensures
      var s := subscriptions[from];
      Delivers(last, log, subscriptions, from, event, now, [Delivery(s.subscriberId, event, now, Interval(s))] + others)
  {
    hide Recorded;
    var s := subscriptions[from];
    var d := Delivery(s.subscriberId, event, now, Interval(s));
    assert subscriptions[from..][0] == s && subscriptions[from..][1..] == subscriptions[from + 1..];
    assert log + [d] + others == log + ([d] + others);
  }

  lemma SkipStep(last: map<(string, string), real>, log: seq<Delivery>, subscriptions: seq<Subscription>, from: nat,
                 event: Event, now: real, added: seq<Delivery>)
    requires from < |subscriptions| && !Due(last, subscriptions[from], event, now)
    requires Delivers(last, log, subscriptions, from + 1, event, now, added)
    ensures Delivers(last, log, subscriptions, from, event, now, added)
  {
    hide Recorded;
    assert subscriptions[from..][0] == subscriptions[from] && subscriptions[from..][1..] == subscriptions[from + 1..];
  }

  lemma OtherSkipped(log: seq<Delivery>, subscriptions: seq<Subscription>, from: nat, event: Event, now: real,
                     places: seq<nat>)
    requires from < |subscriptions| && !Takes(log, subscriptions[from], event, now)
    requires Chosen(log, subscriptions, from + 1, event, now, places)
    ensures Chosen(log, subscriptions, from, event, now, places)
  {
    hide Takes;
  }

  lemma DeliveryAdded(others: seq<Delivery>, d: Delivery, subscriptions: seq<Subscription>, from: nat, event: Event,
                      now: real, later: seq<nat>)
    requires from < |subscriptions| && d.subscriberId == subscriptions[from].subscriberId
    requires d.event == event && d.time == now && DeliveredAt(others, subscriptions, event, now, later)
    ensures DeliveredAt([d] + others, subscriptions, event, now, [from] + later)
  {
  }

  lemma TakerAdded(log: seq<Delivery>, d: Delivery, subscriptions: seq<Subscription>, from: nat, event: Event,
                   now: real, later: seq<nat>)
    requires from < |subscriptions| && DistinctIds(subscriptions)
    requires d.subscriberId == subscriptions[from].subscriberId && Takes(log, subscriptions[from], event, now)
    requires Chosen(log + [d], subscriptions, from + 1, event, now, later)
    ensures Chosen(log, subscriptions, from, event, now, [from] + later)
  {
    hide Takes;
    var places := [from] + later;
    forall i | from <= i < |subscriptions| ensures i in places <==> Takes(log, subscriptions[i], event, now) {
      if i == from {
        assert places[0] == from;
      } else {
        assert i in places <==> i in later;
        OthersTakeAlike(log, d, subscriptions[i], event, now);
      }
    }
  }

  /**
   Routing an event appends to the log of deliveries, in subscription order, one delivery of it for exactly
   the subscriptions that take it.
   */
  lemma RoutingDelivers(cfg: Config, b: Bus) returns (places: seq<nat>, added: seq<Delivery>)
    requires Delivering(cfg, b) && b.queue != [] && NonDecreasing(cfg.clock)
    ensures
      var event, now := b.queue[0].event, cfg.clock(b.readings);
      && Chosen(b.deliveries, b.subscriptions, 0, event, now, places)
      && DeliveredAt(added, b.subscriptions, event, now, places)
      && RouteOne(cfg, b).deliveries == b.deliveries + added
      && RouteOne(cfg, b).routed == b.routed + [event]
    ensures Delivering(cfg, RouteOne(cfg, b))
  {
    hide Deliver, Chosen, DeliveredAt, Recorded;
    assert b.subscriptions[0..] == b.subscriptions;
    var now := cfg.clock(b.readings);
    places, added := DeliverChooses(b.lastDelivery, b.deliveries, b.subscriptions, 0, b.queue[0].event, now);
    var b' := RouteOne(cfg, b);
    RecordedLater(b'.lastDelivery, b'.deliveries, now, cfg.clock(b'.readings));
  }

  // ---- Every reachable bus is of this kind ---------------------------

  lemma {:induction false} RegisteredIds(subscriptions: seq<Subscription>, s: Subscription)
    requires DistinctIds(subscriptions)
    ensures DistinctIds(Registered(subscriptions, s))
    ensures forall x | x in Registered(subscriptions, s) ::
              x == s || (x in subscriptions && x.subscriberId != s.subscriberId)
    ensures forall x | x in subscriptions && x.subscriberId != s.subscriberId :: x in Registered(subscriptions, s)
    ensures s in Registered(subscriptions, s)
  {
    if subscriptions != [] {
      var rest := subscriptions[1..];
      assert subscriptions == [subscriptions[0]] + rest;
      if subscriptions[0].subscriberId != s.subscriberId {
        RegisteredIds(rest, s);
        FirstIsDistinct(subscriptions[0], Registered(rest, s));
      } else {
        FirstIsDistinct(s, rest);
      }
    }
  }

  lemma FirstIsDistinct(s: Subscription, rest: seq<Subscription>)
    requires DistinctIds(rest) && forall x | x in rest :: x.subscriberId != s.subscriberId
    ensures DistinctIds([s] + rest)
  {
  }

  lemma {:induction false} RemovedIds(subscriptions: seq<Subscription>, id: string)
    requires DistinctIds(subscriptions)
    ensures DistinctIds(Removed(subscriptions, id))
    ensures forall x :: x in Removed(subscriptions, id) <==> x in subscriptions && x.subscriberId != id
  {
    if subscriptions != [] {
      var rest := subscriptions[1..];
      assert subscriptions == [subscriptions[0]] + rest;
      if subscriptions[0].subscriberId != id {
        RemovedIds(rest, id);
        FirstIsDistinct(subscriptions[0], Removed(rest, id));
      }
    }
  }

  lemma {:induction false} RoutingStaysDelivering(cfg: Config, b: Bus)
    requires Delivering(cfg, b) && NonDecreasing(cfg.clock)
    ensures Delivering(cfg, RoutePending(cfg, b))
    decreases |b.queue|
  {
    hide Delivering, Deliver;
    if b.queue != [] && !b.paused {
      var places, added := RoutingDelivers(cfg, b);
      RoutingStaysDelivering(cfg, RouteOne(cfg, b));
    }
  }

  lemma ApplyStaysDelivering(cfg: Config, b: Bus, op: Operation)
    requires Delivering(cfg, b) && NonDecreasing(cfg.clock)
    ensures Delivering(cfg, Apply(cfg, b, op))
  {
    hide RoutePending, Recorded, DistinctIds, Prune, Duplicate, Put, PutAll, Retain, Selected, Registered, Removed;
    match op
    case Publish(event) =>
      RecordedLater(b.lastDelivery, b.deliveries, cfg.clock(b.readings), cfg.clock(b.readings + 1));
      if Accepts(cfg, b, event) {
        RoutingStaysDelivering(cfg, Accept(cfg, b, event));
      }
    case Replay(eventType, since) => RoutingStaysDelivering(cfg, Requeue(b, Selected(b.history, eventType, since)));
    case Pause =>
    case Resume => RoutingStaysDelivering(cfg, b.(paused := false));
    case Subscribe(s) => RegisteredIds(b.subscriptions, s);
    case Unsubscribe(id) => RemovedIds(b.subscriptions, id);
  }

  /** So `RoutingDelivers` speaks of every routing step of every run. */
  lemma {:induction false} RunsStayDelivering(cfg: Config, ops: seq<Operation>)
    requires NonDecreasing(cfg.clock)
    ensures Delivering(cfg, After(cfg, ops))
    decreases |ops|
  {
    hide Apply, Delivering;
    if ops == [] {
      assert Delivering(cfg, INITIAL) by {
        NothingRecorded(cfg);
      }
    } else {
      RunsStayDelivering(cfg, ops[..|ops| - 1]);
      ApplyStaysDelivering(cfg, After(cfg, ops[..|ops| - 1]), ops[|ops| - 1]);
    }
  }

  lemma NothingRecorded(cfg: Config)
    ensures Delivering(cfg, INITIAL)
  {
  }

  // ---- A subscriber without intervals --------------------------------

  /** The events that a subscriber received, in order. */
  function Received(log: seq<Delivery>, id: string): seq<Event> {
    if log == [] then []
    else
      Received(log[..|log| - 1], id)
      + (if log[|log| - 1].subscriberId == id then [log[|log| - 1].event] else [])
  }

  function Matching(events: seq<Event>, matches: Event -> bool): seq<Event> {
    if events == [] then []
    else
      Matching(events[..|events| - 1], matches)
      + (if matches(events[|events| - 1]) then [events[|events| - 1]] else [])
  }

  lemma {:induction false} ReceivedConcat(a: seq<Delivery>, b: seq<Delivery>, id: string)
    ensures Received(a + b, id) == Received(a, id) + Received(b, id)
  {
    if b == [] {
      assert a + b == a;
    } else {
      var front, last := b[..|b| - 1], b[|b| - 1];
      ReceivedConcat(a, front, id);
      assert (a + b)[..|a + b| - 1] == a + front && (a + b)[|a + b| - 1] == last;
    }
  }

  lemma {:induction false} ReceivedOnce(added: seq<Delivery>, id: string, place: nat, event: Event)
    requires forall j | 0 <= j < |added| :: added[j].subscriberId == id <==> j == place
    requires place < |added| ==> added[place].event == event
    ensures Received(added, id) == if place < |added| then [event] else []
  {
    if added != [] {
      ReceivedOnce(added[..|added| - 1], id, if place < |added| - 1 then place else |added|, event);
    }
  }

  /** The subscription asks for no interval between deliveries. */
  predicate Unthrottled(s: Subscription) {
    s.debounceSeconds <= 0.0 && s.throttleSeconds <= 0.0
  }

  lemma OneReceives(cfg: Config, b: Bus, s: Subscription)
    requires Delivering(cfg, b) && b.queue != [] && NonDecreasing(cfg.clock) && cfg.clock(0) >= -1000000000.0
    requires s in b.subscriptions && Unthrottled(s)
    ensures
      var event, b' := b.queue[0].event, RouteOne(cfg, b);
      && Delivering(cfg, b')
      && Received(b'.deliveries, s.subscriberId)
         == Received(b.deliveries, s.subscriberId) + (if s.matches(event) then [event] else [])
  {
    var event, now := b.queue[0].event, cfg.clock(b.readings);
    var places, added := RoutingDelivers(cfg, b);
    hide RouteOne, Matching;
    var i :| 0 <= i < |b.subscriptions| && b.subscriptions[i] == s;
    assert Takes(b.deliveries, s, event, now) <==> s.matches(event);
    hide Takes;
    assert i in places <==> s.matches(event);
    var j := |places|;
    if i in places {
      j :| 0 <= j < |places| && places[j] == i;
    }
    forall k | 0 <= k < |added| ensures added[k].subscriberId == s.subscriberId <==> k == j {
      assert places[k] != i ==> b.subscriptions[places[k]].subscriberId != s.subscriberId;
    }
    ReceivedOnce(added, s.subscriberId, j, event);
    ReceivedConcat(b.deliveries, added, s.subscriberId);
  }

  lemma MatchingAppend(events: seq<Event>, event: Event, matches: Event -> bool)
    ensures Matching(events + [event], matches) == Matching(events, matches) + (if matches(event) then [event] else [])
  {
    assert (events + [event])[..|events|] == events;
  }

  /** The subscriber received exactly what was routed since `start` and matches its filter, in routing order. */
  ghost predicate ReceivesAll(start: Bus, b: Bus, s: Subscription) {
    && |start.routed| <= |b.routed| && b.routed[..|start.routed|] == start.routed
    && Received(b.deliveries, s.subscriberId)
       == Received(start.deliveries, s.subscriberId) + Matching(b.routed[|start.routed|..], s.matches)
  }

  lemma {:induction false} RoutingReceives(cfg: Config, start: Bus, b: Bus, s: Subscription)
    requires Delivering(cfg, b) && NonDecreasing(cfg.clock) && cfg.clock(0) >= -1000000000.0
    requires s in b.subscriptions && Unthrottled(s) && ReceivesAll(start, b, s)
    ensures ReceivesAll(start, RoutePending(cfg, b), s) && s in RoutePending(cfg, b).subscriptions
    decreases |b.queue|
  {
    hide Delivering, Deliver, Unthrottled, Received, Matching;
    if b.queue != [] && !b.paused {
      OneReceives(cfg, b, s);
      var b' := RouteOne(cfg, b);
      var event := b.queue[0].event;
      MatchingAppend(b.routed[|start.routed|..], event, s.matches);
      assert b'.routed[|start.routed|..] == b.routed[|start.routed|..] + [event];
      assert b'.routed[..|start.routed|] == b.routed[..|start.routed|];
      RoutingReceives(cfg, start, b', s);
    }
  }

  lemma ApplyReceives(cfg: Config, start: Bus, b: Bus, op: Operation, s: Subscription)
    requires Delivering(cfg, b) && NonDecreasing(cfg.clock) && cfg.clock(0) >= -1000000000.0
    requires s in b.subscriptions && Unthrottled(s) && ReceivesAll(start, b, s) && KeepsSubscription(op, s)
    ensures ReceivesAll(start, Apply(cfg, b, op), s) && s in Apply(cfg, b, op).subscriptions
  {
    hide RoutePending, Recorded, DistinctIds, Unthrottled, Prune, Duplicate, Put, PutAll, Retain, Selected, Registered,
      Removed, Received, Matching;
    match op
    case Publish(event) =>
      RecordedLater(b.lastDelivery, b.deliveries, cfg.clock(b.readings), cfg.clock(b.readings + 1));
      if Accepts(cfg, b, event) {
        RoutingReceives(cfg, start, Accept(cfg, b, event), s);
      }
    case Replay(eventType, since) =>
      RoutingReceives(cfg, start, Requeue(b, Selected(b.history, eventType, since)), s);
    case Pause =>
    case Resume => RoutingReceives(cfg, start, b.(paused := false), s);
    case Subscribe(other) => RegisteredIds(b.subscriptions, other);
    case Unsubscribe(id) => RemovedIds(b.subscriptions, id);
  }

  /** The operation neither replaces nor removes the subscription. */
  ghost predicate KeepsSubscription(op: Operation, s: Subscription) {
    && (op.Subscribe? ==> op.subscription.subscriberId != s.subscriberId || op.subscription == s)
    && (op.Unsubscribe? ==> op.id != s.subscriberId)
  }

  /**
   From the moment it is subscribed, and as long as it is neither replaced nor removed, a subscriber without
   intervals receives exactly the events that are routed and match its filter, in routing order.
   */
  lemma {:induction false} UnthrottledReceivesAll(cfg: Config, before: seq<Operation>, ops: seq<Operation>,
                                                  s: Subscription)
    requires NonDecreasing(cfg.clock) && cfg.clock(0) >= -1000000000.0
    requires s in After(cfg, before).subscriptions && Unthrottled(s)
    requires forall op | op in ops :: KeepsSubscription(op, s)
    ensures
      var b := After(cfg, before + ops);
      ReceivesAll(After(cfg, before), b, s) && s in b.subscriptions
    decreases |ops|
  {
    hide Apply, Delivering, Unthrottled, Received, KeepsSubscription;
    var start := After(cfg, before);
    if ops == [] {
      assert before + [] == before;
      assert start.routed[|start.routed|..] == [] && Matching([], s.matches) == [];
    } else {
      hide Matching;
      var front, last := ops[..|ops| - 1], ops[|ops| - 1];
      UnthrottledReceivesAll(cfg, before, front, s);
      RunsStayDelivering(cfg, before + front);
      var all := before + ops;
      assert all[..|all| - 1] == before + front && all[|all| - 1] == last;
      ApplyReceives(cfg, start, After(cfg, before + front), last, s);
    }
  }
}
