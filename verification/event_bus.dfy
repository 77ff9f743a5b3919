/** `EventHistory` and `EventBus`, proved against `EventBusModel`. */
module EventBus {
  import opened Clocks
  import opened Wrappers
  import opened EventQueue
  import opened EventBusModel

  class EventHistory {
    const limit: int
    var events: seq<Event>

    constructor (limit: int)
      ensures this.limit == limit && events == []
    {
      this.limit := limit;
      events := [];
    }

    /** A bounded deque: a full one loses its first event. */
    method Append(event: Event)
      requires |events| <= if limit < 1 then 1 else limit
      modifies this
      ensures events == Retain(old(events) + [event], limit)
      ensures |events| <= if limit < 1 then 1 else limit
    {
      events := events + [event];
      if |events| > (if limit < 1 then 1 else limit) {
        events := events[1..];
      }
    }

    method Replay(eventType: Option<string>, since: Option<int>) returns (r: seq<Event>)
      ensures r == Selected(events, eventType, since)
    {
      r := [];
      assert events[0..] == events && Selected([], eventType, since) == [];
      hide IsSelected, Selected;
      var i := 0;
      while i < |events|
        invariant i <= |events|
        invariant r + Selected(events[i..], eventType, since) == Selected(events, eventType, since)
      {
        SelectedStep(r, events, i, eventType, since);
        if IsSelected(events[i], eventType, since) {
          r := r + [events[i]];
        }
        i := i + 1;
      }
    }
  }

  class EventBus {
    const dedupeSeconds: real
    const clock: Clock
    const history: EventHistory
    var dedupe: map<string, real>
    var queue: seq<Entry>
    var sequence: nat
    var paused: bool
    var subscriptions: seq<Subscription>
    var lastDelivery: map<(string, string), real>
    var readings: nat
    ghost var accepted: seq<Accepted>
    ghost var replayed: seq<Event>
    ghost var routed: seq<Event>
    ghost var deliveries: seq<Delivery>

    constructor (dedupeSeconds: real, history: EventHistory, clock: Clock)
      requires history.events == []
      ensures Valid() && Value() == INITIAL && this.history == history
      ensures this.dedupeSeconds == dedupeSeconds && this.clock == clock
    {
      this.dedupeSeconds, this.history, this.clock := dedupeSeconds, history, clock;
      dedupe, queue, sequence, paused, subscriptions, lastDelivery, readings := map[], [], 0, false, [], map[], 0;
      accepted, replayed, routed, deliveries := [], [], [], [];
    }

    ghost function Settings(): Config {
      Config(dedupeSeconds, history.limit, clock, Some(DEDUPE_CAPACITY))
    }

    ghost predicate Valid()
      reads history
    {
      |history.events| <= if history.limit < 1 then 1 else history.limit
    }

    ghost function Value(): Bus
      reads this, history
    {
      Bus(dedupe, queue, sequence, paused, history.events, subscriptions, lastDelivery, readings,
          accepted, replayed, routed, deliveries)
    }

    /** One reading of the clock. */
    method Monotonic() returns (now: real)
      modifies this`readings
      ensures now == clock(old(readings)) && readings == old(readings) + 1
    {
      now := clock(readings);
      readings := readings + 1;
    }

    method Remember(fingerprint: string, now: real)
      modifies this`dedupe
      ensures dedupe == Prune(old(dedupe)[fingerprint := now], now, dedupeSeconds, Some(DEDUPE_CAPACITY))
    {
      dedupe := dedupe[fingerprint := now];
      if |dedupe| > DEDUPE_CAPACITY {
        dedupe := map f | f in dedupe && now - dedupe[f] < dedupeSeconds :: dedupe[f];
      }
    }

    method Enqueue(event: Event, now: real)
      requires Valid()
      modifies this, history
      ensures Valid() && Value() == old(Admit(Settings(), Value(), event, now))
    {
      hide Put, Prune, Retain;
      Remember(event.fingerprint, now);
      history.Append(event);
      sequence := sequence + 1;
      queue := Put(queue, Entry(event, sequence));
      accepted := accepted + [Accepted(event, now)];
    }

    method Publish(event: Event) returns (ok: bool)
      requires Valid()
      modifies this, history
      ensures Valid()
      ensures ok == old(Accepts(Settings(), Value(), event))
      ensures Value() == old(Apply(Settings(), Value(), Operation.Publish(event)))
    {
      hide RoutePending, Admit;
      ghost var cfg := Settings();
      var now := Monotonic();
      if Duplicate(dedupe, event.fingerprint, now, dedupeSeconds) {
        return false;
      }
      Enqueue(event, now);
      PausedBusRoutesNothing(cfg, Value());
      if !paused {
        RouteAll();
      }
      ok := true;
    }

    lemma PausedBusRoutesNothing(cfg: Config, b: Bus)
      ensures b.paused ==> RoutePending(cfg, b) == b
    {
    }

    /** `route_pending`. */
    method RouteAll()
      modifies this
      ensures Value() == old(RoutePending(Settings(), Value()))
    {
      hide Deliver;
      while queue != [] && !paused
        invariant RoutePending(Settings(), Value()) == old(RoutePending(Settings(), Value()))
        decreases |queue|
      {
        RouteNext();
      }
    }

    method RouteNext()
      requires queue != []
      modifies this
      ensures Value() == old(RouteOne(Settings(), Value()))
    {
      hide Deliver;
      var event := queue[0].event;
      queue := queue[1..];
      var now := Monotonic();
      routed := routed + [event];
      DeliverTo(event, now);
    }

    /** One handler call for each subscription that matches and is not debounced or throttled. */
    method DeliverTo(event: Event, now: real)
      modifies this`lastDelivery, this`deliveries
      ensures (lastDelivery, deliveries) == Deliver(old(lastDelivery), old(deliveries), subscriptions, event, now)
    {
      var i := 0;
      while i < |subscriptions|
        invariant i <= |subscriptions|
        invariant Deliver(lastDelivery, deliveries, subscriptions[i..], event, now)
               == Deliver(old(lastDelivery), old(deliveries), subscriptions, event, now)
      {
        var s := subscriptions[i];
        assert subscriptions[i..][0] == s && subscriptions[i..][1..] == subscriptions[i + 1..];
        var key := (s.subscriberId, event.eventType);
        var previous := if key in lastDelivery then lastDelivery[key] else NEVER;
        if s.matches(event) && now - previous >= Interval(s) {
          lastDelivery := lastDelivery[key := now];
          deliveries := deliveries + [Delivery(s.subscriberId, event, now, Interval(s))];
        }
        i := i + 1;
      }
    }

    method Replay(eventType: Option<string>, since: Option<int>) returns (count: nat)
      modifies this
      ensures count == |old(Selected(history.events, eventType, since))|
      ensures Value() == old(Apply(Settings(), Value(), Operation.Replay(eventType, since)))
    {
      hide RoutePending, Put, Selected, Retain, Prune;
      ghost var before := Value();
      var events := history.Replay(eventType, since);
      var i := 0;
      while i < |events|
        invariant i <= |events| && sequence == before.sequence + i
        invariant PutAll(queue, sequence, events[i..]) == PutAll(before.queue, before.sequence, events)
        invariant Value() == before.(queue := queue, sequence := sequence)
      {
        assert events[i..][0] == events[i] && events[i..][1..] == events[i + 1..];
        sequence := sequence + 1;
        queue := Put(queue, Entry(events[i], sequence));
        i := i + 1;
      }
      replayed := replayed + events;
      assert Value() == Requeue(before, events);
      RouteAll();
      count := |events|;
    }

    method Pause()
      modifies this
      ensures Value() == old(Apply(Settings(), Value(), Operation.Pause))
    {
      paused := true;
    }

    method Resume()
      modifies this
      ensures Value() == old(Apply(Settings(), Value(), Operation.Resume))
    {
      hide RoutePending;
      paused := false;
      RouteAll();
    }

    /** Where the subscription of `id` stands; the number of subscriptions when there is none. */
    method PlaceOf(id: string) returns (i: nat)
      ensures IsPlaceOf(subscriptions, id, i)
    {
      i := 0;
      while i < |subscriptions| && subscriptions[i].subscriberId != id
        invariant i <= |subscriptions| && forall k | 0 <= k < i :: subscriptions[k].subscriberId != id
      {
        i := i + 1;
      }
    }

    /** An id that is already there keeps its place. */
    method Subscribe(s: Subscription)
      modifies this
      ensures Value() == old(Apply(Settings(), Value(), Operation.Subscribe(s)))
    {
      hide Registered;
      var i := PlaceOf(s.subscriberId);
      RegisteredAtPlace(subscriptions, s, i);
      subscriptions := if i < |subscriptions| then subscriptions[i := s] else subscriptions + [s];
    }

    method Unsubscribe(id: string)
      modifies this
      ensures Value() == old(Apply(Settings(), Value(), Operation.Unsubscribe(id)))
    {
      hide Removed;
      var i := PlaceOf(id);
      RemovedAtPlace(subscriptions, id, i);
      if i < |subscriptions| {
        subscriptions := subscriptions[..i] + subscriptions[i + 1..];
      }
    }
  }

  predicate IsPlaceOf(subscriptions: seq<Subscription>, id: string, i: nat) {
    && i <= |subscriptions| && (forall k | 0 <= k < i :: subscriptions[k].subscriberId != id)
    && (i < |subscriptions| ==> subscriptions[i].subscriberId == id)
  }

  lemma {:induction false} RegisteredAtPlace(subscriptions: seq<Subscription>, s: Subscription, i: nat)
    requires IsPlaceOf(subscriptions, s.subscriberId, i)
    ensures Registered(subscriptions, s) ==
            if i < |subscriptions| then subscriptions[i := s] else subscriptions + [s]
  {
    if i > 0 {
      RegisteredAtPlace(subscriptions[1..], s, i - 1);
      assert subscriptions == [subscriptions[0]] + subscriptions[1..];
    }
  }

  lemma {:induction false} RemovedAtPlace(subscriptions: seq<Subscription>, id: string, i: nat)
    requires IsPlaceOf(subscriptions, id, i)
    ensures Removed(subscriptions, id) ==
            if i < |subscriptions| then subscriptions[..i] + subscriptions[i + 1..] else subscriptions
  {
    if i > 0 {
      var rest := subscriptions[1..];
      RemovedAtPlace(rest, id, i - 1);
      assert subscriptions == [subscriptions[0]] + rest;
      if i < |subscriptions| {
        assert subscriptions[..i] == [subscriptions[0]] + rest[..i - 1] && subscriptions[i + 1..] == rest[i..];
      }
    }
  }

  lemma SelectedStep(found: seq<Event>, events: seq<Event>, i: nat, eventType: Option<string>, since: Option<int>)
    requires i < |events|
    ensures found + Selected(events[i..], eventType, since) ==
            (if IsSelected(events[i], eventType, since) then found + [events[i]] else found)
            + Selected(events[i + 1..], eventType, since)
  {
    hide IsSelected;
    assert events[i..][0] == events[i] && events[i..][1..] == events[i + 1..];
  }
}
