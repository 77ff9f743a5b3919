/**
 Deduplication over whole runs of the bus: the pruned table against the log of everything that was
 ever accepted, and against a table that is never pruned. Also the spacing of deliveries.
 */
module EventDedupe {
  import opened Clocks
  import opened Wrappers
  import opened EventQueue
  import opened EventBusModel

  /** An event with this fingerprint was accepted less than `within` seconds before `now`. */
  ghost predicate Seen(log: seq<Accepted>, fingerprint: string, now: real, within: real) {
    exists i | 0 <= i < |log| :: log[i].event.fingerprint == fingerprint && now - log[i].time < within
  }

  /** Accepted events with one fingerprint are at least `apart` seconds apart. */
  ghost predicate SpacedBy(log: seq<Accepted>, apart: real) {
    forall i, j | 0 <= i < j < |log| && log[i].event.fingerprint == log[j].event.fingerprint ::
      log[j].time - log[i].time >= apart
  }

  /** The table, at time `now` or later, knows what the log of accepted events knows. */
  ghost predicate Remembers(table: map<string, real>, log: seq<Accepted>, now: real, within: real) {
    && (forall i | 0 <= i < |log| :: log[i].time <= now)
    && (forall f | f in table :: exists i | 0 <= i < |log| :: log[i].event.fingerprint == f && log[i].time == table[f])
    && (forall i | 0 <= i < |log| && now - log[i].time < within ::
          log[i].event.fingerprint in table && table[log[i].event.fingerprint] >= log[i].time)
  }

  lemma RememberedDecision(table: map<string, real>, log: seq<Accepted>, f: string, now: real, within: real)
    requires Remembers(table, log, now, within)
    ensures Duplicate(table, f, now, within) <==> Seen(log, f, now, within)
  {
  }

  lemma RemembersLater(table: map<string, real>, log: seq<Accepted>, now: real, later: real, within: real)
    requires Remembers(table, log, now, within) && now <= later
    ensures Remembers(table, log, later, within)
  {
  }

  lemma MarkingRemembers(table: map<string, real>, log: seq<Accepted>, event: Event, now: real, within: real)
    requires Remembers(table, log, now, within)
    ensures Remembers(table[event.fingerprint := now], log + [Accepted(event, now)], now, within)
  {
    var log', full := log + [Accepted(event, now)], table[event.fingerprint := now];
    forall f | f in full
      ensures exists i | 0 <= i < |log'| :: log'[i].event.fingerprint == f && log'[i].time == full[f]
    {
      if f == event.fingerprint {
        assert log'[|log|].event.fingerprint == f;
      } else {
        var i :| 0 <= i < |log| && log[i].event.fingerprint == f && log[i].time == table[f];
        assert log'[i] == log[i];
      }
    }
  }

  lemma PruningRemembers(table: map<string, real>, log: seq<Accepted>, now: real, within: real, above: Option<nat>)
    requires Remembers(table, log, now, within)
    ensures Remembers(Prune(table, now, within, above), log, now, within)
  {
  }

  lemma AcceptingSpaces(log: seq<Accepted>, event: Event, now: real, within: real)
    requires SpacedBy(log, within) && !Seen(log, event.fingerprint, now, within)
    ensures SpacedBy(log + [Accepted(event, now)], within)
  {
  }

  lemma AcceptingRemembers(table: map<string, real>, log: seq<Accepted>, event: Event, now: real, within: real,
                           above: Option<nat>)
    requires Remembers(table, log, now, within) && !Duplicate(table, event.fingerprint, now, within)
    requires SpacedBy(log, within)
    ensures Remembers(Prune(table[event.fingerprint := now], now, within, above),
                      log + [Accepted(event, now)], now, within)
    ensures SpacedBy(log + [Accepted(event, now)], within)
  {
    hide Remembers, Seen, SpacedBy, Prune, Duplicate;
    RememberedDecision(table, log, event.fingerprint, now, within);
    AcceptingSpaces(log, event, now, within);
    MarkingRemembers(table, log, event, now, within);
    PruningRemembers(table[event.fingerprint := now], log + [Accepted(event, now)], now, within, above);
  }

  /** The state of the bus that the claims about deduplication rest on. */
  ghost predicate Deduplicates(cfg: Config, b: Bus) {
    Remembers(b.dedupe, b.accepted, cfg.clock(b.readings), cfg.dedupeSeconds) && SpacedBy(b.accepted, cfg.dedupeSeconds)
  }

  lemma ApplyDeduplicates(cfg: Config, b: Bus, op: Operation)
    requires NonDecreasing(cfg.clock) && Deduplicates(cfg, b)
    ensures Deduplicates(cfg, Apply(cfg, b, op))
  {
    hide RoutePending, Remembers, SpacedBy, Prune, Duplicate, Put, PutAll, Retain, Selected, Registered, Removed;
    var now, d := cfg.clock(b.readings), cfg.dedupeSeconds;
    var b' := Apply(cfg, b, op);
    if op.Publish? && Accepts(cfg, b, op.event) {
      var b1 := Accept(cfg, b, op.event);
      AcceptingRemembers(b.dedupe, b.accepted, op.event, now, d, cfg.pruneAbove);
      RoutingDrains(cfg, b1);
      RemembersLater(b1.dedupe, b1.accepted, now, cfg.clock(b'.readings), d);
    } else {
      if op.Replay? {
        RoutingDrains(cfg, Requeue(b, Selected(b.history, op.eventType, op.since)));
      } else if op.Resume? {
        RoutingDrains(cfg, b.(paused := false));
      }
      RemembersLater(b.dedupe, b.accepted, now, cfg.clock(b'.readings), d);
    }
  }

  lemma {:induction false} RunsDeduplicate(cfg: Config, ops: seq<Operation>)
    requires NonDecreasing(cfg.clock)
    ensures Deduplicates(cfg, After(cfg, ops))
    decreases |ops|
  {
    if ops != [] {
      RunsDeduplicate(cfg, ops[..|ops| - 1]);
      ApplyDeduplicates(cfg, After(cfg, ops[..|ops| - 1]), ops[|ops| - 1]);
    }
  }

  /**
   After any run, `publish` accepts an event exactly when no event with its fingerprint was accepted
   in the last `dedupe_seconds`, however often the table was pruned.
   */
  lemma DecisionIsExact(cfg: Config, ops: seq<Operation>, event: Event)
    requires NonDecreasing(cfg.clock)
    ensures
      var b := After(cfg, ops);
      Accepts(cfg, b, event) <==> !Seen(b.accepted, event.fingerprint, cfg.clock(b.readings), cfg.dedupeSeconds)
  {
    RunsDeduplicate(cfg, ops);
    var b := After(cfg, ops);
    RememberedDecision(b.dedupe, b.accepted, event.fingerprint, cfg.clock(b.readings), cfg.dedupeSeconds);
  }

  /**
   After any run, an event that was seen in the last `dedupe_seconds` changes nothing. Any other is accepted
   now; a running bus has routed it when `publish` returns, and a paused one keeps it and routes nothing.
   */
  lemma PublishesExactly(cfg: Config, ops: seq<Operation>, event: Event)
    requires NonDecreasing(cfg.clock)
    ensures
      var b, b' := After(cfg, ops), After(cfg, ops + [Publish(event)]);
      var now := cfg.clock(b.readings);
      var seen := exists i | 0 <= i < |b.accepted| ::
        b.accepted[i].event.fingerprint == event.fingerprint && now - b.accepted[i].time < cfg.dedupeSeconds;
      if seen then b' == b.(readings := b.readings + 1)
      else
        && b'.accepted == b.accepted + [Accepted(event, now)]
        && b'.paused == b.paused && b'.subscriptions == b.subscriptions && b'.replayed == b.replayed
        && (if b.paused then
              && b'.routed == b.routed && b'.deliveries == b.deliveries
              && multiset(EventsOf(b'.queue)) == multiset(EventsOf(b.queue)) + multiset{event}
            else b'.routed == b.routed + [event] && b'.queue == [])
  {
    assert (ops + [Publish(event)])[..|ops|] == ops;
    DecisionIsExact(cfg, ops, event);
    RunsConserve(cfg, ops);
    PublishStep(cfg, After(cfg, ops), event);
    hide Apply, Accepts, EventsOf;
  }

  lemma PublishStep(cfg: Config, b: Bus, event: Event)
    requires !b.paused ==> b.queue == []
    ensures
      var b', now := Apply(cfg, b, Publish(event)), cfg.clock(b.readings);
      if !Accepts(cfg, b, event) then b' == b.(readings := b.readings + 1)
      else
        && b'.accepted == b.accepted + [Accepted(event, now)]
        && b'.paused == b.paused && b'.subscriptions == b.subscriptions && b'.replayed == b.replayed
        && (if b.paused then
              && b'.routed == b.routed && b'.deliveries == b.deliveries
              && multiset(EventsOf(b'.queue)) == multiset(EventsOf(b.queue)) + multiset{event}
            else b'.routed == b.routed + [event] && b'.queue == [])
  {
    hide RoutePending, Accept, EventsOf, Duplicate;
    var mid := Accept(cfg, b, event);
    AcceptFacts(cfg, b, event);
    if b.paused {
      PausedRouting(cfg, mid);
    } else {
      OnlyOne(mid.queue, event);
      RoutingDrains(cfg, mid);
      assert EventsOf([]) == [];
    }
  }

  lemma AcceptFacts(cfg: Config, b: Bus, event: Event)
    ensures
      var mid := Accept(cfg, b, event);
      && mid.accepted == b.accepted + [Accepted(event, cfg.clock(b.readings))]
      && mid.paused == b.paused && mid.subscriptions == b.subscriptions && mid.replayed == b.replayed
      && mid.routed == b.routed && mid.deliveries == b.deliveries
      && multiset(EventsOf(mid.queue)) == multiset(EventsOf(b.queue)) + multiset{event}
  {
    hide EventsOf, Put, Prune, Retain;
    EventsOfPut(b.queue, Entry(event, b.sequence + 1));
  }

  lemma PausedRouting(cfg: Config, b: Bus)
    requires b.paused
    ensures RoutePending(cfg, b) == b
  {
  }

  lemma OnlyOne(queue: seq<Entry>, event: Event)
    requires multiset(EventsOf(queue)) == multiset{event} + multiset(EventsOf([]))
    ensures EventsOf(queue) == [event]
  {
    var all := EventsOf(queue);
    assert multiset(EventsOf([])) == multiset{};
    assert |all| == |multiset(all)| == 1;
    assert all[0] in multiset(all);
  }

  lemma AcceptedEventsAreSpaced(cfg: Config, ops: seq<Operation>)
    requires NonDecreasing(cfg.clock)
    ensures SpacedBy(After(cfg, ops).accepted, cfg.dedupeSeconds)
  {
    RunsDeduplicate(cfg, ops);
  }

  // ---- Pruning is invisible ------------------------------------------

  function Unpruned(cfg: Config): Config {
    cfg.(pruneAbove := None)
  }

  /** Everything but the table. */
  function Visible(b: Bus): Bus {
    b.(dedupe := map[])
  }

  lemma {:induction false} RoutingIgnoresTable(cfg: Config, b: Bus, table: map<string, real>)
    ensures RoutePending(Unpruned(cfg), b.(dedupe := table)) == RoutePending(cfg, b).(dedupe := table)
    decreases |b.queue|
  {
    hide Deliver;
    if b.queue != [] && !b.paused {
      RoutingIgnoresTable(cfg, RouteOne(cfg, b), table);
      assert RouteOne(Unpruned(cfg), b.(dedupe := table)) == RouteOne(cfg, b).(dedupe := table);
    }
  }

  lemma ApplyIgnoresPruning(cfg: Config, b: Bus, plain: Bus, op: Operation)
    requires NonDecreasing(cfg.clock) && Visible(b) == Visible(plain)
    requires Deduplicates(cfg, b) && Deduplicates(Unpruned(cfg), plain)
    ensures Visible(Apply(cfg, b, op)) == Visible(Apply(Unpruned(cfg), plain, op))
  {
    hide RoutePending, Remembers, SpacedBy, Prune, Duplicate, Put, PutAll, Retain, Selected, Registered, Removed;
    assert plain == b.(dedupe := plain.dedupe);
    if op.Publish? {
      var now := cfg.clock(b.readings);
      RememberedDecision(b.dedupe, b.accepted, op.event.fingerprint, now, cfg.dedupeSeconds);
      RememberedDecision(plain.dedupe, plain.accepted, op.event.fingerprint, now, cfg.dedupeSeconds);
      if Accepts(cfg, b, op.event) {
        var b1, p1 := Accept(cfg, b, op.event), Accept(Unpruned(cfg), plain, op.event);
        assert p1 == b1.(dedupe := p1.dedupe);
        RoutingIgnoresTable(cfg, b1, p1.dedupe);
      }
    } else if op.Replay? {
      RoutingIgnoresTable(cfg, Requeue(b, Selected(b.history, op.eventType, op.since)), plain.dedupe);
    } else if op.Resume? {
      RoutingIgnoresTable(cfg, b.(paused := false), plain.dedupe);
    }
  }

  /** A bus whose table is never pruned does the same in every run, decision by decision. */
  lemma {:induction false} PruningIsInvisible(cfg: Config, ops: seq<Operation>)
    requires NonDecreasing(cfg.clock)
    ensures Visible(After(cfg, ops)) == Visible(After(Unpruned(cfg), ops))
    ensures forall e :: Accepts(cfg, After(cfg, ops), e) <==> Accepts(Unpruned(cfg), After(Unpruned(cfg), ops), e)
    decreases |ops|
  {
    hide Apply, Deduplicates, Visible, Accepts;
    if ops != [] {
      var before := ops[..|ops| - 1];
      PruningIsInvisible(cfg, before);
      RunsDeduplicate(cfg, before);
      RunsDeduplicate(Unpruned(cfg), before);
      ApplyIgnoresPruning(cfg, After(cfg, before), After(Unpruned(cfg), before), ops[|ops| - 1]);
    }
    VisibleDecision(cfg, ops);
  }

  lemma VisibleDecision(cfg: Config, ops: seq<Operation>)
    requires NonDecreasing(cfg.clock) && Visible(After(cfg, ops)) == Visible(After(Unpruned(cfg), ops))
    ensures forall e :: Accepts(cfg, After(cfg, ops), e) <==> Accepts(Unpruned(cfg), After(Unpruned(cfg), ops), e)
  {
    hide After, Accepts;
    forall e ensures Accepts(cfg, After(cfg, ops), e) <==> Accepts(Unpruned(cfg), After(Unpruned(cfg), ops), e) {
      DecisionIsExact(cfg, ops, e);
      DecisionIsExact(Unpruned(cfg), ops, e);
    }
  }

  // ---- Debounce and throttle -----------------------------------------

  predicate SameTarget(a: Delivery, b: Delivery) {
    a.subscriberId == b.subscriberId && a.event.eventType == b.event.eventType
  }

  /** Deliveries of one event type to one subscriber are as far apart as the later one's interval asks. */
  ghost predicate DeliveriesSpaced(log: seq<Delivery>) {
    forall i, j | 0 <= i < j < |log| && SameTarget(log[i], log[j]) :: log[j].time - log[i].time >= log[j].interval
  }

  ghost predicate Tracks(last: map<(string, string), real>, log: seq<Delivery>, now: real) {
    && DeliveriesSpaced(log)
    && forall i | 0 <= i < |log| ::
         var key := (log[i].subscriberId, log[i].event.eventType);
         log[i].time <= now && key in last && last[key] >= log[i].time
  }

  lemma {:induction false} DeliverTracks(last: map<(string, string), real>, log: seq<Delivery>,
                                         subscriptions: seq<Subscription>, event: Event, now: real)
    requires Tracks(last, log, now)
    ensures
      var (last', log') := Deliver(last, log, subscriptions, event, now);
      Tracks(last', log', now)
    decreases |subscriptions|
  {
    if subscriptions != [] {
      var s := subscriptions[0];
      var key := (s.subscriberId, event.eventType);
      var previous := if key in last then last[key] else NEVER;
      if !s.matches(event) || now - previous < Interval(s) {
        DeliverTracks(last, log, subscriptions[1..], event, now);
      } else {
        var log' := log + [Delivery(s.subscriberId, event, now, Interval(s))];
        assert Tracks(last[key := now], log', now);
        DeliverTracks(last[key := now], log', subscriptions[1..], event, now);
      }
    }
  }

  lemma {:induction false} RoutingTracks(cfg: Config, b: Bus)
    requires NonDecreasing(cfg.clock) && Tracks(b.lastDelivery, b.deliveries, cfg.clock(b.readings))
    ensures
      var b' := RoutePending(cfg, b);
      Tracks(b'.lastDelivery, b'.deliveries, cfg.clock(b'.readings))
    decreases |b.queue|
  {
    hide Deliver, DeliveriesSpaced;
    if b.queue != [] && !b.paused {
      DeliverTracks(b.lastDelivery, b.deliveries, b.subscriptions, b.queue[0].event, cfg.clock(b.readings));
      RoutingTracks(cfg, RouteOne(cfg, b));
    }
  }

  /** Debounce and throttle hold over every run, whatever is subscribed, replayed or replaced on the way. */
  lemma {:induction false} RunsSpaceDeliveries(cfg: Config, ops: seq<Operation>)
    requires NonDecreasing(cfg.clock)
    ensures
      var b := After(cfg, ops);
      Tracks(b.lastDelivery, b.deliveries, cfg.clock(b.readings)) && DeliveriesSpaced(b.deliveries)
    decreases |ops|
  {
    hide RoutePending, Prune, Duplicate, Put, PutAll, Retain, Selected, Registered, Removed;
    if ops == [] {
      assert DeliveriesSpaced([]);
    } else {
      RunsSpaceDeliveries(cfg, ops[..|ops| - 1]);
      var b, op := After(cfg, ops[..|ops| - 1]), ops[|ops| - 1];
      if op.Publish? && Accepts(cfg, b, op.event) {
        RoutingTracks(cfg, Accept(cfg, b, op.event));
      } else if op.Replay? {
        RoutingTracks(cfg, Requeue(b, Selected(b.history, op.eventType, op.since)));
      } else if op.Resume? {
        RoutingTracks(cfg, b.(paused := false));
      }
    }
  }
}
