/**
 The priority queue of the event bus and what it means to drain it: the stable sort of a backlog
 by descending priority.
 */
module EventQueue {
  import opened Ordering

  /** `fingerprint` is the digest of the event's type, source, process, window and data. */
  datatype Event = Event(eventType: string, fingerprint: string, priority: int, timestamp: int, eventId: string)

  datatype Entry = Entry(event: Event, sequence: nat)

  /** The order of the queue's tuples: descending priority, then publication order. */
  predicate EntryLeq(a: Entry, b: Entry) {
    a.event.priority > b.event.priority || (a.event.priority == b.event.priority && a.sequence <= b.sequence)
  }

  function Put(queue: seq<Entry>, e: Entry): seq<Entry> {
    Insert(e, queue, EntryLeq)
  }

  /** Numbers and puts the events of a list. */
  function PutAll(queue: seq<Entry>, sequence: nat, events: seq<Event>): seq<Entry>
    decreases |events|
  {
    if events == [] then queue
    else PutAll(Put(queue, Entry(events[0], sequence + 1)), sequence + 1, events[1..])
  }

  function EventsOf(queue: seq<Entry>): (r: seq<Event>)
    ensures |r| == |queue| && forall i | 0 <= i < |r| :: r[i] == queue[i].event
  {
    seq(|queue|, i requires 0 <= i < |queue| => queue[i].event)
  }

  lemma PutSplit(queue: seq<Entry>, e: Entry) returns (k: nat)
    ensures k <= |queue| && Put(queue, e) == queue[..k] + [e] + queue[k..]
    ensures forall i | 0 <= i < k :: !EntryLeq(e, queue[i])
    ensures k < |queue| ==> EntryLeq(e, queue[k])
  {
    k := InsertSplit(e, queue, EntryLeq);
  }

  lemma EventsOfPut(queue: seq<Entry>, e: Entry)
    ensures multiset(EventsOf(Put(queue, e))) == multiset{e.event} + multiset(EventsOf(queue))
  {
    hide Put;
    var k := PutSplit(queue, e);
    var all := EventsOf(queue);
    assert EventsOf(Put(queue, e)) == all[..k] + [e.event] + all[k..];
    assert all == all[..k] + all[k..];
  }

  lemma {:induction false} EventsOfPutAll(queue: seq<Entry>, sequence: nat, events: seq<Event>)
    ensures multiset(EventsOf(PutAll(queue, sequence, events))) == multiset(EventsOf(queue)) + multiset(events)
    decreases |events|
  {
    hide Put, EventsOf;
    if events != [] {
      var e := Entry(events[0], sequence + 1);
      EventsOfPut(queue, e);
      EventsOfPutAll(Put(queue, e), sequence + 1, events[1..]);
      assert events == [events[0]] + events[1..];
    }
  }

  // ---- Stable sorting ------------------------------------------------

  function WithPriority(events: seq<Event>, p: int): seq<Event> {
    if events == [] then []
    else (if events[0].priority == p then [events[0]] else []) + WithPriority(events[1..], p)
  }

  ghost predicate Descending(events: seq<Event>) {
    forall i, j | 0 <= i < j < |events| :: events[i].priority >= events[j].priority
  }

  /** The stable sort by descending priority: highest first, and each priority in its original order. */
  ghost predicate StablySorted(original: seq<Event>, sorted: seq<Event>) {
    Descending(sorted) && forall p :: WithPriority(sorted, p) == WithPriority(original, p)
  }

  lemma WithPriorityStep(events: seq<Event>, p: int)
    requires events != []
    ensures WithPriority(events, p)
         == if events[0].priority == p then [events[0]] + WithPriority(events[1..], p) else WithPriority(events[1..], p)
  {
  }

  lemma Associates(a: seq<Event>, b: seq<Event>, c: seq<Event>)
    ensures a + (b + c) == a + b + c
  {
  }

  lemma {:induction false} WithPriorityConcat(a: seq<Event>, b: seq<Event>, p: int)
    ensures WithPriority(a + b, p) == WithPriority(a, p) + WithPriority(b, p)
  {
    if a == [] {
      assert a + b == b && [] + WithPriority(b, p) == WithPriority(b, p);
    } else {
      hide WithPriority;
      var all := a + b;
      TailOfConcat(a, b, all);
      WithPriorityConcat(a[1..], b, p);
      WithPriorityStep(all, p);
      WithPriorityStep(a, p);
      if a[0].priority == p {
        Associates([a[0]], WithPriority(a[1..], p), WithPriority(b, p));
      }
    }
  }

  lemma TailOfConcat(a: seq<Event>, b: seq<Event>, all: seq<Event>)
    requires a != [] && all == a + b
    ensures all != [] && all[0] == a[0] && all[1..] == a[1..] + b
  {
  }

  lemma {:induction false} NoneWithPriority(events: seq<Event>, p: int)
    requires forall e | e in events :: e.priority != p
    ensures WithPriority(events, p) == []
  {
    if events != [] {
      NoneWithPriority(events[1..], p);
    }
  }

  /** A stable sort is determined by its input. */
  lemma {:induction false} StableSortIsUnique(original: seq<Event>, a: seq<Event>, b: seq<Event>)
    requires StablySorted(original, a) && StablySorted(original, b)
    ensures a == b
    decreases |a|
  {
    assert forall p :: WithPriority(a, p) == WithPriority(b, p);
    SameHead(a, b);
    if a != [] {
      forall p ensures WithPriority(b[1..], p) == WithPriority(a[1..], p) {
        assert WithPriority(a, p) == WithPriority(b, p);
        TailWithPriority(a, p);
        TailWithPriority(b, p);
      }
      StableSortIsUnique(a[1..], a[1..], b[1..]);
      assert a == [a[0]] + a[1..] && b == [b[0]] + b[1..];
    }
  }

  lemma TailWithPriority(a: seq<Event>, p: int)
    requires a != []
    ensures WithPriority(a[1..], p) == if a[0].priority == p then WithPriority(a, p)[1..] else WithPriority(a, p)
  {
  }

  lemma SameHead(a: seq<Event>, b: seq<Event>)
    requires Descending(a) && Descending(b)
    requires forall p :: WithPriority(a, p) == WithPriority(b, p)
    ensures (a == []) == (b == [])
    ensures a != [] ==> a[0] == b[0]
  {
    if a != [] {
      HeadReappears(a, b);
      if b != [] {
        HeadReappears(b, a);
      }
    } else if b != [] {
      HeadReappears(b, a);
    }
  }

  lemma HeadReappears(a: seq<Event>, b: seq<Event>)
    requires a != [] && WithPriority(a, a[0].priority) == WithPriority(b, a[0].priority)
    requires Descending(b)
    ensures b != [] && b[0].priority >= a[0].priority
    ensures b[0].priority == a[0].priority ==> b[0] == a[0]
  {
    var p := a[0].priority;
    assert WithPriority(a, p)[0] == a[0];
    if b != [] && b[0].priority < p {
      assert forall e | e in b :: e.priority != p;
      NoneWithPriority(b, p);
    }
  }

  // ---- The queue holds a backlog -------------------------------------

  /** The queue is the stable sort of the events put so far, all numbered up to `sequence`. */
  ghost predicate Holds(queue: seq<Entry>, sequence: nat, backlog: seq<Event>) {
    && StablySorted(backlog, EventsOf(queue))
    && forall i | 0 <= i < |queue| :: queue[i].sequence <= sequence
  }

  lemma PlaceAfterEquals(backlog: seq<Event>, all: seq<Event>, k: nat, event: Event)
    requires StablySorted(backlog, all) && k <= |all|
    requires forall i | 0 <= i < k :: all[i].priority >= event.priority
    requires forall i | k <= i < |all| :: all[i].priority < event.priority
    ensures StablySorted(backlog + [event], all[..k] + [event] + all[k..])
  {
    forall p ensures WithPriority(all[..k] + [event] + all[k..], p) == WithPriority(backlog + [event], p) {
      assert WithPriority(all, p) == WithPriority(backlog, p);
      WithPriorityAround(all, k, event, p);
      WithPriorityConcat(backlog, [event], p);
    }
  }

  lemma WithPriorityAround(all: seq<Event>, k: nat, event: Event, p: int)
    requires k <= |all| && forall i | k <= i < |all| :: all[i].priority < event.priority
    ensures WithPriority(all[..k] + [event] + all[k..], p) == WithPriority(all, p) + WithPriority([event], p)
  {
    hide WithPriority;
    var front, back := all[..k], all[k..];
    assert all == front + back;
    WithPriorityConcat(front + [event], back, p);
    WithPriorityConcat(front, [event], p);
    WithPriorityConcat(front, back, p);
    if p == event.priority {
      NoneWithPriority(back, p);
    } else {
      NoneWithPriority([event], p);
    }
  }

  lemma PutHolds(queue: seq<Entry>, sequence: nat, backlog: seq<Event>, event: Event)
    requires Holds(queue, sequence, backlog)
    ensures Holds(Put(queue, Entry(event, sequence + 1)), sequence + 1, backlog + [event])
  {
    hide Put, WithPriority;
    var e, all := Entry(event, sequence + 1), EventsOf(queue);
    var k := PutSplit(queue, e);
    forall i | 0 <= i < k ensures all[i].priority >= event.priority {
      assert !EntryLeq(e, queue[i]);
    }
    forall i | k <= i < |all| ensures all[i].priority < event.priority {
      assert all[k].priority >= all[i].priority;
    }
    PlaceAfterEquals(backlog, all, k, event);
    assert EventsOf(Put(queue, e)) == all[..k] + [event] + all[k..];
  }

  lemma {:induction false} PutAllHolds(queue: seq<Entry>, sequence: nat, backlog: seq<Event>, events: seq<Event>)
    requires Holds(queue, sequence, backlog)
    ensures Holds(PutAll(queue, sequence, events), sequence + |events|, backlog + events)
    decreases |events|
  {
    hide Put, Holds;
    if events == [] {
      assert backlog + events == backlog;
    } else {
      PutHolds(queue, sequence, backlog, events[0]);
      PutAllHolds(Put(queue, Entry(events[0], sequence + 1)), sequence + 1, backlog + [events[0]], events[1..]);
      assert backlog + [events[0]] + events[1..] == backlog + events;
    }
  }
}
