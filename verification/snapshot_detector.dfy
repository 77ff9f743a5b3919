/**
 `SnapshotDetector.poll`: the changes it finds can be replayed forwards and backwards, and its events
 flatten each change into one dictionary, from which the change can be read back only for some readers.
 */
module SnapshotDetector {
  import opened Wrappers

  /** What readers report; `Number` stands for every plain object that is not text. */
  datatype Value = Text(text: string) | Number(number: int) | Fields(entries: map<string, Value>)

  type Key = Value
  type Items = map<Key, Value>

  datatype Change =
    | Created(key: Key, value: Value)
    | Changed(key: Key, value: Value, previous: Value)
    | Removed(key: Key, value: Value)

  /** A dictionary with its keys in insertion order. */
  datatype Snapshot = Snapshot(keys: seq<Key>, items: Items)

  ghost predicate WellFormed(s: Snapshot) {
    && (forall i | 0 <= i < |s.keys| :: s.keys[i] in s.items)
    && (forall k | k in s.items :: k in s.keys)
    && forall i, j | 0 <= i < j < |s.keys| :: s.keys[i] != s.keys[j]
  }

  function Additions(previous: Items, current: Items, keys: seq<Key>): seq<Change>
    requires forall i | 0 <= i < |keys| :: keys[i] in current
    decreases |keys|
  {
    if keys == [] then [] else Addition(previous, current, keys[0]) + Additions(previous, current, keys[1..])
  }

  function Addition(previous: Items, current: Items, k: Key): seq<Change>
    requires k in current
  {
    if k !in previous then [Created(k, current[k])]
    else if current[k] != previous[k] then [Changed(k, current[k], previous[k])]
    else []
  }

  function Removals(previous: Items, current: Items, keys: seq<Key>): seq<Change>
    requires forall i | 0 <= i < |keys| :: keys[i] in previous
    decreases |keys|
  {
    if keys == [] then []
    else (if keys[0] !in current then [Removed(keys[0], previous[keys[0]])] else [])
         + Removals(previous, current, keys[1..])
  }

  function PollEvents(previous: Snapshot, current: Snapshot): seq<Change>
    requires WellFormed(previous) && WellFormed(current)
  {
    Additions(previous.items, current.items, current.keys) + Removals(previous.items, current.items, previous.keys)
  }

  // ---- Replaying in both directions ----------------------------------

  function Step(items: Items, e: Change): Items {
    if e.Removed? then items - {e.key} else items[e.key := e.value]
  }

  function Unstep(items: Items, e: Change): Items {
    match e
    case Created(k, _) => items - {k}
    case Changed(k, _, was) => items[k := was]
    case Removed(k, was) => items[k := was]
  }

  function Forward(items: Items, events: seq<Change>): Items
    decreases |events|
  {
    if events == [] then items else Forward(Step(items, events[0]), events[1..])
  }

  /** Undoes the last event first. */
  function Backward(items: Items, events: seq<Change>): Items
    decreases |events|
  {
    if events == [] then items else Unstep(Backward(items, events[1..]), events[0])
  }

  /** Each event speaks of the state that it is applied to. */
  predicate Fits(items: Items, e: Change) {
    match e
    case Created(k, _) => k !in items
    case Changed(k, _, was) => k in items && items[k] == was
    case Removed(k, was) => k in items && items[k] == was
  }

  predicate Applicable(items: Items, events: seq<Change>)
    decreases |events|
  {
    events == [] || (Fits(items, events[0]) && Applicable(Step(items, events[0]), events[1..]))
  }

  lemma UnstepUndoesStep(items: Items, e: Change)
    requires Fits(items, e)
    ensures Unstep(Step(items, e), e) == items
  {
  }

  lemma {:induction false} BackwardUndoesForward(items: Items, events: seq<Change>)
    requires Applicable(items, events)
    ensures Backward(Forward(items, events), events) == items
    decreases |events|
  {
    if events != [] {
      BackwardUndoesForward(Step(items, events[0]), events[1..]);
      UnstepUndoesStep(items, events[0]);
    }
  }

  lemma {:induction false} ReplayConcat(items: Items, a: seq<Change>, b: seq<Change>)
    ensures Forward(items, a + b) == Forward(Forward(items, a), b)
    ensures Applicable(items, a + b) <==> Applicable(items, a) && Applicable(Forward(items, a), b)
    decreases |a|
  {
    if a == [] {
      assert a + b == b;
    } else {
      ReplayConcat(Step(items, a[0]), a[1..], b);
      assert (a + b)[1..] == a[1..] + b;
    }
  }

  /** `items` with the given keys taken from `current`. */
  function Taking(items: Items, current: Items, keys: seq<Key>): Items {
    map k | k in items.Keys + current.Keys && (k in items || k in keys) ::
      if k in current && k in keys then current[k] else items[k]
  }

  lemma TakingStep(items: Items, current: Items, keys: seq<Key>)
    requires keys != [] && forall i | 0 <= i < |keys| :: keys[i] in current
    ensures Taking(items, current, keys) == Taking(items[keys[0] := current[keys[0]]], current, keys[1..])
  {
    forall k ensures k in keys <==> k == keys[0] || k in keys[1..] {}
  }

  lemma {:induction false} AdditionsReplay(previous: Items, current: Items, items: Items, keys: seq<Key>)
    requires forall i | 0 <= i < |keys| :: keys[i] in current
    requires forall i | 0 <= i < |keys| ::
               if keys[i] in previous then keys[i] in items && items[keys[i]] == previous[keys[i]]
               else keys[i] !in items
    requires forall i, j | 0 <= i < j < |keys| :: keys[i] != keys[j]
    ensures Forward(items, Additions(previous, current, keys)) == Taking(items, current, keys)
    ensures Applicable(items, Additions(previous, current, keys))
    decreases |keys|
  {
    hide Taking;
    if keys == [] {
      TakingNothing(items, current);
    } else {
      var k, rest := keys[0], Additions(previous, current, keys[1..]);
      AdditionsReplay(previous, current, items[k := current[k]], keys[1..]);
      TakingStep(items, current, keys);
      var all := Additions(previous, current, keys);
      if k in previous && current[k] == previous[k] {
        assert items[k := current[k]] == items && all == rest;
      } else {
        assert all[1..] == rest;
      }
    }
  }

  lemma TakingNothing(items: Items, current: Items)
    ensures Taking(items, current, []) == items
  {
  }

  lemma {:induction false} RemovalsReplay(previous: Items, current: Items, items: Items, keys: seq<Key>)
    requires forall i | 0 <= i < |keys| :: keys[i] in previous
    requires forall i | 0 <= i < |keys| && keys[i] !in current ::
               keys[i] in items && items[keys[i]] == previous[keys[i]]
    requires forall i, j | 0 <= i < j < |keys| :: keys[i] != keys[j]
    ensures Forward(items, Removals(previous, current, keys)) == items - (set k | k in keys && k !in current)
    ensures Applicable(items, Removals(previous, current, keys))
    decreases |keys|
  {
    if keys != [] {
      var k, rest := keys[0], Removals(previous, current, keys[1..]);
      RemovalsReplay(previous, current, if k !in current then items - {k} else items, keys[1..]);
      RemovingStep(items, current, keys);
      var all := Removals(previous, current, keys);
      assert if k !in current then all[1..] == rest else all == rest;
    }
  }

  lemma RemovingStep(items: Items, current: Items, keys: seq<Key>)
    requires keys != []
    ensures
      var k := keys[0];
      (if k !in current then items - {k} else items) - (set q | q in keys[1..] && q !in current)
      == items - (set q | q in keys && q !in current)
  {
    assert keys == [keys[0]] + keys[1..];
  }

  /**
   Replaying a poll's events over what the detector saw last gives what it sees now, and undoing them
   in reverse order gives back what it saw.
   */
  lemma PollIsReversiblePatch(previous: Snapshot, current: Snapshot)
    requires WellFormed(previous) && WellFormed(current)
    ensures Forward(previous.items, PollEvents(previous, current)) == current.items
    ensures Backward(current.items, PollEvents(previous, current)) == previous.items
  {
    var p, c := previous.items, current.items;
    var added, removed := Additions(p, c, current.keys), Removals(p, c, previous.keys);
    AdditionsReplay(p, c, p, current.keys);
    RemovalsReplay(p, c, Taking(p, c, current.keys), previous.keys);
    ReplayConcat(p, added, removed);
    TakingThenRemoving(previous, current);
    BackwardUndoesForward(p, added + removed);
  }

  lemma TakingThenRemoving(previous: Snapshot, current: Snapshot)
    requires WellFormed(previous) && WellFormed(current)
    ensures Taking(previous.items, current.items, current.keys) - (set k | k in previous.keys && k !in current.items)
            == current.items
  {
  }

  /** A poll emits nothing exactly when nothing changed. */
  lemma SilentExactlyWhenUnchanged(previous: Snapshot, current: Snapshot)
    requires WellFormed(previous) && WellFormed(current)
    ensures PollEvents(previous, current) == [] <==> previous.items == current.items
  {
    PollIsReversiblePatch(previous, current);
    if previous.items == current.items {
      NothingToSay(previous.items, current.keys);
      NothingToSay(previous.items, previous.keys);
    }
  }

  lemma {:induction false} NothingToSay(items: Items, keys: seq<Key>)
    requires forall i | 0 <= i < |keys| :: keys[i] in items
    ensures Additions(items, items, keys) == [] && Removals(items, items, keys) == []
    decreases |keys|
  {
    if keys != [] {
      NothingToSay(items, keys[1..]);
    }
  }

  // ---- One step of the loops -----------------------------------------

  lemma AdditionsStep(done: seq<Change>, previous: Items, current: Items, keys: seq<Key>, i: nat)
    requires i < |keys| && forall j | 0 <= j < |keys| :: keys[j] in current
    ensures done + Additions(previous, current, keys[i..])
         == done + Addition(previous, current, keys[i]) + Additions(previous, current, keys[i + 1..])
  {
    assert keys[i..][1..] == keys[i + 1..];
  }

  lemma RemovalsStep(done: seq<Change>, previous: Items, current: Items, keys: seq<Key>, i: nat)
    requires i < |keys| && forall j | 0 <= j < |keys| :: keys[j] in previous
    ensures done + Removals(previous, current, keys[i..])
         == done + (if keys[i] !in current then [Removed(keys[i], previous[keys[i]])] else [])
         + Removals(previous, current, keys[i + 1..])
  {
    assert keys[i..][1..] == keys[i + 1..];
  }

  lemma NothingLeft(previous: Items, current: Items)
    ensures Additions(previous, current, []) == [] && Removals(previous, current, []) == []
  {
  }

  // ---- The data of an event ------------------------------------------

  /** The names of the three event types, and how a key is written as text. */
  datatype Config = Config(created: string, changed: string, removed: string, str: Key -> string)

  datatype Event = Event(eventType: string, data: map<string, Value>)

  function FieldsOf(v: Value): map<string, Value> {
    if v.Fields? then v.entries else map["value" := v]
  }

  /** The identifier first, then the value's own entries, then the extra ones; a later entry replaces an earlier. */
  function DataOf(cfg: Config, k: Key, v: Value, extra: map<string, Value>): map<string, Value> {
    map["id" := Text(cfg.str(k))] + FieldsOf(v) + extra
  }

  function Encode(cfg: Config, c: Change): Event {
    match c
    case Created(k, v) => Event(cfg.created, DataOf(cfg, k, v, map[]))
    case Changed(k, v, was) => Event(cfg.changed, DataOf(cfg, k, v, map["previous" := was]))
    case Removed(k, v) => Event(cfg.removed, DataOf(cfg, k, v, map[]))
  }

  function EncodeAll(cfg: Config, changes: seq<Change>): (r: seq<Event>)
    ensures |r| == |changes| && forall i | 0 <= i < |r| :: r[i] == Encode(cfg, changes[i])
  {
    seq(|changes|, i requires 0 <= i < |changes| => Encode(cfg, changes[i]))
  }

  /** What a poll emits. */
  function Emitted(cfg: Config, previous: Snapshot, current: Snapshot): seq<Event>
    requires WellFormed(previous) && WellFormed(current)
  {
    EncodeAll(cfg, PollEvents(previous, current))
  }

  /**
   The data of an event: the key as text under "id" and the value's own entries, or the value itself under
   "value"; an entry of the value replaces the key, and an extra entry replaces both.
   */
  ghost predicate IsData(cfg: Config, data: map<string, Value>, k: Key, v: Value, extra: map<string, Value>) {
    && (forall e :: e in data <==> e == "id" || e in extra || (if v.Fields? then e in v.entries else e == "value"))
    && forall e | e in data ::
         data[e] == if e in extra then extra[e]
                    else if v.Fields? && e in v.entries then v.entries[e]
                    else if !v.Fields? && e == "value" then v
                    else Text(cfg.str(k))
  }

  lemma DataIsData(cfg: Config, k: Key, v: Value, extra: map<string, Value>, data: map<string, Value>)
    ensures data == DataOf(cfg, k, v, extra) <==> IsData(cfg, data, k, v, extra)
  {
    var all := DataOf(cfg, k, v, extra);
    assert IsData(cfg, all, k, v, extra);
    if IsData(cfg, data, k, v, extra) {
      assert data.Keys == all.Keys;
      assert forall e | e in data :: data[e] == all[e];
    }
  }

  /** The event says that this key appeared, changed its value or disappeared between the two readings. */
  ghost predicate Announces(cfg: Config, previous: Items, current: Items, e: Event, k: Key) {
    if k in current && k !in previous then
      e.eventType == cfg.created && IsData(cfg, e.data, k, current[k], map[])
    else if k in current && k in previous then
      && current[k] != previous[k] && e.eventType == cfg.changed
      && IsData(cfg, e.data, k, current[k], map["previous" := previous[k]])
    else
      k in previous && e.eventType == cfg.removed && IsData(cfg, e.data, k, previous[k], map[])
  }

  lemma {:induction false} AdditionsMember(previous: Items, current: Items, keys: seq<Key>, c: Change)
    requires forall i | 0 <= i < |keys| :: keys[i] in current
    ensures c in Additions(previous, current, keys) <==>
              && c.key in keys && !c.Removed? && c.value == current[c.key]
              && (c.Created? <==> c.key !in previous)
              && (c.Changed? ==> c.key in previous && c.previous == previous[c.key] && c.value != c.previous)
    decreases |keys|
  {
    if keys != [] {
      AdditionsMember(previous, current, keys[1..], c);
      assert keys == [keys[0]] + keys[1..];
    }
  }

  lemma {:induction false} RemovalsMember(previous: Items, current: Items, keys: seq<Key>, c: Change)
    requires forall i | 0 <= i < |keys| :: keys[i] in previous
    ensures c in Removals(previous, current, keys) <==>
              c.Removed? && c.key in keys && c.key !in current && c.value == previous[c.key]
    decreases |keys|
  {
    if keys != [] {
      RemovalsMember(previous, current, keys[1..], c);
      assert keys == [keys[0]] + keys[1..];
    }
  }

  /** What a poll finds out about one key. */
  ghost predicate Finds(previous: Items, current: Items, c: Change) {
    match c
    case Created(k, v) => k in current && k !in previous && v == current[k]
    case Changed(k, v, was) => k in current && k in previous && v == current[k] && was == previous[k] && v != was
    case Removed(k, v) => k in previous && k !in current && v == previous[k]
  }

  lemma ChangesExactly(previous: Snapshot, current: Snapshot, c: Change)
    requires WellFormed(previous) && WellFormed(current)
    ensures c in PollEvents(previous, current) <==> Finds(previous.items, current.items, c)
  {
    AdditionsMember(previous.items, current.items, current.keys, c);
    RemovalsMember(previous.items, current.items, previous.keys, c);
    hide Additions, Removals;
  }

  lemma AnnouncedByChange(cfg: Config, previous: Items, current: Items, e: Event, k: Key)
    requires Announces(cfg, previous, current, e, k)
    ensures exists c :: Finds(previous, current, c) && Encode(cfg, c) == e
  {
    hide IsData, DataOf;
    if k in current && k !in previous {
      DataIsData(cfg, k, current[k], map[], e.data);
      assert Finds(previous, current, Created(k, current[k])) && Encode(cfg, Created(k, current[k])) == e;
    } else if k in current {
      DataIsData(cfg, k, current[k], map["previous" := previous[k]], e.data);
      var c := Changed(k, current[k], previous[k]);
      assert Finds(previous, current, c) && Encode(cfg, c) == e;
    } else {
      DataIsData(cfg, k, previous[k], map[], e.data);
      assert Finds(previous, current, Removed(k, previous[k])) && Encode(cfg, Removed(k, previous[k])) == e;
    }
  }

  lemma ChangeIsAnnounced(cfg: Config, previous: Items, current: Items, c: Change)
    requires Finds(previous, current, c)
    ensures Announces(cfg, previous, current, Encode(cfg, c), c.key)
  {
    hide IsData, DataOf;
    var data := Encode(cfg, c).data;
    DataIsData(cfg, c.key, c.value, if c.Changed? then map["previous" := c.previous] else map[], data);
  }

  /** A poll emits exactly the announcements of the keys that appeared, changed or disappeared. */
  lemma EmitsExactly(cfg: Config, previous: Snapshot, current: Snapshot, e: Event)
    requires WellFormed(previous) && WellFormed(current)
    ensures e in Emitted(cfg, previous, current) <==>
              exists k :: Announces(cfg, previous.items, current.items, e, k)
  {
    hide Announces, Finds, Encode, PollEvents, WellFormed;
    var changes, emitted := PollEvents(previous, current), Emitted(cfg, previous, current);
    if e in emitted {
      var i :| 0 <= i < |emitted| && emitted[i] == e;
      ChangesExactly(previous, current, changes[i]);
      ChangeIsAnnounced(cfg, previous.items, current.items, changes[i]);
    }
    if k :| Announces(cfg, previous.items, current.items, e, k) {
      AnnouncedByChange(cfg, previous.items, current.items, e, k);
      var c :| Finds(previous.items, current.items, c) && Encode(cfg, c) == e;
      ChangesExactly(previous, current, c);
      var i :| 0 <= i < |changes| && changes[i] == c;
      assert emitted[i] == e;
    }
  }

  // ---- Which readers' events can be read -----------------------------

  /** The keys and values that a reader may report. */
  datatype Reader = Reader(keys: iset<Key>, values: iset<Value>)

  ghost predicate Reports(reader: Reader, c: Change) {
    && c.key in reader.keys && c.value in reader.values
    && (c.Changed? ==> c.previous in reader.values && c.previous != c.value)
  }

  /** No two changes that the reader may cause look alike as events. */
  ghost predicate Readable(cfg: Config, reader: Reader) {
    forall c, d | Reports(reader, c) && Reports(reader, d) && Encode(cfg, c) == Encode(cfg, d) :: c == d
  }

  function Visible(v: Value): map<string, Value> {
    FieldsOf(v) - {"previous"}
  }

  /**
   Created and removed things are announced under different types, keys differ as text, no value has
   an "id" entry, values differ outside their "previous" entries, and if changes share a type with
   another event, then no value holds another one as its "previous" entry.
   */
  ghost predicate Separated(cfg: Config, reader: Reader) {
    && cfg.created != cfg.removed
    && (forall k, l | k in reader.keys && l in reader.keys && cfg.str(k) == cfg.str(l) :: k == l)
    && (forall v | v in reader.values :: "id" !in FieldsOf(v))
    && (forall v, w | v in reader.values && w in reader.values && Visible(v) == Visible(w) :: v == w)
    && (cfg.changed in {cfg.created, cfg.removed} ==> forall v | v in reader.values :: !HoldsPrevious(reader, v))
  }

  ghost predicate HoldsPrevious(reader: Reader, v: Value) {
    && "previous" in FieldsOf(v)
    && FieldsOf(v)["previous"] in reader.values && FieldsOf(v)["previous"] != v
  }

  /** The reader has two keys and three values at least. */
  ghost predicate Varied(reader: Reader, k: Key, l: Key, u: Value, v: Value, w: Value) {
    && k in reader.keys && l in reader.keys && k != l
    && u in reader.values && v in reader.values && w in reader.values
    && u != v && v != w && u != w
  }

  lemma DataShows(cfg: Config, reader: Reader, c: Change)
    requires Separated(cfg, reader) && Reports(reader, c)
    ensures
      var data := Encode(cfg, c).data;
      && "id" in data && data["id"] == Text(cfg.str(c.key))
      && data - {"id", "previous"} == Visible(c.value)
      && (c.Changed? ==> "previous" in data && data["previous"] == c.previous)
      && (!c.Changed? ==> data - {"id"} == FieldsOf(c.value))
  {
  }

  lemma SeparatedIsReadable(cfg: Config, reader: Reader, c: Change, d: Change)
    requires Separated(cfg, reader) && Reports(reader, c) && Reports(reader, d) && Encode(cfg, c) == Encode(cfg, d)
    ensures c == d
  {
    DataShows(cfg, reader, c);
    DataShows(cfg, reader, d);
    assert c.key == d.key && c.value == d.value;
    if !c.Changed? {
      PlainIsNotChanged(cfg, reader, c, d);
    } else if !d.Changed? {
      PlainIsNotChanged(cfg, reader, d, c);
    }
  }

  lemma PlainIsNotChanged(cfg: Config, reader: Reader, c: Change, d: Change)
    requires Separated(cfg, reader) && Reports(reader, c) && Reports(reader, d)
    requires !c.Changed? && c.value == d.value && Encode(cfg, c) == Encode(cfg, d)
    ensures !d.Changed?
  {
    if d.Changed? {
      DataShows(cfg, reader, c);
      DataShows(cfg, reader, d);
      assert Encode(cfg, c).data["previous"] == d.previous;
      assert (Encode(cfg, c).data - {"id"})["previous"] == d.previous;
      assert HoldsPrevious(reader, c.value);
    }
  }

  lemma ReadableIsSeparated(cfg: Config, reader: Reader, a: Key, b: Key, u: Value, v: Value, w: Value)
    requires Varied(reader, a, b, u, v, w) && Readable(cfg, reader)
    ensures Separated(cfg, reader)
  {
    assert Reports(reader, Created(a, u)) && Reports(reader, Removed(a, u));
    assert cfg.created == cfg.removed ==> Encode(cfg, Created(a, u)) == Encode(cfg, Removed(a, u));
    forall k, l | k in reader.keys && l in reader.keys && cfg.str(k) == cfg.str(l) ensures k == l {
      assert Reports(reader, Created(k, u)) && Reports(reader, Created(l, u));
      assert Encode(cfg, Created(k, u)) == Encode(cfg, Created(l, u));
    }
    forall x | x in reader.values ensures "id" !in FieldsOf(x) {
      assert Reports(reader, Created(a, x)) && Reports(reader, Created(b, x));
      assert "id" in FieldsOf(x) ==> DataOf(cfg, a, x, map[]) == DataOf(cfg, b, x, map[]);
    }
    forall x, y | x in reader.values && y in reader.values && Visible(x) == Visible(y) ensures x == y {
      var z := if x != u && y != u then u else if x != v && y != v then v else w;
      if x != y {
        VisibleDecidesChange(cfg, reader, a, x, y, z);
      }
    }
    forall x | x in reader.values && cfg.changed in {cfg.created, cfg.removed} ensures !HoldsPrevious(reader, x) {
      if HoldsPrevious(reader, x) {
        HeldPreviousLooksPlain(cfg, reader, a, x);
      }
    }
  }

  lemma VisibleDecidesChange(cfg: Config, reader: Reader, k: Key, x: Value, y: Value, z: Value)
    requires Readable(cfg, reader) && k in reader.keys && x in reader.values && y in reader.values && z in reader.values
    requires Visible(x) == Visible(y) && z != x && z != y
    ensures x == y
  {
    var c, d := Changed(k, x, z), Changed(k, y, z);
    assert Reports(reader, c) && Reports(reader, d);
    forall f ensures f in Encode(cfg, c).data <==> f in Encode(cfg, d).data {
      assert f in Visible(x) <==> f in Visible(y);
    }
    forall f | f in Encode(cfg, c).data ensures Encode(cfg, c).data[f] == Encode(cfg, d).data[f] {
      assert f in Visible(x) ==> Visible(x)[f] == Visible(y)[f];
    }
    assert Encode(cfg, c).data == Encode(cfg, d).data;
  }

  lemma OwnPreviousIsLast(cfg: Config, k: Key, x: Value)
    requires "previous" in FieldsOf(x)
    ensures DataOf(cfg, k, x, map[]) == DataOf(cfg, k, x, map["previous" := FieldsOf(x)["previous"]])
  {
  }

  lemma HeldPreviousLooksPlain(cfg: Config, reader: Reader, k: Key, x: Value)
    requires Readable(cfg, reader) && k in reader.keys && x in reader.values
    requires cfg.changed in {cfg.created, cfg.removed}
    ensures !HoldsPrevious(reader, x)
  {
    if HoldsPrevious(reader, x) {
      var u := FieldsOf(x)["previous"];
      var c := if cfg.changed == cfg.created then Created(k, x) else Removed(k, x);
      assert Reports(reader, c) && Reports(reader, Changed(k, x, u));
      OwnPreviousIsLast(cfg, k, x);
    }
  }

  /** A reader's events tell its changes apart exactly when its keys and values are separated. */
  lemma ReadableExactly(cfg: Config, reader: Reader, k: Key, l: Key, u: Value, v: Value, w: Value)
    requires Varied(reader, k, l, u, v, w)
    ensures Readable(cfg, reader) <==> Separated(cfg, reader)
  {
    if Readable(cfg, reader) {
      ReadableIsSeparated(cfg, reader, k, l, u, v, w);
    }
    if Separated(cfg, reader) {
      forall c, d | Reports(reader, c) && Reports(reader, d) && Encode(cfg, c) == Encode(cfg, d) ensures c == d {
        SeparatedIsReadable(cfg, reader, c, d);
      }
    }
  }

  // ---- Replaying events from their data ------------------------------

  /** The change of the reader that an event tells of. */
  ghost function Decode(cfg: Config, reader: Reader, e: Event): (c: Option<Change>)
    ensures c.Some? ==> Reports(reader, c.value) && Encode(cfg, c.value) == e
    ensures c.None? ==> forall d | Reports(reader, d) :: Encode(cfg, d) != e
  {
    if d :| Reports(reader, d) && Encode(cfg, d) == e then Some(d) else None
  }

  ghost function DecodeAll(cfg: Config, reader: Reader, events: seq<Event>): seq<Change> {
    if events == [] then []
    else
      var c := Decode(cfg, reader, events[0]);
      (if c.Some? then [c.value] else []) + DecodeAll(cfg, reader, events[1..])
  }

  lemma {:induction false} DecodeUndoesEncode(cfg: Config, reader: Reader, changes: seq<Change>)
    requires Separated(cfg, reader) && forall i | 0 <= i < |changes| :: Reports(reader, changes[i])
    ensures DecodeAll(cfg, reader, EncodeAll(cfg, changes)) == changes
  {
    hide Encode, Separated, Reports;
    if changes != [] {
      var events := EncodeAll(cfg, changes);
      var c := Decode(cfg, reader, events[0]);
      assert events[0] == Encode(cfg, changes[0]);
      SeparatedIsReadable(cfg, reader, c.value, changes[0]);
      assert events[1..] == EncodeAll(cfg, changes[1..]);
      DecodeUndoesEncode(cfg, reader, changes[1..]);
    }
  }

  ghost predicate ReadFrom(reader: Reader, s: Snapshot) {
    forall k | k in s.items :: k in reader.keys && s.items[k] in reader.values
  }

  lemma {:induction false} AdditionsReported(reader: Reader, previous: Snapshot, current: Snapshot, keys: seq<Key>)
    requires ReadFrom(reader, previous) && ReadFrom(reader, current)
    requires forall i | 0 <= i < |keys| :: keys[i] in current.items
    ensures forall c | c in Additions(previous.items, current.items, keys) :: Reports(reader, c)
    decreases |keys|
  {
    if keys != [] {
      AdditionsReported(reader, previous, current, keys[1..]);
    }
  }

  lemma {:induction false} RemovalsReported(reader: Reader, previous: Snapshot, current: Snapshot, keys: seq<Key>)
    requires ReadFrom(reader, previous)
    requires forall i | 0 <= i < |keys| :: keys[i] in previous.items
    ensures forall c | c in Removals(previous.items, current.items, keys) :: Reports(reader, c)
    decreases |keys|
  {
    if keys != [] {
      RemovalsReported(reader, previous, current, keys[1..]);
    }
  }

  /**
   For a separated reader the data of a poll's events is a patch: whoever knows what the detector saw
   last can tell from it what the detector sees now, and the other way round.
   */
  lemma DataIsReversiblePatch(cfg: Config, reader: Reader, previous: Snapshot, current: Snapshot)
    requires WellFormed(previous) && WellFormed(current)
    requires Separated(cfg, reader) && ReadFrom(reader, previous) && ReadFrom(reader, current)
    ensures
      var changes := DecodeAll(cfg, reader, Emitted(cfg, previous, current));
      && changes == PollEvents(previous, current)
      && Forward(previous.items, changes) == current.items
      && Backward(current.items, changes) == previous.items
  {
    hide Separated, ReadFrom, Reports, Forward, Backward;
    AdditionsReported(reader, previous, current, current.keys);
    RemovalsReported(reader, previous, current, previous.keys);
    var changes := PollEvents(previous, current);
    assert forall i | 0 <= i < |changes| :: changes[i] in changes;
    DecodeUndoesEncode(cfg, reader, changes);
    PollIsReversiblePatch(previous, current);
  }

  /** Readings of network interfaces: text keys, and values with three entries of their own. */
  lemma NetworkEventsAreSeparated(cfg: Config, reader: Reader)
    requires cfg.created == "ON_NETWORK_CONNECTED" && cfg.changed == "ON_NETWORK_CHANGED"
    requires cfg.removed == "ON_NETWORK_DISCONNECTED" && forall t :: cfg.str(Text(t)) == t
    requires forall k | k in reader.keys :: k.Text?
    requires forall v | v in reader.values :: v.Fields? && v.entries.Keys == {"interface", "ip", "family"}
    ensures Separated(cfg, reader)
  {
    assert cfg.created[11] == 'C' && cfg.removed[11] == 'D' && cfg.changed[12] == 'H' && cfg.created[12] == 'O';
    assert cfg.changed[11] == 'C';
    forall v | v in reader.values ensures Visible(v) == v.entries {
      assert "previous" !in v.entries.Keys;
    }
  }

  // ---- Readings that collide -----------------------------------------

  const NOTHING := Snapshot([], map[])

  function Single(k: Key, v: Value): Snapshot {
    Snapshot([k], map[k := v])
  }

  lemma OneKey(previous: Items, current: Items, k: Key)
    requires k in current
    ensures Additions(previous, current, [k]) == Addition(previous, current, k)
    ensures k in previous ==> Removals(previous, current, [k]) == []
  {
    assert [k][1..] == [];
    NothingLeft(previous, current);
  }

  lemma SingleCreated(cfg: Config, k: Key, v: Value)
    ensures WellFormed(Single(k, v)) && WellFormed(NOTHING)
    ensures Emitted(cfg, NOTHING, Single(k, v)) == [Encode(cfg, Created(k, v))]
  {
    OneKey(map[], map[k := v], k);
    assert Removals(map[], map[k := v], []) == [];
  }

  lemma SingleChanged(cfg: Config, k: Key, v: Value, was: Value)
    requires v != was
    ensures WellFormed(Single(k, v)) && WellFormed(Single(k, was))
    ensures Emitted(cfg, Single(k, was), Single(k, v)) == [Encode(cfg, Changed(k, v, was))]
  {
    OneKey(map[k := was], map[k := v], k);
  }

  /** An "id" entry hides the key: two readings under different keys have the same events. */
  lemma IdEntryHidesKey(cfg: Config)
    ensures
      var v := Fields(map["id" := Text("x")]);
      Emitted(cfg, NOTHING, Single(Text("a"), v)) == Emitted(cfg, NOTHING, Single(Text("b"), v))
  {
    var v := Fields(map["id" := Text("x")]);
    SingleCreated(cfg, Text("a"), v);
    SingleCreated(cfg, Text("b"), v);
    assert DataOf(cfg, Text("a"), v, map[]) == DataOf(cfg, Text("b"), v, map[]);
    hide Emitted;
  }

  /** A plain value looks like a dictionary with just a "value" entry. */
  lemma PlainLooksLikeFields(cfg: Config)
    ensures
      var v := Fields(map["value" := Number(1)]);
      Emitted(cfg, NOTHING, Single(Text("a"), Number(1))) == Emitted(cfg, NOTHING, Single(Text("a"), v))
  {
    SingleCreated(cfg, Text("a"), Number(1));
    SingleCreated(cfg, Text("a"), Fields(map["value" := Number(1)]));
    hide Emitted;
  }

  /** A change hides the new value's own "previous" entry. */
  lemma ChangeHidesPreviousEntry(cfg: Config)
    ensures
      var was, v, w := Number(0), Fields(map["previous" := Number(1)]), Fields(map["previous" := Number(2)]);
      Emitted(cfg, Single(Text("a"), was), Single(Text("a"), v))
      == Emitted(cfg, Single(Text("a"), was), Single(Text("a"), w))
  {
    var a, was := Text("a"), Number(0);
    var v, w := Fields(map["previous" := Number(1)]), Fields(map["previous" := Number(2)]);
    PreviousReplaced(cfg, a, map["previous" := Number(1)], map["previous" := Number(2)], was);
    hide Emitted, DataOf;
    assert Number(1) != Number(2) && v.entries["previous"] == Number(1) && was.Number?;
    SingleChanged(cfg, a, v, was);
    SingleChanged(cfg, a, w, was);
  }

  lemma PreviousReplaced(cfg: Config, k: Key, v: map<string, Value>, w: map<string, Value>, was: Value)
    requires v - {"previous"} == w - {"previous"}
    ensures DataOf(cfg, k, Fields(v), map["previous" := was]) == DataOf(cfg, k, Fields(w), map["previous" := was])
  {
    forall e | e != "previous" ensures e in v <==> e in w
                               ensures e in v ==> v[e] == w[e]
    {
      assert e in v <==> e in v - {"previous"};
      assert e in w <==> e in w - {"previous"};
    }
  }

  // ---- The class -----------------------------------------------------

  class Detector {
    const config: Config
    var previous: Snapshot

    constructor (config: Config)
      ensures this.config == config && previous == NOTHING
    {
      this.config, previous := config, NOTHING;
    }

    /** The data of the events is a patch for every separated reader. */
    method Poll(current: Snapshot) returns (events: seq<Event>)
      requires WellFormed(previous) && WellFormed(current)
      modifies this
      ensures events == Emitted(config, old(previous), current) && previous == current
    {
      hide Encode;
      var added := EmitAdditions(current);
      var removed := EmitRemovals(current);
      events := added + removed;
      previous := current;
    }

    method EmitAdditions(current: Snapshot) returns (events: seq<Event>)
      requires WellFormed(current)
      ensures events == EncodeAll(config, Additions(previous.items, current.items, current.keys))
    {
      NothingLeft(previous.items, current.items);
      hide Additions, Encode;
      events := [];
      ghost var changes: seq<Change> := [];
      var i := 0;
      while i < |current.keys|
        invariant i <= |current.keys| && events == EncodeAll(config, changes)
        invariant changes + Additions(previous.items, current.items, current.keys[i..])
               == Additions(previous.items, current.items, current.keys)
      {
        var k := current.keys[i];
        AdditionsStep(changes, previous.items, current.items, current.keys, i);
        if k !in previous.items {
          changes := changes + [Created(k, current.items[k])];
          events := events + [Encode(config, Created(k, current.items[k]))];
        } else if current.items[k] != previous.items[k] {
          changes := changes + [Changed(k, current.items[k], previous.items[k])];
          events := events + [Encode(config, Changed(k, current.items[k], previous.items[k]))];
        }
        i := i + 1;
      }
      assert current.keys[i..] == [];
    }

    method EmitRemovals(current: Snapshot) returns (events: seq<Event>)
      requires WellFormed(previous)
      ensures events == EncodeAll(config, Removals(previous.items, current.items, previous.keys))
    {
      NothingLeft(previous.items, current.items);
      hide Removals, Encode;
      events := [];
      ghost var changes: seq<Change> := [];
      var i := 0;
      while i < |previous.keys|
        invariant i <= |previous.keys| && events == EncodeAll(config, changes)
        invariant changes + Removals(previous.items, current.items, previous.keys[i..])
               == Removals(previous.items, current.items, previous.keys)
      {
        var k := previous.keys[i];
        RemovalsStep(changes, previous.items, current.items, previous.keys, i);
        if k !in current.items {
          changes := changes + [Removed(k, previous.items[k])];
          events := events + [Encode(config, Removed(k, previous.items[k]))];
        }
        i := i + 1;
      }
      assert previous.keys[i..] == [];
    }
  }
}
