/** `EventStore` and `AutonomousEventBus`, proved against `RuntimeEvents`. */
module RuntimeEventBus {
  import opened Ordering
  import opened RuntimeEvents

  class EventStore {
    const retention: int
    var table: map<int, AutonomousEvent>

    constructor (retention: int)
      ensures this.retention == retention && table == map[]
    {
      this.retention := retention;
      table := map[];
    }

    method StoreEvent(event: AutonomousEvent)
      modifies this
      ensures table == Trim(old(table)[event.sequence := event], retention)
    {
      table := table[event.sequence := event];
      table := Trim(table, retention);
    }

    /** The newest rows, oldest first. */
    method Latest(limit: int) returns (rows: seq<AutonomousEvent>)
      ensures rows == Recent(table, limit)
    {
      var keys := SortElements(table.Keys, IntLeq);
      rows := Tail(Rows(table, keys), limit);
    }
  }

  class AutonomousEventBus {
    const retention: nat
    const persistence: EventStore?
    const redact: string -> string
    var history: seq<AutonomousEvent>
    var sequence: int

    /** A new bus takes up the numbering from the last event that the store returns. */
    constructor (retention: nat, persistence: EventStore?, redact: string -> string)
      ensures this.retention == retention && this.persistence == persistence && this.redact == redact
      ensures forall st: State | st.table == Table() :: Value(st) == Restarting(st, retention)
    {
      this.retention, this.persistence, this.redact := retention, persistence, redact;
      history, sequence := [], 0;
      new;
      NothingStored();
      hide Recent, Rows;
      if persistence != null {
        var restored := persistence.Latest(retention);
        history := Tail(restored, retention);
        sequence := if restored == [] then 0 else restored[|restored| - 1].sequence;
      }
    }

    /** A bus without persistence behaves like one whose store retains nothing. */
    ghost function StoreRetention(): int {
      if persistence == null then 0 else persistence.retention
    }

    ghost function Table(): map<int, AutonomousEvent>
      reads persistence
    {
      if persistence == null then map[] else persistence.table
    }

    /** The bus and its store, beside the reader of `st`. */
    ghost function Value(st: State): State
      reads this, persistence
    {
      st.(retention := retention, history := history, counter := sequence, table := Table())
    }

    method Publish(detail: string)
      modifies this, persistence
      ensures forall st: State :: Value(st) == Publishing(old(Value(st)), StoreRetention(), redact(detail))
    {
      hide Newer;
      ghost var before := Table();
      sequence := sequence + 1;
      var recorded := AutonomousEvent(redact(detail), sequence);
      history := Tail(history + [recorded], retention);
      if persistence != null {
        persistence.StoreEvent(recorded);
      }
      assert Table() == Trim(before[recorded.sequence := recorded], StoreRetention());
    }

    method Replay(since: int, limit: int) returns (events: seq<AutonomousEvent>)
      ensures events == Page(history, since, limit)
    {
      events := [];
      var i := 0;
      while i < |history|
        invariant i <= |history|
        invariant events + Since(history[i..], since) == Since(history, since)
      {
        assert history[i..][1..] == history[i + 1..];
        if history[i].sequence > since {
          events := events + [history[i]];
        }
        i := i + 1;
      }
      if |events| > PageSize(limit) {
        events := events[..PageSize(limit)];
      }
    }
  }

  lemma NothingStored()
    ensures forall limit :: Recent(map[], limit) == []
  {
    var table: map<int, AutonomousEvent> := map[];
    SortedKeys(table.Keys, 0, 0);
  }
}
