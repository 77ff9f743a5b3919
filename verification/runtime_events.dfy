/**
 The runtime event bus and its SQLite store: a bounded history and a bounded table against the full
 log of published events, across restarts, and a reader that pages through the history.
 */
module RuntimeEvents {
  import opened Ordering

  /** `detail` stands for everything in the event but its number. */
  datatype AutonomousEvent = AutonomousEvent(detail: string, sequence: int)

  const PAGE_LIMIT := 1000

  predicate IntLeq(a: int, b: int) {
    a <= b
  }

  // ---- The store -----------------------------------------------------

  function Tail<T>(s: seq<T>, n: int): seq<T> {
    if n < 0 || |s| <= n then s else s[|s| - n..]
  }

  function Newer(table: map<int, AutonomousEvent>, key: int): set<int> {
    set k | k in table && k > key
  }

  /** Keeps the `retention` newest rows; a negative `LIMIT` of SQLite is no limit. */
  function Trim(table: map<int, AutonomousEvent>, retention: int): map<int, AutonomousEvent> {
    if retention < 0 then table
    else map k | k in table && |Newer(table, k)| < retention :: table[k]
  }

  function Rows(table: map<int, AutonomousEvent>, keys: seq<int>): (r: seq<AutonomousEvent>)
    requires forall i | 0 <= i < |keys| :: keys[i] in table
    ensures |r| == |keys| && forall i | 0 <= i < |keys| :: r[i] == table[keys[i]]
  {
    seq(|keys|, i requires 0 <= i < |keys| => table[keys[i]])
  }

  /** The newest rows in ascending order. */
  ghost function Recent(table: map<int, AutonomousEvent>, limit: int): seq<AutonomousEvent> {
    Tail(Rows(table, SortedSet(table.Keys, IntLeq)), limit)
  }

  // ---- The bus and one reader ----------------------------------------

  /** A bus, its store, and a reader that asks for what follows the last event it has seen. */
  datatype State = State(
    retention: nat,
    history: seq<AutonomousEvent>,
    counter: int,
    table: map<int, AutonomousEvent>,
    seen: int,
    collected: seq<AutonomousEvent>,
    skipped: int)

  datatype Operation =
    | Publish(detail: string)
    | Restart(retention: nat)
    | Poll(limit: int)

  function Since(history: seq<AutonomousEvent>, since: int): seq<AutonomousEvent> {
    if history == [] then []
    else (if history[0].sequence > since then [history[0]] else []) + Since(history[1..], since)
  }

  function PageSize(limit: int): nat {
    var size := if limit < PAGE_LIMIT then limit else PAGE_LIMIT;
    if size > 0 then size else 0
  }

  /** `replay`. */
  function Page(history: seq<AutonomousEvent>, since: int, limit: int): seq<AutonomousEvent> {
    var events := Since(history, since);
    if |events| <= PageSize(limit) then events else events[..PageSize(limit)]
  }

  function Publishing(st: State, storeRetention: int, detail: string): State {
    var e := AutonomousEvent(detail, st.counter + 1);
    st.(counter := st.counter + 1,
        history := Tail(st.history + [e], st.retention),
        table := Trim(st.table[e.sequence := e], storeRetention))
  }

  ghost function Restarting(st: State, retention: nat): State {
    var restored := Recent(st.table, retention);
    st.(retention := retention, history := Tail(restored, retention),
        counter := if restored == [] then 0 else restored[|restored| - 1].sequence)
  }

  /** The reader takes a page and counts the numbers that the page jumps over. */
  function Polling(st: State, limit: int): State {
    var page := Page(st.history, st.seen, limit);
    if page == [] then st
    else st.(seen := page[|page| - 1].sequence, collected := st.collected + page,
             skipped := st.skipped + page[0].sequence - st.seen - 1)
  }

  ghost function Apply(storeRetention: int, st: State, op: Operation): State {
    match op
    case Publish(detail) => Publishing(st, storeRetention, detail)
    case Restart(retention) => Restarting(st, retention)
    case Poll(limit) => Polling(st, limit)
  }

  ghost function After(storeRetention: int, retention: nat, ops: seq<Operation>): State
    decreases |ops|
  {
    if ops == [] then State(retention, [], 0, map[], 0, [], 0)
    else Apply(storeRetention, After(storeRetention, retention, ops[..|ops| - 1]), ops[|ops| - 1])
  }

  /** Every event that a run publishes, numbered from one. */
  function Log(ops: seq<Operation>): seq<AutonomousEvent>
    decreases |ops|
  {
    if ops == [] then [] else Logged(Log(ops[..|ops| - 1]), ops[|ops| - 1])
  }

  function Logged(log: seq<AutonomousEvent>, op: Operation): seq<AutonomousEvent> {
    if op.Publish? then log + [AutonomousEvent(op.detail, |log| + 1)] else log
  }

  // ---- The table is the end of the log -------------------------------

  ghost predicate Numbered(log: seq<AutonomousEvent>) {
    forall i | 0 <= i < |log| :: log[i].sequence == i + 1
  }

  ghost predicate TableHolds(table: map<int, AutonomousEvent>, log: seq<AutonomousEvent>, size: nat) {
    && size <= |log|
    && (forall k :: k in table <==> |log| - size < k <= |log|)
    && forall k | k in table :: table[k] == log[k - 1]
  }

  function Smaller(a: nat, b: int): nat {
    if 0 <= b < a then b else a
  }

  lemma {:induction false} IntervalSize(s: set<int>, lo: int, hi: int)
    requires lo <= hi && forall k :: k in s <==> lo < k <= hi
    ensures |s| == hi - lo
    decreases hi - lo
  {
    if lo == hi {
      assert forall k :: k !in s;
    } else {
      IntervalSize(s - {hi}, lo, hi - 1);
    }
  }

  lemma TrimKeepsNewest(table: map<int, AutonomousEvent>, log: seq<AutonomousEvent>, size: nat, retention: int)
    requires TableHolds(table, log, size)
    ensures TableHolds(Trim(table, retention), log, Smaller(size, retention))
  {
    forall k | k in table ensures |Newer(table, k)| == |log| - k {
      IntervalSize(Newer(table, k), k, |log|);
    }
  }

  lemma StoringHolds(table: map<int, AutonomousEvent>, log: seq<AutonomousEvent>, size: nat, e: AutonomousEvent,
                     retention: int)
    requires TableHolds(table, log, size) && e.sequence == |log| + 1
    ensures TableHolds(Trim(table[e.sequence := e], retention), log + [e], Smaller(size + 1, retention))
  {
    TrimKeepsNewest(table[e.sequence := e], log + [e], size + 1, retention);
  }

  lemma SortedKeys(keys: set<int>, lo: int, hi: int)
    requires lo <= hi && forall k :: k in keys <==> lo < k <= hi
    ensures
      var r := SortedSet(keys, IntLeq);
      |r| == hi - lo && forall i | 0 <= i < |r| :: r[i] == lo + 1 + i
  {
    hide Sort, SortedSet;
    var upto := Upto(lo, hi);
    SameAsUpto(keys, lo, hi);
    SortIsSortedSet(upto, keys, IntLeq);
    SortSorted(upto, IntLeq);
    SortedUnique(Sort(upto, IntLeq), upto, IntLeq);
  }

  function Upto(lo: int, hi: int): (r: seq<int>)
    requires lo <= hi
    ensures |r| == hi - lo && forall i | 0 <= i < |r| :: r[i] == lo + 1 + i
  {
    seq(hi - lo, i requires 0 <= i < hi - lo => lo + 1 + i)
  }

  lemma SameAsUpto(keys: set<int>, lo: int, hi: int)
    requires lo <= hi && forall k :: k in keys <==> lo < k <= hi
    ensures forall k :: k in Upto(lo, hi) <==> k in keys
    ensures NoDuplicates(Upto(lo, hi)) && SortedBy(Upto(lo, hi), IntLeq) && TotalOrder(IntLeq)
  {
    forall k ensures k in Upto(lo, hi) <==> k in keys {
      if k in keys {
        assert Upto(lo, hi)[k - lo - 1] == k;
      }
    }
  }

  lemma RowsAreEnd(table: map<int, AutonomousEvent>, log: seq<AutonomousEvent>, size: nat, keys: seq<int>)
    requires TableHolds(table, log, size) && |keys| == size
    requires forall i | 0 <= i < size :: keys[i] == |log| - size + 1 + i
    ensures Rows(table, keys) == log[|log| - size..]
  {
    forall i | 0 <= i < size ensures keys[i] in table && table[keys[i]] == log[|log| - size + i] {
      assert |log| - size < keys[i] <= |log|;
    }
  }

  lemma RecentIsTail(table: map<int, AutonomousEvent>, log: seq<AutonomousEvent>, size: nat, limit: int)
    requires TableHolds(table, log, size)
    ensures Recent(table, limit) == Tail(log, Smaller(size, limit))
  {
    SortedKeys(table.Keys, |log| - size, |log|);
    RowsAreEnd(table, log, size, SortedSet(table.Keys, IntLeq));
    TailOfEnd(log, size, limit);
    hide SortedSet, Rows, TableHolds, Tail;
  }

  lemma TailOfEnd(log: seq<AutonomousEvent>, size: nat, limit: int)
    requires size <= |log|
    ensures Tail(log[|log| - size..], limit) == Tail(log, Smaller(size, limit))
  {
    if 0 <= limit < size {
      assert log[|log| - size..][size - limit..] == log[|log| - limit..];
    }
  }

  // ---- The invariant -------------------------------------------------

  /** How much of the log a restart would find: a store without rows is only ever restarted over an empty log. */
  function Kept(size: nat, storeRetention: int): nat {
    if storeRetention == 0 then size else Smaller(size, storeRetention)
  }

  /** The history and the table are both ends of the log, and the counter is its length. */
  ghost predicate Consistent(st: State, storeRetention: int, log: seq<AutonomousEvent>) {
    && Numbered(log)
    && st.counter == |log|
    && |st.history| <= |log|
    && st.history == log[|log| - |st.history|..]
    && Smaller(Kept(|log|, storeRetention), st.retention) <= |st.history| <= st.retention
    && TableHolds(st.table, log, Smaller(|log|, storeRetention))
  }

  lemma PublishingConsistent(st: State, storeRetention: int, log: seq<AutonomousEvent>, detail: string)
    requires Consistent(st, storeRetention, log)
    ensures Consistent(Publishing(st, storeRetention, detail), storeRetention,
                       log + [AutonomousEvent(detail, |log| + 1)])
  {
    hide Trim, TableHolds;
    var e := AutonomousEvent(detail, st.counter + 1);
    StoringHolds(st.table, log, Smaller(|log|, storeRetention), e, storeRetention);
    assert st.history + [e] == (log + [e])[|log| - |st.history|..];
  }

  lemma RestartingConsistent(st: State, storeRetention: int, log: seq<AutonomousEvent>, retention: nat)
    requires Consistent(st, storeRetention, log) && Preserves(storeRetention, log, Restart(retention))
    ensures Consistent(Restarting(st, retention), storeRetention, log)
  {
    hide TableHolds, Recent;
    RecentIsTail(st.table, log, Smaller(|log|, storeRetention), retention);
    TailOfTail(log, Smaller(|log|, storeRetention), retention);
    hide Tail;
  }

  lemma TailOfTail(log: seq<AutonomousEvent>, size: nat, retention: nat)
    requires size <= |log|
    ensures
      var r, kept := Tail(log, Smaller(size, retention)), Smaller(size, retention);
      |r| == kept && r == log[|log| - kept..] && Tail(r, retention) == r
  {
  }

  /** A restart after something was published needs a bus and a store that retain something. */
  predicate Preserves(storeRetention: int, log: seq<AutonomousEvent>, op: Operation) {
    op.Restart? ==> log == [] || (op.retention >= 1 && storeRetention != 0)
  }

  /** In particular every run without a restart, with or without a store. */
  ghost predicate PreservesThroughout(storeRetention: int, ops: seq<Operation>) {
    forall n | 0 <= n < |ops| :: Preserves(storeRetention, Log(ops[..n]), ops[n])
  }

  lemma PreservedPrefix(storeRetention: int, ops: seq<Operation>)
    requires ops != [] && PreservesThroughout(storeRetention, ops)
    ensures PreservesThroughout(storeRetention, ops[..|ops| - 1])
    ensures Preserves(storeRetention, Log(ops[..|ops| - 1]), ops[|ops| - 1])
  {
    hide Log, Preserves;
    var before := ops[..|ops| - 1];
    forall n | 0 <= n < |before| ensures Preserves(storeRetention, Log(before[..n]), before[n]) {
      assert before[..n] == ops[..n];
    }
  }

  /**
   However publishing, restarting and reading interleave, the retained history has consecutive
   numbers and ends at the counter, and the counter counts every event that was ever published.
   */
  lemma {:induction false} RunsStayConsistent(storeRetention: int, retention: nat, ops: seq<Operation>)
    requires PreservesThroughout(storeRetention, ops)
    ensures Consistent(After(storeRetention, retention, ops), storeRetention, Log(ops))
    decreases |ops|
  {
    hide Consistent, Publishing, Restarting, Polling, PreservesThroughout;
    if ops == [] {
      InitiallyConsistent(storeRetention, retention);
    } else {
      var before, op := ops[..|ops| - 1], ops[|ops| - 1];
      PreservedPrefix(storeRetention, ops);
      RunsStayConsistent(storeRetention, retention, before);
      var st, log := After(storeRetention, retention, before), Log(before);
      match op
      case Publish(detail) => PublishingConsistent(st, storeRetention, log, detail);
      case Restart(r) => RestartingConsistent(st, storeRetention, log, r);
      case Poll(limit) => PollingConsistent(st, storeRetention, log, limit);
    }
  }

  lemma InitiallyConsistent(storeRetention: int, retention: nat)
    ensures Consistent(After(storeRetention, retention, []), storeRetention, [])
  {
  }

  lemma PollingConsistent(st: State, storeRetention: int, log: seq<AutonomousEvent>, limit: int)
    requires Consistent(st, storeRetention, log)
    ensures Consistent(Polling(st, limit), storeRetention, log)
  {
  }

  // ---- Restarts ------------------------------------------------------

  /** A store that keeps nothing holds no row. */
  lemma {:induction false} StoreOfNothing(retention: nat, ops: seq<Operation>)
    ensures After(0, retention, ops).table == map[]
    decreases |ops|
  {
    if ops != [] {
      StoreOfNothing(retention, ops[..|ops| - 1]);
    }
  }

  /** A restart finds nothing exactly when nothing was published, or the new bus or the store retains nothing. */
  lemma RestartStep(st: State, storeRetention: int, log: seq<AutonomousEvent>, next: nat)
    requires Consistent(st, storeRetention, log)
    ensures Restarting(st, next).counter == if Preserves(storeRetention, log, Restart(next)) then |log| else 0
  {
    hide TableHolds, Recent;
    RecentIsTail(st.table, log, Smaller(|log|, storeRetention), next);
  }

  /**
   A restart keeps the numbering exactly when nothing was published yet, or both the new bus and
   the store retain something; otherwise the numbering starts again at zero.
   */
  lemma RestartKeepsCounterExactly(storeRetention: int, retention: nat, ops: seq<Operation>, next: nat)
    requires PreservesThroughout(storeRetention, ops)
    ensures
      var st := After(storeRetention, retention, ops);
      && (Restarting(st, next).counter == st.counter <==> st.counter == 0 || (next >= 1 && storeRetention != 0))
      && (Restarting(st, next).counter != st.counter ==> Restarting(st, next).counter == 0)
  {
    RunsStayConsistent(storeRetention, retention, ops);
    RestartStep(After(storeRetention, retention, ops), storeRetention, Log(ops), next);
  }

  /** At every point of the run the counter is the number of events published so far. */
  ghost predicate CountsThroughout(storeRetention: int, retention: nat, ops: seq<Operation>) {
    forall n | 0 <= n <= |ops| :: After(storeRetention, retention, ops[..n]).counter == |Log(ops[..n])|
  }

  /** The numbering is right throughout a run exactly when every restart preserves it. */
  lemma NumberingKeptExactly(storeRetention: int, retention: nat, ops: seq<Operation>)
    ensures CountsThroughout(storeRetention, retention, ops) <==> PreservesThroughout(storeRetention, ops)
  {
    if PreservesThroughout(storeRetention, ops) {
      forall n | 0 <= n <= |ops| ensures After(storeRetention, retention, ops[..n]).counter == |Log(ops[..n])| {
        PreservedUpTo(storeRetention, ops, n);
        RunsStayConsistent(storeRetention, retention, ops[..n]);
      }
    } else if CountsThroughout(storeRetention, retention, ops) {
      WrongRestartShows(storeRetention, retention, ops);
    }
  }

  lemma PreservedUpTo(storeRetention: int, ops: seq<Operation>, n: nat)
    requires n <= |ops| && PreservesThroughout(storeRetention, ops)
    ensures PreservesThroughout(storeRetention, ops[..n])
  {
    hide Log, Preserves;
    forall i | 0 <= i < n ensures Preserves(storeRetention, Log(ops[..n][..i]), ops[..n][i]) {
      assert ops[..n][..i] == ops[..i];
    }
  }

  lemma {:induction false} WrongRestartShows(storeRetention: int, retention: nat, ops: seq<Operation>)
    requires CountsThroughout(storeRetention, retention, ops)
    ensures PreservesThroughout(storeRetention, ops)
    decreases |ops|
  {
    if ops != [] {
      hide After, Log, Preserves;
      CountsPrefix(storeRetention, retention, ops);
      WrongRestartShows(storeRetention, retention, ops[..|ops| - 1]);
      LastRestartShows(storeRetention, retention, ops);
      PreservesExtended(storeRetention, ops);
    }
  }

  lemma CountsPrefix(storeRetention: int, retention: nat, ops: seq<Operation>)
    requires ops != [] && CountsThroughout(storeRetention, retention, ops)
    ensures CountsThroughout(storeRetention, retention, ops[..|ops| - 1])
    ensures After(storeRetention, retention, ops).counter == |Log(ops)|
  {
    hide After, Log;
    var before := ops[..|ops| - 1];
    forall n | 0 <= n <= |before| ensures After(storeRetention, retention, before[..n]).counter == |Log(before[..n])| {
      assert before[..n] == ops[..n];
    }
    assert ops[..|ops|] == ops;
  }

  lemma PreservesExtended(storeRetention: int, ops: seq<Operation>)
    requires ops != [] && PreservesThroughout(storeRetention, ops[..|ops| - 1])
    requires Preserves(storeRetention, Log(ops[..|ops| - 1]), ops[|ops| - 1])
    ensures PreservesThroughout(storeRetention, ops)
  {
    hide Log, Preserves;
    var before := ops[..|ops| - 1];
    forall n | 0 <= n < |ops| ensures Preserves(storeRetention, Log(ops[..n]), ops[n]) {
      if n < |before| {
        assert before[..n] == ops[..n] && before[n] == ops[n];
      }
    }
  }

  lemma LastRestartShows(storeRetention: int, retention: nat, ops: seq<Operation>)
    requires ops != [] && PreservesThroughout(storeRetention, ops[..|ops| - 1])
    requires After(storeRetention, retention, ops).counter == |Log(ops)|
    ensures Preserves(storeRetention, Log(ops[..|ops| - 1]), ops[|ops| - 1])
  {
    hide Consistent, Restarting;
    var before, op := ops[..|ops| - 1], ops[|ops| - 1];
    RunsStayConsistent(storeRetention, retention, before);
    if op.Restart? {
      RestartStep(After(storeRetention, retention, before), storeRetention, Log(before), op.retention);
    }
  }

  /** One event, and then a restart on a store that keeps nothing: the next event is number one again. */
  lemma RestartReusesNumber(retention: nat, next: nat, first: string, second: string)
    requires retention >= 1 && next >= 1
    ensures
      var ops := [Publish(first), Restart(next), Publish(second)];
      && Log(ops) == [AutonomousEvent(first, 1), AutonomousEvent(second, 2)]
      && After(0, retention, ops).history == [AutonomousEvent(second, 1)]
  {
    var a, b, c := Publish(first), Restart(next), Publish(second);
    var one := [a, b];
    assert [a, b, c][..2] == one && one[..1] == [a] && [a][..0] == [];
    assert After(0, retention, [a]).counter == 1;
    assert After(0, retention, [a]).table == map[] by {
      StoreOfNothing(retention, [a]);
    }
    var table: map<int, AutonomousEvent> := map[];
    SortedKeys(table.Keys, 0, 0);
    assert After(0, retention, one).counter == 0 && After(0, retention, one).history == [];
    assert After(0, retention, [a, b, c]) == Apply(0, After(0, retention, one), c);
    assert Log([a]) == [AutonomousEvent(first, 1)] && Log(one) == Log([a]);
    assert Log([a, b, c]) == Logged(Log(one), c);
  }

  // ---- Paging --------------------------------------------------------

  lemma {:induction false} SinceIsSuffix(history: seq<AutonomousEvent>, first: int, since: int)
    requires forall i | 0 <= i < |history| :: history[i].sequence == first + i
    ensures
      var skip := since + 1 - first;
      Since(history, since) == if skip <= 0 then history else if skip < |history| then history[skip..] else []
  {
    if history != [] {
      SinceIsSuffix(history[1..], first + 1, since);
    }
  }

  lemma PageSlice(st: State, storeRetention: int, log: seq<AutonomousEvent>, since: nat, limit: int)
    requires Consistent(st, storeRetention, log) && since <= |log|
    ensures
      var evicted := |log| - |st.history|;
      var from := if since > evicted then since else evicted;
      var to := if |log| - from <= PageSize(limit) then |log| else from + PageSize(limit);
      Page(st.history, since, limit) == log[from..to]
  {
    hide TableHolds, Since;
    var evicted := |log| - |st.history|;
    var from := if since > evicted then since else evicted;
    assert forall i | 0 <= i < |st.history| :: st.history[i] == log[evicted + i];
    SinceIsSuffix(st.history, evicted + 1, since);
    assert Since(st.history, since) == log[from..];
  }

  /** A page is the stretch of the log after the later of the last event seen and the last event evicted. */
  lemma PageIsLogSlice(st: State, storeRetention: int, log: seq<AutonomousEvent>, since: nat, limit: int)
    requires Consistent(st, storeRetention, log) && since <= |log|
    ensures
      var evicted := |log| - |st.history|;
      var from := if since > evicted then since else evicted;
      var size := if limit <= 0 then 0 else if limit <= 1000 then limit else 1000;
      var to := if |log| - from <= size then |log| else from + size;
      Page(st.history, since, limit) == log[from..to]
  {
    PageSlice(st, storeRetention, log, since, limit);
    hide Page, Consistent;
  }

  /** What the reader holds: a strictly ascending part of the log up to `seen`, and a count of the rest. */
  ghost predicate Accounted(st: State, log: seq<AutonomousEvent>) {
    && 0 <= st.seen <= |log|
    && |st.collected| + st.skipped == st.seen
    && st.skipped >= 0
    && (forall i, j | 0 <= i < j < |st.collected| :: st.collected[i].sequence < st.collected[j].sequence)
    && (forall i | 0 <= i < |st.collected| ::
          var e := st.collected[i];
          i < e.sequence <= st.seen && e == log[e.sequence - 1])
  }

  lemma PollingAccounted(st: State, storeRetention: int, log: seq<AutonomousEvent>, limit: int)
    requires Consistent(st, storeRetention, log) && Accounted(st, log)
    ensures Accounted(Polling(st, limit), log)
  {
    var evicted := |log| - |st.history|;
    var from := if st.seen > evicted then st.seen else evicted;
    var to := if |log| - from <= PageSize(limit) then |log| else from + PageSize(limit);
    PageSlice(st, storeRetention, log, st.seen, limit);
    assert Numbered(log) && st.seen <= from <= to <= |log|;
    hide Consistent, Page, PageSize, Accounted, Numbered;
    ReadingAccounted(st, log, from, to, Page(st.history, st.seen, limit));
  }

  lemma ReadingAccounted(st: State, log: seq<AutonomousEvent>, from: nat, to: nat, page: seq<AutonomousEvent>)
    requires Numbered(log) && Accounted(st, log) && st.seen <= from <= to <= |log| && page == log[from..to]
    ensures page != [] ==>
              Accounted(st.(seen := page[|page| - 1].sequence, collected := st.collected + page,
                            skipped := st.skipped + page[0].sequence - st.seen - 1), log)
  {
    assert forall i | 0 <= i < |page| :: page[i] == log[from + i] && page[i].sequence == from + i + 1;
  }

  /**
   Over every run of publications, restarts and polls the reader gets each event at most once, in
   order and as it was published, and every number up to the last one seen was either read or
   counted as evicted before it could be read.
   */
  lemma {:induction false} ReaderAccounts(storeRetention: int, retention: nat, ops: seq<Operation>)
    requires PreservesThroughout(storeRetention, ops)
    ensures Accounted(After(storeRetention, retention, ops), Log(ops))
    decreases |ops|
  {
    if ops != [] {
      hide Accounted, Consistent, Apply, PreservesThroughout;
      var before, op := ops[..|ops| - 1], ops[|ops| - 1];
      PreservedPrefix(storeRetention, ops);
      ReaderAccounts(storeRetention, retention, before);
      RunsStayConsistent(storeRetention, retention, before);
      StepAccounted(After(storeRetention, retention, before), storeRetention, Log(before), op);
    }
  }

  lemma StepAccounted(st: State, storeRetention: int, log: seq<AutonomousEvent>, op: Operation)
    requires Consistent(st, storeRetention, log) && Accounted(st, log)
    ensures Accounted(Apply(storeRetention, st, op), Logged(log, op))
  {
    hide Trim, Recent, Polling;
    if op.Poll? {
      PollingAccounted(st, storeRetention, log, op.limit);
    }
  }

  /** The reader holds the whole log up to the last event seen exactly when nothing was evicted before it was read. */
  lemma GaplessExactly(st: State, log: seq<AutonomousEvent>)
    requires Accounted(st, log)
    ensures 0 <= st.seen <= |log|
    ensures st.collected == log[..st.seen] <==> st.skipped == 0
  {
    if st.skipped == 0 {
      AscendingIsDense(st.collected, st.seen);
    }
  }

  lemma {:induction false} AscendingIsDense(events: seq<AutonomousEvent>, seen: int)
    requires |events| == seen
    requires forall i, j | 0 <= i < j < |events| :: events[i].sequence < events[j].sequence
    requires forall i | 0 <= i < |events| :: i < events[i].sequence <= seen
    ensures forall i | 0 <= i < |events| :: events[i].sequence == i + 1
    decreases |events|
  {
    if events != [] {
      var rest := events[..|events| - 1];
      assert forall i | 0 <= i < |rest| :: events[i].sequence < events[|rest|].sequence;
      AscendingIsDense(rest, seen - 1);
    }
  }

  /**
   A poll skips numbers exactly when it returns something and an unread event was evicted, and the
   reader advances exactly when something is unread and both the page and the history have room.
   */
  lemma SkipsExactlyEvicted(st: State, storeRetention: int, log: seq<AutonomousEvent>, limit: int)
    requires Consistent(st, storeRetention, log) && Accounted(st, log)
    ensures
      var evicted := |log| - |st.history|;
      && Polling(st, limit).skipped >= st.skipped
      && (Polling(st, limit).skipped > st.skipped <==> st.seen < evicted && PageSize(limit) > 0 && st.retention > 0)
      && (Polling(st, limit).seen == st.seen <==> st.seen == |log| || PageSize(limit) == 0 || st.retention == 0)
  {
    hide TableHolds, Page;
    PageSlice(st, storeRetention, log, st.seen, limit);
    var page := Page(st.history, st.seen, limit);
    if page != [] {
      assert page[|page| - 1].sequence == page[0].sequence + |page| - 1;
    }
  }

  /** The store, if there is one, and the first bus have room for this many events. */
  predicate Roomy(storeRetention: int, retention: nat, published: nat) {
    published <= retention && (storeRetention <= 0 || published <= storeRetention)
  }

  /** While the store and every history have room for all that is published, the reader never skips anything. */
  lemma {:induction false} NoGapWithoutEviction(storeRetention: int, retention: nat, ops: seq<Operation>,
                                                published: nat)
    requires PreservesThroughout(storeRetention, ops) && |Log(ops)| <= published
    requires Roomy(storeRetention, retention, published)
    requires forall op | op in ops && op.Restart? :: published <= op.retention
    ensures
      var st := After(storeRetention, retention, ops);
      && 0 <= st.seen <= |Log(ops)| && st.collected == Log(ops)[..st.seen]
      && st.skipped == 0 && st.retention >= published
    decreases |ops|
  {
    hide Consistent, Accounted, Apply, PreservesThroughout;
    ReaderAccounts(storeRetention, retention, ops);
    if ops != [] {
      var before, op := ops[..|ops| - 1], ops[|ops| - 1];
      PreservedPrefix(storeRetention, ops);
      NoGapWithoutEviction(storeRetention, retention, before, published);
      ReaderAccounts(storeRetention, retention, before);
      RunsStayConsistent(storeRetention, retention, before);
      RoomyStepSkipsNothing(After(storeRetention, retention, before), storeRetention, Log(before), op, published);
    }
    GaplessExactly(After(storeRetention, retention, ops), Log(ops));
  }

  lemma RoomyStepSkipsNothing(st: State, storeRetention: int, log: seq<AutonomousEvent>, op: Operation, published: nat)
    requires Consistent(st, storeRetention, log) && Accounted(st, log) && |log| <= published
    requires Roomy(storeRetention, st.retention, published) && (op.Restart? ==> published <= op.retention)
    ensures
      var st' := Apply(storeRetention, st, op);
      st'.skipped == st.skipped && st'.retention >= published
  {
    hide Trim, Recent, Page, TableHolds;
    if op.Poll? {
      SkipsExactlyEvicted(st, storeRetention, log, op.limit);
    }
  }
}
