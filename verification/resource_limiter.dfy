/**
 `AgentResourceLimiter`: a deque pruned on demand against the full log of admissions, and the
 in-flight counter of actions. Clocks are parameters.
 */
module ResourceLimiter {
  import opened Wrappers

  type AgentId = string

  const WINDOW := 60.0

  // ---- The sliding window as a function ------------------------------

  function Expire(bucket: seq<real>, now: real): seq<real> {
    if bucket != [] && now - bucket[0] >= WINDOW then Expire(bucket[1..], now) else bucket
  }

  /** One call of `_within`. */
  function Within(bucket: seq<real>, limit: real, now: real): (seq<real>, bool) {
    var kept := Expire(bucket, now);
    if |kept| as real >= limit then (kept, false) else (kept + [now], true)
  }

  /** The reference: the log of every admission, never pruned. */
  function Recent(log: seq<real>, now: real): seq<real> {
    if log == [] then []
    else (if now - log[0] < 60.0 then [log[0]] else []) + Recent(log[1..], now)
  }

  function Admit(log: seq<real>, limit: real, now: real): seq<real> {
    if |Recent(log, now)| as real < limit then log + [now] else log
  }

  ghost predicate InOrder(times: seq<real>) {
    forall i, j | 0 <= i < j < |times| :: times[i] <= times[j]
  }

  /** The bucket and the log after calls at the given times. */
  ghost function Bucket(limit: real, calls: seq<real>): seq<real> {
    if calls == [] then [] else Within(Bucket(limit, calls[..|calls| - 1]), limit, calls[|calls| - 1]).0
  }

  ghost function Log(limit: real, calls: seq<real>): seq<real> {
    if calls == [] then [] else Admit(Log(limit, calls[..|calls| - 1]), limit, calls[|calls| - 1])
  }

  // ---- The deque agrees with the log ---------------------------------

  lemma {:induction false} NothingRecent(log: seq<real>, now: real)
    requires forall i | 0 <= i < |log| :: now - log[i] < WINDOW
    ensures Recent(log, now) == log && Expire(log, now) == log
  {
    if log != [] {
      NothingRecent(log[1..], now);
    }
  }

  lemma {:induction false} ExpireIsRecent(log: seq<real>, now: real)
    requires InOrder(log)
    ensures Expire(log, now) == Recent(log, now)
  {
    if log != [] {
      if now - log[0] >= WINDOW {
        ExpireIsRecent(log[1..], now);
      } else {
        NothingRecent(log, now);
      }
    }
  }

  lemma {:induction false} ExpireTwice(log: seq<real>, t: real, now: real)
    requires t <= now
    ensures Expire(Expire(log, t), now) == Expire(log, now)
  {
    if log != [] && t - log[0] >= WINDOW {
      ExpireTwice(log[1..], t, now);
    }
  }

  lemma {:induction false} ExpireAppend(log: seq<real>, now: real)
    requires forall i | 0 <= i < |log| :: log[i] <= now
    ensures Expire(log + [now], now) == Expire(log, now) + [now]
  {
    if log != [] {
      assert (log + [now])[1..] == log[1..] + [now];
      if now - log[0] >= WINDOW {
        ExpireAppend(log[1..], now);
      }
    }
  }

  lemma {:induction false} LogIsOrdered(limit: real, calls: seq<real>)
    requires InOrder(calls)
    ensures InOrder(Log(limit, calls))
    ensures calls != [] ==> forall i | 0 <= i < |Log(limit, calls)| :: Log(limit, calls)[i] <= calls[|calls| - 1]
    ensures calls == [] ==> Log(limit, calls) == []
  {
    if calls != [] {
      LogIsOrdered(limit, calls[..|calls| - 1]);
    }
  }

  /** The pruned bucket always holds exactly the admissions of the last sixty seconds. */
  lemma {:induction false} BucketIsRecentLog(limit: real, calls: seq<real>)
    requires InOrder(calls) && calls != []
    ensures Bucket(limit, calls) == Recent(Log(limit, calls), calls[|calls| - 1])
    decreases |calls|, 0
  {
    var before, now := calls[..|calls| - 1], calls[|calls| - 1];
    var log := Log(limit, before);
    LogIsOrdered(limit, before);
    LogIsOrdered(limit, calls);
    DecisionsAgree(limit, before, now);
    ExpireIsRecent(Log(limit, calls), now);
    if |Recent(log, now)| as real < limit {
      ExpireAppend(log, now);
      ExpireIsRecent(log, now);
    }
  }

  /** A call is admitted exactly when the full log holds fewer than `limit` admissions of the last sixty seconds. */
  lemma DecisionsAgree(limit: real, before: seq<real>, now: real)
    requires InOrder(before) && (before != [] ==> before[|before| - 1] <= now)
    ensures Expire(Bucket(limit, before), now) == Recent(Log(limit, before), now)
    ensures Within(Bucket(limit, before), limit, now).1 <==> |Recent(Log(limit, before), now)| as real < limit
    decreases |before|, 1
  {
    LogIsOrdered(limit, before);
    ExpireIsRecent(Log(limit, before), now);
    if before != [] {
      var last := before[|before| - 1];
      BucketIsRecentLog(limit, before);
      ExpireIsRecent(Log(limit, before), last);
      ExpireTwice(Log(limit, before), last, now);
    }
  }

  // ---- Admissions per window -----------------------------------------

  lemma {:induction false} RecentKeepsSuffix(log: seq<real>, now: real, i: nat)
    requires InOrder(log) && i < |log| && now - log[i] < WINDOW
    ensures |Recent(log, now)| >= |log| - i
  {
    if i > 0 {
      RecentKeepsSuffix(log[1..], now, i - 1);
    } else {
      NothingRecent(log, now);
    }
  }

  /** Admissions less than sixty seconds apart are fewer than `limit + 1`. */
  lemma {:induction false} AdmissionsSpaced(limit: real, calls: seq<real>, i: nat, j: nat)
    requires InOrder(calls) && i <= j < |Log(limit, calls)|
    requires Log(limit, calls)[j] - Log(limit, calls)[i] < 60.0
    ensures (j - i + 1) as real < limit + 1.0
  {
    var before, now := calls[..|calls| - 1], calls[|calls| - 1];
    var log := Log(limit, before);
    if j < |log| {
      AdmissionsSpaced(limit, before, i, j);
    } else if i < j {
      LogIsOrdered(limit, before);
      RecentKeepsSuffix(log, now, i);
    }
  }

  predicate InMinute(t: real, begin: real) {
    begin <= t < begin + 60.0
  }

  function CountInMinute(log: seq<real>, begin: real): nat {
    if log == [] then 0
    else CountInMinute(log[..|log| - 1], begin) + (if InMinute(log[|log| - 1], begin) then 1 else 0)
  }

  lemma {:induction false} CountSpans(log: seq<real>, begin: real) returns (lo: nat, hi: nat)
    requires CountInMinute(log, begin) > 0
    ensures lo <= hi < |log| && InMinute(log[lo], begin) && InMinute(log[hi], begin)
    ensures CountInMinute(log, begin) <= hi - lo + 1
  {
    var rest := log[..|log| - 1];
    lo, hi := |rest|, |rest|;
    if CountInMinute(rest, begin) > 0 {
      lo, hi := CountSpans(rest, begin);
      if InMinute(log[|rest|], begin) {
        hi := |rest|;
      }
    }
  }

  /** No half-open minute, wherever it begins, holds `limit + 1` admissions or more. */
  lemma MinuteHoldsAtMostLimit(limit: real, calls: seq<real>, begin: real)
    requires InOrder(calls)
    ensures
      var count := CountInMinute(Log(limit, calls), begin);
      count == 0 || count as real < limit + 1.0
  {
    if CountInMinute(Log(limit, calls), begin) > 0 {
      var lo, hi := CountSpans(Log(limit, calls), begin);
      AdmissionsSpaced(limit, calls, lo, hi);
    }
  }

  // ---- Actions in flight ---------------------------------------------

  datatype Limits = Limits(
    maxEventRate: Option<real>,
    maxRuntime: Option<real>,
    maxConcurrentActions: Option<real>,
    maxActionsPerMinute: Option<real>)

  /** The part of the limiter that concerns the actions of one agent. */
  datatype Activity = Activity(active: int, actions: seq<real>)

  type ActionId = nat

  /** A call of `begin_action` or `end_action` and the action that it is made for; the limiter is not told which. */
  datatype Operation = Begin(action: ActionId, now: real, age: real) | End(action: ActionId)

  /** `begin_action`: the run time, then the concurrency, then the rate. */
  function BeginAction(a: Activity, limits: Limits, now: real, age: real): (Activity, bool) {
    if limits.maxRuntime.Some? && age >= limits.maxRuntime.value then (a, false)
    else if limits.maxConcurrentActions.Some? && a.active as real >= limits.maxConcurrentActions.value then (a, false)
    else if limits.maxActionsPerMinute.Some? then
      var (actions, allowed) := Within(a.actions, limits.maxActionsPerMinute.value, now);
      (Activity(if allowed then a.active + 1 else a.active, actions), allowed)
    else (Activity(a.active + 1, a.actions), true)
  }

  function EndAction(a: Activity): Activity {
    a.(active := if a.active - 1 > 0 then a.active - 1 else 0)
  }

  /** What a run leaves: the activity, the actions that began and did not end, and when every action began. */
  datatype Account = Account(activity: Activity, flight: multiset<ActionId>, log: seq<real>)

  const IDLE := Account(Activity(0, []), multiset{}, [])

  function Perform(acc: Account, limits: Limits, op: Operation): Account {
    match op
    case Begin(action, now, age) =>
      var (a, ok) := BeginAction(acc.activity, limits, now, age);
      Account(a, if ok then acc.flight + multiset{action} else acc.flight, if ok then acc.log + [now] else acc.log)
    case End(action) => Account(EndAction(acc.activity), acc.flight - multiset{action}, acc.log)
  }

  function PerformAll(limits: Limits, ops: seq<Operation>): Account {
    if ops == [] then IDLE else Perform(PerformAll(limits, ops[..|ops| - 1]), limits, ops[|ops| - 1])
  }

  /** An end that belongs to no action in flight, while another action is. */
  predicate StealsAPlace(acc: Account, op: Operation) {
    op.End? && op.action !in acc.flight && acc.flight != multiset{}
  }

  /** How many of the ends steal a place. */
  function Stolen(limits: Limits, ops: seq<Operation>): nat {
    if ops == [] then 0
    else
      var before := ops[..|ops| - 1];
      Stolen(limits, before) + (if StealsAPlace(PerformAll(limits, before), ops[|ops| - 1]) then 1 else 0)
  }

  /**
   In every run the counter is never above the number of actions in flight and stays within the
   concurrency limit; the actions in flight exceed it by no more than the places that stray ends stole.
   */
  lemma {:induction false} ActionsInFlight(limits: Limits, ops: seq<Operation>)
    ensures
      var acc := PerformAll(limits, ops);
      && 0 <= acc.activity.active <= |acc.flight| <= acc.activity.active + Stolen(limits, ops)
      && (limits.maxConcurrentActions.Some? ==>
            || acc.activity.active == 0
            || acc.activity.active as real < limits.maxConcurrentActions.value + 1.0)
  {
    if ops != [] {
      ActionsInFlight(limits, ops[..|ops| - 1]);
      BoundsStep(PerformAll(limits, ops[..|ops| - 1]), limits, ops[|ops| - 1]);
      hide Perform, StealsAPlace;
    }
  }

  lemma BoundsStep(acc: Account, limits: Limits, op: Operation)
    requires 0 <= acc.activity.active <= |acc.flight|
    ensures
      var acc', stolen := Perform(acc, limits, op), if StealsAPlace(acc, op) then 1 else 0;
      && 0 <= acc'.activity.active <= |acc'.flight|
      && |acc'.flight| - acc'.activity.active <= |acc.flight| - acc.activity.active + stolen
      && (acc'.activity.active <= acc.activity.active
          || (limits.maxConcurrentActions.Some? ==>
                acc'.activity.active as real < limits.maxConcurrentActions.value + 1.0))
  {
    hide Within;
    FlightStep(acc, limits, op);
  }

  lemma FlightStep(acc: Account, limits: Limits, op: Operation)
    ensures |Perform(acc, limits, op).flight| ==
      match op
      case Begin(_, now, age) => |acc.flight| + (if BeginAction(acc.activity, limits, now, age).1 then 1 else 0)
      case End(action) => |acc.flight| - (if action in acc.flight then 1 else 0)
  {
    hide BeginAction;
    if op.End? && op.action in acc.flight {
      assert acc.flight == (acc.flight - multiset{op.action}) + multiset{op.action};
    } else if op.End? {
      assert acc.flight - multiset{op.action} == acc.flight;
    }
  }

  /** At every point of the run the counter is the number of actions in flight. */
  ghost predicate CountsThroughout(limits: Limits, ops: seq<Operation>) {
    forall n | 0 <= n <= |ops| ::
      PerformAll(limits, ops[..n]).activity.active == |PerformAll(limits, ops[..n]).flight|
  }

  /** The counter is right throughout a run exactly when every stray end comes while nothing is in flight. */
  lemma {:induction false} CounterRightExactly(limits: Limits, ops: seq<Operation>)
    ensures CountsThroughout(limits, ops) <==> Stolen(limits, ops) == 0
  {
    hide PerformAll, StealsAPlace;
    assert ops[..|ops|] == ops;
    if ops == [] {
      ActionsInFlight(limits, []);
    } else {
      var before, op := ops[..|ops| - 1], ops[|ops| - 1];
      assert forall n | 0 <= n <= |before| :: before[..n] == ops[..n];
      CounterRightExactly(limits, before);
      CounterStep(limits, ops);
      if CountsThroughout(limits, before) && Stolen(limits, ops) == 0 {
        forall n | 0 <= n <= |ops|
          ensures PerformAll(limits, ops[..n]).activity.active == |PerformAll(limits, ops[..n]).flight|
        {
          assert n <= |before| ==> ops[..n] == before[..n];
        }
      }
    }
  }

  lemma CounterStep(limits: Limits, ops: seq<Operation>)
    requires ops != []
    ensures
      var acc, acc' := PerformAll(limits, ops[..|ops| - 1]), PerformAll(limits, ops);
      acc.activity.active == |acc.flight| ==>
        (acc'.activity.active == |acc'.flight| <==> !StealsAPlace(acc, ops[|ops| - 1]))
  {
    FlightStep(PerformAll(limits, ops[..|ops| - 1]), limits, ops[|ops| - 1]);
  }

  /** With one action allowed at a time, the end of one that never began lets a second in beside the first. */
  lemma StrayEndBreaksLimit(now: real, age: real)
    ensures
      var limits := Limits(None, None, Some(1.0), None);
      var acc := PerformAll(limits, [Begin(0, now, age), End(7), Begin(1, now, age)]);
      acc.activity.active == 1 && acc.flight == multiset{0, 1}
  {
    hide PerformAll;
    var limits := Limits(None, None, Some(1.0), None);
    PerformThree(limits, Begin(0, now, age), End(7), Begin(1, now, age));
    var first := Perform(IDLE, limits, Begin(0, now, age));
    assert first == Account(Activity(1, []), multiset{0}, [now]);
    var second := Perform(first, limits, End(7));
    assert second == Account(Activity(0, []), multiset{0}, [now]);
    assert Perform(second, limits, Begin(1, now, age)) == Account(Activity(1, []), multiset{0, 1}, [now] + [now]);
  }

  lemma PerformThree(limits: Limits, a: Operation, b: Operation, c: Operation)
    ensures PerformAll(limits, [a, b, c]) == Perform(Perform(Perform(IDLE, limits, a), limits, b), limits, c)
  {
    hide Perform;
    PerformMore(limits, [], a);
    PerformMore(limits, [a], b);
    PerformMore(limits, [a, b], c);
    assert [] + [a] == [a] && [a] + [b] == [a, b] && [a, b] + [c] == [a, b, c];
  }

  lemma PerformMore(limits: Limits, ops: seq<Operation>, op: Operation)
    ensures PerformAll(limits, ops + [op]) == Perform(PerformAll(limits, ops), limits, op)
  {
    assert (ops + [op])[..|ops|] == ops;
  }

  // ---- When an action may begin --------------------------------------

  /** The calls of a run come one after the other, and none after `now`. */
  ghost predicate CallsUntil(ops: seq<Operation>, now: real) {
    && (forall i | 0 <= i < |ops| && ops[i].Begin? :: ops[i].now <= now)
    && (forall i, j | 0 <= i < j < |ops| && ops[i].Begin? && ops[j].Begin? :: ops[i].now <= ops[j].now)
  }

  lemma CallsPrefix(ops: seq<Operation>, now: real)
    requires ops != [] && CallsUntil(ops, now)
    ensures
      var before, op := ops[..|ops| - 1], ops[|ops| - 1];
      CallsUntil(before, now) && (op.Begin? ==> op.now <= now && CallsUntil(before, op.now))
  {
    var before := ops[..|ops| - 1];
    assert forall i | 0 <= i < |before| :: before[i] == ops[i];
  }

  /** The begun actions are logged in order, and the bucket holds those of the last sixty seconds. */
  ghost predicate BucketTells(acc: Account, now: real) {
    && InOrder(acc.log) && (forall i | 0 <= i < |acc.log| :: acc.log[i] <= now)
    && Expire(acc.activity.actions, now) == Recent(acc.log, now)
  }

  lemma {:induction false} BucketIsRecentBegins(limits: Limits, ops: seq<Operation>, now: real)
    requires limits.maxActionsPerMinute.Some? && CallsUntil(ops, now)
    ensures BucketTells(PerformAll(limits, ops), now)
    decreases |ops|
  {
    if ops != [] {
      hide BucketTells, CallsUntil, Perform;
      var before, op := ops[..|ops| - 1], ops[|ops| - 1];
      CallsPrefix(ops, now);
      BucketIsRecentBegins(limits, before, now);
      if op.Begin? {
        BucketIsRecentBegins(limits, before, op.now);
      }
      BucketStep(PerformAll(limits, before), limits, op, now);
    }
  }

  lemma BucketStep(acc: Account, limits: Limits, op: Operation, now: real)
    requires limits.maxActionsPerMinute.Some? && BucketTells(acc, now)
    requires op.Begin? ==> op.now <= now && BucketTells(acc, op.now)
    ensures BucketTells(Perform(acc, limits, op), now)
  {
    hide Expire, Recent;
    if op.Begin? {
      ExpireTwice(acc.activity.actions, op.now, now);
      ExpireIsRecent(acc.log, op.now);
      ExpireAppend(acc.log, op.now);
      ExpireTwice(acc.log + [op.now], op.now, now);
      ExpireIsRecent(acc.log + [op.now], now);
    }
  }

  /**
   After any run whose calls come in order, an action may begin exactly when the run time of the agent is not
   over, its counter is below the concurrency limit, and fewer of its actions than the rate limit began in the
   last sixty seconds; a limit that is not set limits nothing.
   */
  lemma BeginsExactly(limits: Limits, ops: seq<Operation>, now: real, age: real)
    requires CallsUntil(ops, now)
    ensures
      var acc := PerformAll(limits, ops);
      BeginAction(acc.activity, limits, now, age).1 <==>
        && (limits.maxRuntime.Some? ==> age < limits.maxRuntime.value)
        && (limits.maxConcurrentActions.Some? ==> acc.activity.active as real < limits.maxConcurrentActions.value)
        && (limits.maxActionsPerMinute.Some? ==> |Recent(acc.log, now)| as real < limits.maxActionsPerMinute.value)
  {
    if limits.maxActionsPerMinute.Some? {
      BucketIsRecentBegins(limits, ops, now);
    }
    hide PerformAll, Expire, Recent;
  }

  // ---- The class -----------------------------------------------------

  function Lookup<V>(m: map<AgentId, V>, k: AgentId, default: V): V {
    if k in m then m[k] else default
  }

  class AgentResourceLimiter {
    var events: map<AgentId, seq<real>>
    var actions: map<AgentId, seq<real>>
    var active: map<AgentId, int>

    constructor ()
      ensures events == map[] && actions == map[] && active == map[]
    {
      events, actions, active := map[], map[], map[];
    }

    function ActivityOf(agent: AgentId): Activity
      reads this
    {
      Activity(Lookup(active, agent, 0), Lookup(actions, agent, []))
    }

    static method Admits(bucket: seq<real>, limit: real, now: real) returns (bucket': seq<real>, allowed: bool)
      ensures (bucket', allowed) == Within(bucket, limit, now)
    {
      bucket' := bucket;
      while bucket' != [] && now - bucket'[0] >= WINDOW
        invariant Expire(bucket', now) == Expire(bucket, now)
        decreases |bucket'|
      {
        bucket' := bucket'[1..];
      }
      if |bucket'| as real >= limit {
        return bucket', false;
      }
      return bucket' + [now], true;
    }

    method AllowEvent(agent: AgentId, limits: Limits, now: real) returns (allowed: bool)
      modifies this
      ensures actions == old(actions) && active == old(active)
      ensures limits.maxEventRate.None? ==> allowed && events == old(events)
      ensures limits.maxEventRate.Some? ==>
        var (bucket, ok) := Within(Lookup(old(events), agent, []), limits.maxEventRate.value, now);
        allowed == ok && events == old(events)[agent := bucket]
    {
      if limits.maxEventRate.None? {
        return true;
      }
      var bucket;
      bucket, allowed := Admits(Lookup(events, agent, []), limits.maxEventRate.value, now);
      events := events[agent := bucket];
    }

    method StartAction(agent: AgentId, limits: Limits, now: real, age: real) returns (allowed: bool)
      modifies this
      ensures events == old(events)
      ensures (ActivityOf(agent), allowed) == BeginAction(old(ActivityOf(agent)), limits, now, age)
      ensures forall other | other != agent :: ActivityOf(other) == old(ActivityOf(other))
    {
      if limits.maxRuntime.Some? && age >= limits.maxRuntime.value {
        return false;
      }
      if limits.maxConcurrentActions.Some? && Lookup(active, agent, 0) as real >= limits.maxConcurrentActions.value {
        return false;
      }
      if limits.maxActionsPerMinute.Some? {
        var bucket, ok := Admits(Lookup(actions, agent, []), limits.maxActionsPerMinute.value, now);
        actions := actions[agent := bucket];
        if !ok {
          return false;
        }
      }
      active := active[agent := Lookup(active, agent, 0) + 1];
      return true;
    }

    method FinishAction(agent: AgentId)
      modifies this
      ensures events == old(events)
      ensures ActivityOf(agent) == EndAction(old(ActivityOf(agent)))
      ensures forall other | other != agent :: ActivityOf(other) == old(ActivityOf(other))
    {
      var count := Lookup(active, agent, 0) - 1;
      active := active[agent := if count > 0 then count else 0];
    }
  }
}
