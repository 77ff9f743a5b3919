/** Both budget bounds of the governor are attained: for every budget and every number of actions in flight. */
module GovernorBound {
  import opened Wrappers
  import opened Governor

  /** A mission with a fresh usage, and a request that only its budget could deny. */
  ghost predicate Unused(g: Governor, mission: MissionId, r: Request) {
    && Valid(g) && MissionOf(g, r.taskId) == Some(mission) && g.usage[mission] == Usage(0, 0)
    && var c := g.contracts[mission];
       && c.maxFailures >= 1 && r.actionType !in c.forbiddenActions
       && (c.allowedTools == {} || r.actionType in c.allowedTools)
       && (c.allowedPermissions == {} || r.permission in c.allowedPermissions)
  }

  /** `n` actions one after another, each recorded before the next is judged. */
  function OneByOne(r: Request, n: nat, success: bool): (ops: seq<Operation>)
    ensures |ops| == 2 * n
  {
    if n == 0 then [] else OneByOne(r, n - 1, success) + [Enter(r), Finish(n - 1, success)]
  }

  /** `k` actions judged before any of them is recorded. */
  function AtOnce(r: Request, k: nat): (ops: seq<Operation>)
    ensures |ops| == k
  {
    if k == 0 then [] else AtOnce(r, k - 1) + [Enter(r)]
  }

  /** `k` actions recorded, from the one at place `first`. */
  function Landing(first: nat, k: nat, success: bool): (ops: seq<Operation>)
    ensures |ops| == k
  {
    if k == 0 then [] else Landing(first, k - 1, success) + [Finish(first + k - 1, success)]
  }

  lemma AfterOneMore(g: Governor, ops: seq<Operation>, op: Operation)
    requires Valid(g)
    ensures After(g, ops + [op]) == Apply(After(g, ops), op)
  {
    assert (ops + [op])[..|ops|] == ops;
  }

  function Ended(success: bool): Progress {
    if success then Succeeded else Failed
  }

  /** The flights of a mission: `closed` ones that ended alike, then `open` others. */
  function Flights(r: Request, mission: MissionId, closed: nat, open: nat, success: bool): (s: seq<Flight>)
    ensures |s| == closed + open
  {
    seq(closed + open, i requires 0 <= i < closed + open =>
      Flight(r.taskId, Some(mission), if i >= closed then Open else Ended(success)))
  }

  lemma {:induction false} CountFlights(r: Request, mission: MissionId, closed: nat, open: nat, success: bool,
                                        progress: Progress)
    ensures Count(Flights(r, mission, closed, open, success), mission, progress)
         == if progress == Open then open else if progress == Ended(success) then closed else 0
    decreases closed + open
  {
    var all := Flights(r, mission, closed, open, success);
    assert closed + open > 0 ==>
        all[0] == Flight(r.taskId, Some(mission), if closed > 0 then Ended(success) else Open);
    if closed > 0 {
      CountFlights(r, mission, closed - 1, open, success, progress);
      assert all[1..] == Flights(r, mission, closed - 1, open, success);
    } else if open > 0 {
      CountFlights(r, mission, 0, open - 1, success, progress);
      assert all[1..] == Flights(r, mission, 0, open - 1, success);
    }
  }

  /** `closed` actions ended alike and were counted, and `open` others are in flight. */
  ghost predicate Reached(g: Governor, s: State, mission: MissionId, r: Request, closed: nat, open: nat,
                          success: bool)
  {
    && s.governor == g.(usage := g.usage[mission := Usage(closed, if success then 0 else closed)])
    && s.flights == Flights(r, mission, closed, open, success)
  }

  lemma ReachedCounts(g: Governor, s: State, mission: MissionId, r: Request, closed: nat, open: nat, success: bool)
    requires Valid(g) && Reached(g, s, mission, r, closed, open, success)
    ensures CountPassed(s, mission) == closed + open && CountOpen(s, mission) == open
    ensures CountFailed(s, mission) == if success then 0 else closed
  {
    hide Count;
    CountFlights(r, mission, closed, open, success, Open);
    CountFlights(r, mission, closed, open, success, Succeeded);
    CountFlights(r, mission, closed, open, success, Failed);
  }

  /** The budgets have room for one more action after `closed` ones that ended alike. */
  ghost predicate HasRoom(g: Governor, mission: MissionId, closed: nat, success: bool) {
    && mission in g.contracts && closed < g.contracts[mission].maxActions
    && (success || closed < g.contracts[mission].maxFailures)
  }

  lemma EnterReaches(g: Governor, s: State, mission: MissionId, r: Request, closed: nat, open: nat, success: bool)
    requires Unused(g, mission, r) && Reached(g, s, mission, r, closed, open, success)
             && HasRoom(g, mission, closed, success)
    ensures Valid(s.governor) && Reached(g, Apply(s, Enter(r)), mission, r, closed, open + 1, success)
  {
    assert Evaluate(s.governor, r) != Deny;
    assert Flights(r, mission, closed, open + 1, success)
        == Flights(r, mission, closed, open, success) + [Entering(s.governor, r)];
  }

  lemma FinishReaches(g: Governor, s: State, mission: MissionId, r: Request, closed: nat, open: nat, success: bool)
    requires Unused(g, mission, r) && Reached(g, s, mission, r, closed, open, success) && open > 0
    ensures Valid(s.governor)
    ensures Reached(g, Apply(s, Finish(closed, success)), mission, r, closed + 1, open - 1, success)
  {
    var flights := s.flights;
    var landed := Flight(r.taskId, Some(mission), Ended(success));
    assert Landed(flights[closed], success) == landed;
    assert flights[closed := landed] == Flights(r, mission, closed + 1, open - 1, success);
    UsageReplaced(g.usage, mission, Usage(closed, if success then 0 else closed),
                  Usage(closed + 1, if success then 0 else closed + 1));
  }

  lemma UsageReplaced(usage: map<MissionId, Usage>, mission: MissionId, u: Usage, v: Usage)
    ensures usage[mission := u][mission := v] == usage[mission := v]
  {
  }

  lemma {:induction false} OneByOneReaches(g: Governor, mission: MissionId, r: Request, n: nat, success: bool, k: nat)
    requires Unused(g, mission, r) && HasRoom(g, mission, n, success) && k >= 1
    ensures
      var ops := OneByOne(r, n, success);
      Reached(g, After(g, ops), mission, r, n, 0, success) && AtMostInFlight(g, ops, mission, k)
  {
    hide Reached, Flights, Apply, AtMostInFlight, After;
    if n == 0 {
      NothingReached(g, mission, r, success, k);
    } else {
      OneByOneReaches(g, mission, r, n - 1, success, k);
      var before := OneByOne(r, n - 1, success);
      EnterStep(g, before, mission, r, n - 1, 0, success, k);
      FinishStep(g, before + [Enter(r)], mission, r, n - 1, 1, success, k);
      assert OneByOne(r, n, success) == before + [Enter(r)] + [Finish(n - 1, success)];
    }
  }

  lemma NothingReached(g: Governor, mission: MissionId, r: Request, success: bool, k: nat)
    requires Unused(g, mission, r)
    ensures Valid(g) && Reached(g, After(g, []), mission, r, 0, 0, success) && AtMostInFlight(g, [], mission, k)
  {
    assert g.usage[mission := Usage(0, 0)] == g.usage;
    assert Flights(r, mission, 0, 0, success) == [];
  }

  /** The run so far, with at most `k` actions in flight, has closed and open actions as said. */
  ghost predicate Stands(g: Governor, ops: seq<Operation>, mission: MissionId, r: Request, closed: nat, open: nat,
                         success: bool, k: nat)
  {
    Valid(g) && Reached(g, After(g, ops), mission, r, closed, open, success) && AtMostInFlight(g, ops, mission, k)
  }

  lemma EnterStep(g: Governor, ops: seq<Operation>, mission: MissionId, r: Request, closed: nat, open: nat,
                  success: bool, k: nat)
    requires Unused(g, mission, r) && HasRoom(g, mission, closed, success) && open < k
    requires Stands(g, ops, mission, r, closed, open, success, k)
    ensures Stands(g, ops + [Enter(r)], mission, r, closed, open + 1, success, k)
  {
    hide Reached, Apply, AtMostInFlight, After;
    AfterOneMore(g, ops, Enter(r));
    EnterReaches(g, After(g, ops), mission, r, closed, open, success);
    StillInFlight(g, ops, Enter(r), mission, r, closed, open + 1, success, k);
  }

  lemma FinishStep(g: Governor, ops: seq<Operation>, mission: MissionId, r: Request, closed: nat, open: nat,
                   success: bool, k: nat)
    requires Unused(g, mission, r) && 0 < open <= k
    requires Stands(g, ops, mission, r, closed, open, success, k)
    ensures Stands(g, ops + [Finish(closed, success)], mission, r, closed + 1, open - 1, success, k)
  {
    hide Reached, Apply, AtMostInFlight, After;
    AfterOneMore(g, ops, Finish(closed, success));
    FinishReaches(g, After(g, ops), mission, r, closed, open, success);
    StillInFlight(g, ops, Finish(closed, success), mission, r, closed + 1, open - 1, success, k);
  }

  lemma StillInFlight(g: Governor, ops: seq<Operation>, op: Operation, mission: MissionId, r: Request, closed: nat,
                      open: nat, success: bool, k: nat)
    requires Valid(g) && AtMostInFlight(g, ops, mission, k) && open <= k
    requires Reached(g, After(g, ops + [op]), mission, r, closed, open, success)
    ensures AtMostInFlight(g, ops + [op], mission, k)
  {
    hide Reached, CountOpen, After, Valid;
    var all := ops + [op];
    ReachedCounts(g, After(g, all), mission, r, closed, open, success);
    forall n | 0 <= n <= |all| ensures CountOpen(After(g, all[..n]), mission) <= k {
      if n <= |ops| {
        assert all[..n] == ops[..n];
      } else {
        assert all[..n] == all;
      }
    }
  }

  lemma {:induction false} AtOnceReaches(g: Governor, mission: MissionId, r: Request, before: seq<Operation>,
                                         closed: nat, open: nat, success: bool, k: nat)
    requires Unused(g, mission, r) && HasRoom(g, mission, closed, success) && open <= k
    requires Stands(g, before, mission, r, closed, 0, success, k)
    ensures Stands(g, before + AtOnce(r, open), mission, r, closed, open, success, k)
    decreases open
  {
    hide Unused, HasRoom, Stands;
    if open == 0 {
      assert before + AtOnce(r, 0) == before;
    } else {
      AtOnceReaches(g, mission, r, before, closed, open - 1, success, k);
      EnterStep(g, before + AtOnce(r, open - 1), mission, r, closed, open - 1, success, k);
      assert before + AtOnce(r, open) == before + AtOnce(r, open - 1) + [Enter(r)];
    }
  }

  lemma {:induction false} LandingReaches(g: Governor, mission: MissionId, r: Request, before: seq<Operation>,
                                          closed: nat, open: nat, landed: nat, success: bool, k: nat)
    requires Unused(g, mission, r) && landed <= open <= k
    requires Stands(g, before, mission, r, closed, open, success, k)
    ensures Stands(g, before + Landing(closed, landed, success), mission, r, closed + landed, open - landed, success, k)
    decreases landed
  {
    hide Unused, Stands;
    if landed == 0 {
      assert before + Landing(closed, 0, success) == before;
    } else {
      LandingReaches(g, mission, r, before, closed, open, landed - 1, success, k);
      FinishStep(g, before + Landing(closed, landed - 1, success), mission, r, closed + landed - 1, open - landed + 1,
                 success, k);
      assert before + Landing(closed, landed, success)
          == before + Landing(closed, landed - 1, success) + [Finish(closed + landed - 1, success)];
    }
  }

  ghost predicate EnrollsNobody(ops: seq<Operation>) {
    forall i | 0 <= i < |ops| :: !ops[i].Enroll?
  }

  lemma NobodyEnrolled(g: Governor, ops: seq<Operation>, mission: MissionId)
    requires Valid(g) && EnrollsNobody(ops)
    ensures FixesThroughout(g, ops, mission)
  {
  }

  lemma {:induction false} NeverEnrolls(r: Request, n: nat, k: nat, success: bool)
    ensures EnrollsNobody(OneByOne(r, n, success)) && EnrollsNobody(AtOnce(r, k))
    ensures EnrollsNobody(Landing(n, k, success))
    decreases n + k
  {
    if n > 0 {
      NeverEnrolls(r, n - 1, 0, success);
    }
    if k > 0 {
      NeverEnrolls(r, 0, k - 1, success);
      LandingNeverEnrolls(n, k, success);
    }
  }

  lemma {:induction false} LandingNeverEnrolls(n: nat, k: nat, success: bool)
    ensures EnrollsNobody(Landing(n, k, success))
  {
    if k > 0 {
      LandingNeverEnrolls(n, k - 1, success);
    }
  }

  /** With `k` actions in flight, a mission can let `max_actions + k - 1` actions past: no smaller bound holds. */
  lemma BoundIsAttained(g: Governor, mission: MissionId, r: Request, k: nat)
    requires Unused(g, mission, r) && k >= 1
    ensures
      var n := g.contracts[mission].maxActions;
      var ops := OneByOne(r, n - 1, true) + AtOnce(r, k);
      && FixesThroughout(g, ops, mission) && AtMostInFlight(g, ops, mission, k)
      && CountPassed(After(g, ops), mission) == n + k - 1
  {
    hide Reached, After, AtMostInFlight, FixesThroughout, OneByOne, AtOnce, CountPassed;
    var n := g.contracts[mission].maxActions;
    OneByOneReaches(g, mission, r, n - 1, true, k);
    AtOnceReaches(g, mission, r, OneByOne(r, n - 1, true), n - 1, k, true, k);
    var ops := OneByOne(r, n - 1, true) + AtOnce(r, k);
    NeverEnrolls(r, n - 1, k, true);
    NobodyEnrolled(g, ops, mission);
    ReachedCounts(g, After(g, ops), mission, r, n - 1, k, true);
  }

  /** And as many can fail as the smaller of the two budgets plus `k - 1`: no smaller bound holds for failures. */
  lemma FailureBoundIsAttained(g: Governor, mission: MissionId, r: Request, k: nat)
    requires Unused(g, mission, r) && k >= 1
    ensures
      var c := g.contracts[mission];
      var n := if c.maxFailures < c.maxActions then c.maxFailures else c.maxActions;
      var ops := OneByOne(r, n - 1, false) + AtOnce(r, k) + Landing(n - 1, k, false);
      && FixesThroughout(g, ops, mission) && AtMostInFlight(g, ops, mission, k)
      && CountFailed(After(g, ops), mission) == n + k - 1
  {
    hide Reached, After, AtMostInFlight, FixesThroughout, OneByOne, AtOnce, Landing, CountFailed;
    var c := g.contracts[mission];
    var n := if c.maxFailures < c.maxActions then c.maxFailures else c.maxActions;
    var before := OneByOne(r, n - 1, false);
    OneByOneReaches(g, mission, r, n - 1, false, k);
    AtOnceReaches(g, mission, r, before, n - 1, k, false, k);
    LandingReaches(g, mission, r, before + AtOnce(r, k), n - 1, k, k, false, k);
    var ops := before + AtOnce(r, k) + Landing(n - 1, k, false);
    NeverEnrolls(r, n - 1, k, false);
    NobodyEnrolled(g, ops, mission);
    ReachedCounts(g, After(g, ops), mission, r, n - 1 + k, 0, false);
  }
}
