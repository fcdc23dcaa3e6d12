/** Whole runs of the automation store, with the history that trimming forgets. */
module AutomationRuns {
  import opened Arithmetic
  import opened Options
  import opened CronEngine
  import opened AutomationSteps
  import opened AutomationLaws

  // ---------------------------------------------------------------- slots

  predicate Positive(trigger: Trigger) {
    trigger.Interval? ==> trigger.everyMs >= 1
  }

  lemma NextAfter(trigger: Trigger, after: int)
    requires Positive(trigger) && NextTriggerAt(trigger, after).Some?
    ensures NextTriggerAt(trigger, after).value > after
  {
    if trigger.CronTrigger? { NextIsLeast(trigger.cron, after); }
  }

  ghost predicate DistinctKeys(ever: seq<Run>) {
    forall i, j :: 0 <= i < j < |ever| ==> ever[i].key != ever[j].key
  }

  /** No slot is given twice, and every run ever recorded started at or after its slot and
      before the next run its automation now has planned. */
  ghost predicate SlotsOk(specs: seq<Spec>, ever: seq<Run>, now: int) {
    && DistinctSpecs(specs) && DistinctKeys(ever)
    && (forall i :: 0 <= i < |specs| ==> Positive(specs[i].trigger))
    && (forall r :: r in ever ==> RecordOk(r, now) && IsSpec(specs, r.automationId))
    && (forall r, i :: r in ever && 0 <= i < |specs| && specs[i].id == r.automationId ==>
        r.startedAt < specs[i].nextRunAt)
  }

  predicate RecordOk(r: Run, now: int) {
    r.key == (r.automationId, r.scheduledAt) && r.scheduledAt <= r.startedAt <= now
  }

  /** One spec's plan moves to the future and, at most, its present slot is recorded. */
  lemma AdvanceSlots(specs: seq<Spec>, ever: seq<Run>, i: nat, advanced: Spec, added: seq<Run>, now: int)
    requires SlotsOk(specs, ever, now) && i < |specs| && advanced.id == specs[i].id && Positive(advanced.trigger)
    requires advanced.nextRunAt > now && |added| <= 1
    requires forall r :: r in added ==>
               r.automationId == specs[i].id && r.scheduledAt == specs[i].nextRunAt && r.startedAt == now
                   && RecordOk(r, now)
    ensures SlotsOk(specs[i := advanced], ever + added, now)
  {
    var specs' := specs[i := advanced];
    SameSpecIds(specs, specs');
    assert specs'[i].id == specs[i].id;
    assert IsSpec(specs', specs[i].id);
    forall r, a | r in ever && a in added ensures r.key != a.key {
      if r.automationId == specs[i].id { assert r.startedAt < specs[i].nextRunAt; }
    }
    forall k, m | 0 <= k < m < |ever + added| ensures (ever + added)[k].key != (ever + added)[m].key {
      if m >= |ever| { assert (ever + added)[m] in added && (ever + added)[k] in ever; }
    }
  }

  lemma ClaimOneSlots(s: State, ever: seq<Run>, i: nat, now: int, owner: nat, leaseMs: int)
    requires SlotsOk(s.specs, ever, now) && i < |s.specs| && s.specs[i].nextRunAt <= now
    requires ClaimOne(s, i, now, owner, leaseMs).Some?
    ensures var c := ClaimOne(s, i, now, owner, leaseMs).value;
            && SlotsOk(c.state.specs, ever + c.added, now)
            && (forall k :: 0 <= k < |s.specs| && k != i ==> c.state.specs[k] == s.specs[k])
  {
    hide SlotsOk, NextTriggerAt, HasKey, HasLease, Smaller;
    var spec, c := s.specs[i], ClaimOne(s, i, now, owner, leaseMs).value;
    SpecPositive(s.specs, ever, i, now);
    NextAfter(spec.trigger, now);
    AdvanceSlots(s.specs, ever, i, c.state.specs[i], c.added, now);
  }

  lemma SpecPositive(specs: seq<Spec>, ever: seq<Run>, i: nat, now: int)
    requires SlotsOk(specs, ever, now) && i < |specs|
    ensures Positive(specs[i].trigger)
  {
  }

  lemma {:induction false} ClaimLoopSlots(
    s: State, ever: seq<Run>, due: seq<nat>, limit: nat, now: int, owner: nat, leaseMs: int)
    requires SlotsOk(s.specs, ever, now) && DistinctOrder(due)
    requires forall k :: 0 <= k < |due| ==> due[k] < |s.specs| && s.specs[due[k]].nextRunAt <= now
    requires ClaimLoop(s, due, limit, now, owner, leaseMs).Some?
    ensures var c := ClaimLoop(s, due, limit, now, owner, leaseMs).value;
            && SlotsOk(c.state.specs, ever + c.added, now)
            && (forall i: nat :: i < |s.specs| && i !in due ==> c.state.specs[i] == s.specs[i])
    decreases |due|
  {
    hide SlotsOk, ClaimOne;
    if due == [] {
      assert ever + [] == ever;
    } else {
      var n := |due| - 1;
      var front := due[..n];
      ClaimLoopSlots(s, ever, front, limit, now, owner, leaseMs);
      var before := ClaimLoop(s, front, limit, now, owner, leaseMs).value;
      assert due == front + [due[n]] && due[n] !in front;
      if |before.claims| < limit {
        ClaimOneSlots(before.state, ever + before.added, due[n], now, owner, leaseMs);
        var one := ClaimOne(before.state, due[n], now, owner, leaseMs).value;
        assert ever + before.added + one.added == ever + (before.added + one.added);
      }
    }
  }

  lemma SlotsLater(specs: seq<Spec>, ever: seq<Run>, now: int, now': int)
    requires SlotsOk(specs, ever, now) && now <= now'
    ensures SlotsOk(specs, ever, now')
  {
  }

  /** Planning a spec afresh only moves its next run past everything recorded. */
  lemma ReplanSlots(specs: seq<Spec>, ever: seq<Run>, record: Spec, now: int)
    requires SlotsOk(specs, ever, now) && Positive(record.trigger)
    requires record.nextRunAt > now
        || exists i :: 0 <= i < |specs| && specs[i].id == record.id && record.nextRunAt == specs[i].nextRunAt
    ensures SlotsOk(Replace(specs, record), ever, now)
    ensures !IsSpec(specs, record.id) && record.nextRunAt > now ==> SlotsOk(specs + [record], ever, now)
  {
    var specs' := Replace(specs, record);
    SameSpecIds(specs, specs');
    forall r, i | r in ever && 0 <= i < |specs| && specs'[i].id == r.automationId
      ensures r.startedAt < specs'[i].nextRunAt
    {
      assert RecordOk(r, now) && r.startedAt < specs[i].nextRunAt;
    }
    if !IsSpec(specs, record.id) && record.nextRunAt > now {
      var longer := specs + [record];
      forall x | IsSpec(specs, x) ensures IsSpec(longer, x) {
        var k :| 0 <= k < |specs| && specs[k].id == x;
        assert longer[k].id == x;
      }
      forall i | 0 <= i < |specs| ensures specs[i].id != record.id {}
    }
  }

  lemma ClaimDueSlots(s: State, ever: seq<Run>, limit: int, now: int, owner: nat, leaseMs: int)
    requires SlotsOk(s.specs, ever, now) && ClaimDue(s, limit, now, owner, leaseMs).Some?
    ensures var c := ClaimDue(s, limit, now, owner, leaseMs).value; SlotsOk(c.state.specs, ever + c.added, now)
  {
    hide SlotsOk, ClaimLoop;
    var s1 := RecoverExpired(s, now);
    var due := DueOrder(s1.specs, now, |s1.specs|);
    DueOrderIs(s1.specs, now, |s1.specs|);
    forall k | 0 <= k < |due| ensures due[k] < |s1.specs| && s1.specs[due[k]].nextRunAt <= now { assert due[k] in due; }
    ClaimLoopSlots(s1, ever, due, limit, now, owner, leaseMs);
  }

  /** Under a clock that does not go back, no slot is ever given twice. */
  lemma StepSlots(w: World, e: Event, now: int)
    requires SlotsOk(w.state.specs, w.ever, now) && now <= e.now
    ensures SlotsOk(Step(w, e).state.specs, Step(w, e).ever, e.now)
  {
    hide SlotsOk, ClaimDue, IsSpec;
    var s := w.state;
    SlotsLater(s.specs, w.ever, now, e.now);
    match e
    case DoSave(id, trigger, enabled, timeoutMs, accepted, now') =>
      var r := Save(s, id, trigger, enabled, timeoutMs, accepted, now');
      if r.Some? {
        NextAfter(trigger, now');
        ReplanSlots(s.specs, w.ever, r.value.1, now');
        if FindSpec(s.specs, id) == |s.specs| { NotSpec(s.specs, id); }
      }
    case DoSetEnabled(id, on, now') =>
      var r, i := SetEnabled(s, id, on, now'), FindSpec(s.specs, id);
      if r.Some? {
        SpecPositive(s.specs, w.ever, i, now');
        if on { NextAfter(s.specs[i].trigger, now'); }
        ReplanSlots(s.specs, w.ever, r.value.1, now');
      }
    case DoClaim(limit, now', owner, leaseMs) =>
      if ClaimDue(s, limit, now', owner, leaseMs).Some? { ClaimDueSlots(s, w.ever, limit, now', owner, leaseMs); }
    case _ =>
  }

  lemma NotSpec(specs: seq<Spec>, id: nat)
    requires FindSpec(specs, id) == |specs|
    ensures !IsSpec(specs, id)
  {
  }

  // ---------------------------------------------------------------- what trimming forgot

  predicate Recorded(ever: seq<Run>, id: nat) {
    exists r :: r in ever && r.id == id
  }

  /** Every retained run and every lease goes back to a recorded run: a lease whose run is no
      longer in the history has outlived its trimming. */
  ghost predicate Traced(s: State, ever: seq<Run>) {
    && (forall r :: r in s.runs ==> Recorded(ever, r.id))
    && (forall l :: l in s.leases ==> Recorded(ever, l.runId))
  }

  /** Runs and leases come from before or were added. */
  ghost predicate From(s: State, s': State, added: seq<Run>) {
    && (forall r' :: r' in s'.runs ==> (exists r :: r in s.runs && r.id == r'.id) || Recorded(added, r'.id))
    && (forall l' :: l' in s'.leases ==>
        (exists l :: l in s.leases && l.runId == l'.runId) || Recorded(added, l'.runId))
  }

  lemma TracedFrom(s: State, s': State, ever: seq<Run>, added: seq<Run>)
    requires Traced(s, ever) && From(s, s', added)
    ensures Traced(s', ever + added)
  {
    forall id | Recorded(ever, id) || Recorded(added, id) ensures Recorded(ever + added, id) {
      if Recorded(ever, id) {
        var r :| r in ever && r.id == id;
        assert r in ever + added;
      } else {
        var r :| r in added && r.id == id;
        assert r in ever + added;
      }
    }
  }

  lemma FromTrans(a: State, b: State, c: State, first: seq<Run>, second: seq<Run>)
    requires From(a, b, first) && From(b, c, second)
    ensures From(a, c, first + second)
  {
    forall id | Recorded(first, id) || Recorded(second, id) ensures Recorded(first + second, id) {
      if Recorded(first, id) {
        var r :| r in first && r.id == id;
        assert r in first + second;
      } else {
        var r :| r in second && r.id == id;
        assert r in first + second;
      }
    }
  }

  lemma ClaimOneFrom(s: State, i: nat, now: int, owner: nat, leaseMs: int)
    requires i < |s.specs| && ClaimOne(s, i, now, owner, leaseMs).Some?
    ensures var c := ClaimOne(s, i, now, owner, leaseMs).value; From(s, c.state, c.added)
  {
    var c := ClaimOne(s, i, now, owner, leaseMs).value;
    if c.added != [] { assert c.added[0] in c.added; }
  }

  lemma {:induction false} ClaimLoopFrom(s: State, due: seq<nat>, limit: nat, now: int, owner: nat, leaseMs: int)
    requires forall k :: 0 <= k < |due| ==> due[k] < |s.specs|
    requires ClaimLoop(s, due, limit, now, owner, leaseMs).Some?
    ensures var c := ClaimLoop(s, due, limit, now, owner, leaseMs).value; From(s, c.state, c.added)
    decreases |due|
  {
    if due != [] {
      hide From, ClaimOne;
      var n := |due| - 1;
      ClaimLoopFrom(s, due[..n], limit, now, owner, leaseMs);
      var before := ClaimLoop(s, due[..n], limit, now, owner, leaseMs).value;
      if |before.claims| < limit {
        ClaimOneFrom(before.state, due[n], now, owner, leaseMs);
        var one := ClaimOne(before.state, due[n], now, owner, leaseMs).value;
        FromTrans(s, before.state, one.state, before.added, one.added);
      }
    }
  }

  lemma FromFollows(s: State, s': State)
    requires |s'.runs| <= |s.runs| && forall r' :: r' in s'.runs ==> exists r :: r in s.runs && Evolves(r, r')
    requires forall l' :: l' in s'.leases ==> exists l :: l in s.leases && l.runId == l'.runId
    ensures From(s, s', [])
  {
    forall r' | r' in s'.runs ensures exists r :: r in s.runs && r.id == r'.id {
      var r :| r in s.runs && Evolves(r, r');
    }
  }

  lemma RecoverFrom(s: State, now: int)
    requires AutomationLaws.Inv(s)
    ensures From(s, RecoverExpired(s, now), [])
  {
    hide RecoverExpired, DistinctLeases;
    RecoverShape(s, now);
    var s' := RecoverExpired(s, now);
    forall r' | r' in s'.runs ensures exists r :: r in s.runs && Evolves(r, r') {
      var k :| 0 <= k < |s'.runs| && s'.runs[k] == r';
      assert s.runs[k] in s.runs;
    }
    FromFollows(s, s');
  }

  lemma ClaimDueFrom(s: State, limit: int, now: int, owner: nat, leaseMs: int)
    requires AutomationLaws.Inv(s) && ClaimDue(s, limit, now, owner, leaseMs).Some?
    ensures var c := ClaimDue(s, limit, now, owner, leaseMs).value; From(s, c.state, c.added)
  {
    hide AutomationLaws.Inv, RecoverExpired, ClaimLoop, From, Evolves;
    RecoverFrom(s, now);
    var s1 := RecoverExpired(s, now);
    var due := DueOrder(s1.specs, now, |s1.specs|);
    ClaimLoopFrom(s1, due, limit, now, owner, leaseMs);
    var c := ClaimLoop(s1, due, limit, now, owner, leaseMs).value;
    FromTrans(s, s1, c.state, [], c.added);
    assert [] + c.added == c.added && c.added + [] == c.added;
    TrimFrom(c.state);
    FromTrans(s, c.state, TrimHistory(c.state), c.added, []);
  }

  lemma TrimFrom(s: State)
    ensures From(s, TrimHistory(s), [])
  {
  }

  lemma StepTraced(w: World, e: Event)
    requires AutomationLaws.Inv(w.state) && Traced(w.state, w.ever)
    ensures Traced(Step(w, e).state, Step(w, e).ever)
  {
    hide AutomationLaws.Inv, Traced, ClaimDue, From;
    match e
    case DoClaim(limit, now, owner, leaseMs) =>
      if ClaimDue(w.state, limit, now, owner, leaseMs).Some? {
        ClaimDueFrom(w.state, limit, now, owner, leaseMs);
        TracedFrom(w.state, Step(w, e).state, w.ever, ClaimDue(w.state, limit, now, owner, leaseMs).value.added);
      }
    case _ =>
      QuietFrom(w, e);
      assert w.ever + [] == w.ever;
      TracedFrom(w.state, Step(w, e).state, w.ever, []);
  }

  lemma FromInPlace(s: State, s': State)
    requires |s'.runs| == |s.runs| && forall k :: 0 <= k < |s.runs| ==> s'.runs[k].id == s.runs[k].id
    requires forall l' :: l' in s'.leases ==> exists l :: l in s.leases && l.runId == l'.runId
    ensures From(s, s', [])
  {
    forall r' | r' in s'.runs ensures exists r :: r in s.runs && r.id == r'.id {
      var k :| 0 <= k < |s'.runs| && s'.runs[k] == r';
      assert s.runs[k] in s.runs && s.runs[k].id == r'.id;
    }
  }

  lemma FinishFrom(s: State, runId: nat, status: Status, costUSD: Option<real>, owner: nat, now: int)
    requires Finish(s, runId, status, costUSD, owner, now).Some?
    ensures From(s, Finish(s, runId, status, costUSD, owner, now).value.0, [])
  {
    KeepIs(s.leases, (l: Lease) => l.runId != runId);
    FromInPlace(s, Finish(s, runId, status, costUSD, owner, now).value.0);
  }

  lemma HeartbeatFrom(s: State, runId: nat, owner: nat, now: int, leaseMs: int)
    requires Heartbeat(s, runId, owner, now, leaseMs).Some?
    ensures From(s, Heartbeat(s, runId, owner, now, leaseMs).value.0, [])
  {
    var s' := Heartbeat(s, runId, owner, now, leaseMs).value.0;
    forall l' | l' in s'.leases ensures exists l :: l in s.leases && l.runId == l'.runId {
      var k :| 0 <= k < |s'.leases| && s'.leases[k] == l';
      assert s.leases[k] in s.leases && s.leases[k].runId == l'.runId;
    }
    FromInPlace(s, s');
  }

  lemma SameFrom(s: State, s': State)
    requires s'.runs == s.runs && s'.leases == s.leases
    ensures From(s, s', [])
  {
    FromInPlace(s, s');
  }

  /** Nothing but claiming brings runs or leases. */
  lemma QuietFrom(w: World, e: Event)
    requires !e.DoClaim?
    ensures From(w.state, Step(w, e).state, [])
  {
    hide From, Heartbeat, Finish, NextTriggerAt, Replace;
    SameFrom(w.state, w.state);
    match e
    case DoSave(_, _, _, _, _, _) => SameFrom(w.state, Step(w, e).state);
    case DoSetEnabled(_, _, _) => SameFrom(w.state, Step(w, e).state);
    case DoHeartbeat(runId, now, owner, leaseMs) =>
      if Heartbeat(w.state, runId, owner, now, leaseMs).Some? { HeartbeatFrom(w.state, runId, owner, now, leaseMs); }
    case DoComplete(runId, ok, costUSD, now, owner) =>
      var status := if ok then Completed else Failed;
      if Finish(w.state, runId, status, costUSD, owner, now).Some? {
        FinishFrom(w.state, runId, status, costUSD, owner, now);
      }
    case DoCancel(runId, now, owner) =>
      if Finish(w.state, runId, Cancelled, None, owner, now).Some? {
        FinishFrom(w.state, runId, Cancelled, None, owner, now);
      }
  }

  // ---------------------------------------------------------------- every run

  function RunAll(w: World, events: seq<Event>): World
    decreases |events|
  {
    if events == [] then w else RunAll(Step(w, events[0]), events[1..])
  }

  const EMPTY := World(State([], [], [], 0), [])

  /** Whatever the clock does: one lease per automation, one per running run, none for a run
      that ended and is still remembered, keys pairwise distinct, terminal runs frozen. */
  lemma {:induction false} EveryRun(w: World, events: seq<Event>)
    requires AutomationLaws.Inv(w.state) && Traced(w.state, w.ever)
    ensures var w' := RunAll(w, events);
            AutomationLaws.Inv(w'.state) && Traced(w'.state, w'.ever) && Follows(w.state, w'.state)
    decreases |events|
  {
    hide AutomationLaws.Inv, Traced, Step, Follows;
    if events == [] {
      FollowsSame(w.state, w.state);
    } else {
      var w1 := Step(w, events[0]);
      AutomationLaws.StepKeeps(w, events[0]);
      StepTraced(w, events[0]);
      EveryRun(w1, events[1..]);
      FollowsTrans(w.state, w1.state, RunAll(w, events).state);
    }
  }

  /** A run that has ended never changes again, as long as it is remembered. */
  lemma EndedForever(w: World, events: seq<Event>, r: Run, r': Run)
    requires AutomationLaws.Inv(w.state) && Traced(w.state, w.ever) && r in w.state.runs && r.status != Running
    requires r' in RunAll(w, events).state.runs && r'.id == r.id
    ensures r' == r
  {
    EveryRun(w, events);
    var r0 :| r0 in w.state.runs && Evolves(r0, r');
    var i :| 0 <= i < |w.state.runs| && w.state.runs[i] == r;
    var j :| 0 <= j < |w.state.runs| && w.state.runs[j] == r0;
    assert i == j;
  }

  ghost predicate ClockForward(events: seq<Event>, from: int) {
    (forall i :: 0 <= i < |events| ==> from <= events[i].now) &&
    forall i, j :: 0 <= i < j < |events| ==> events[i].now <= events[j].now
  }

  /** Under a clock that does not go back, no (automation, slot) is ever given two runs, even
      after trimming has forgotten the first. */
  lemma {:induction false} EverySlotOnce(w: World, events: seq<Event>, now: int)
    requires SlotsOk(w.state.specs, w.ever, now) && ClockForward(events, now)
    ensures var end := if events == [] then now else events[|events| - 1].now;
            SlotsOk(RunAll(w, events).state.specs, RunAll(w, events).ever, end)
    decreases |events|
  {
    hide SlotsOk, Step;
    if events != [] {
      StepSlots(w, events[0], now);
      EverySlotOnce(Step(w, events[0]), events[1..], events[0].now);
      assert |events| > 1 ==> events[1..][|events| - 2] == events[|events| - 1];
    }
  }

  lemma EmptyOk(now: int)
    ensures AutomationLaws.Inv(EMPTY.state) && Traced(EMPTY.state, EMPTY.ever)
        && SlotsOk(EMPTY.state.specs, EMPTY.ever, now)
  {
  }
}
