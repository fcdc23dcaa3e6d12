/** The store as its methods run: read the state, change it in place, write it back. */
module AutomationClasses {
  import opened Arithmetic
  import opened Options
  import opened CronEngine
  import Steps = AutomationSteps
  import opened AutomationSteps

  /** automations.json. A method that throws returns `None` and has written nothing. */
  class AutomationStore {
    const ownerId: nat
    const leaseMs: int
    var file: State

    constructor (ownerId: nat, leaseMs: int)
      ensures file == State([], [], [], 0) && this.ownerId == ownerId && this.leaseMs == leaseMs
    {
      this.ownerId, this.leaseMs := ownerId, leaseMs;
      file := State([], [], [], 0);
    }

    method Save(id: nat, trigger: Trigger, enabled: bool, timeoutMs: int, accepted: bool, now: int)
      returns (record: Option<Spec>)
      modifies this
      ensures var r := Steps.Save(old(file), id, trigger, enabled, timeoutMs, accepted, now);
              if r.None? then record == None && file == old(file)
              else record == Some(r.value.1) && file == r.value.0
    {
      if !accepted || !TriggerOk(trigger) {
        return None;
      }
      var next := NextTrigger(trigger, now);
      if next.None? {
        return None;
      }
      var i := FindSpec(file.specs, id);
      var createdAt := if i < |file.specs| then file.specs[i].createdAt else now;
      var saved := Spec(id, trigger, enabled, timeoutMs, createdAt, now, next.value);
      if i < |file.specs| {
        file := file.(specs := Replace(file.specs, saved));
      } else {
        file := file.(specs := file.specs + [saved]);
      }
      record := Some(saved);
    }

    method NextTrigger(trigger: Trigger, after: int) returns (next: Option<int>)
      ensures next == NextTriggerAt(trigger, after)
    {
      match trigger
      case Interval(everyMs) => next := Some(after + everyMs);
      case CronTrigger(cron) => next := FindNext(cron, after);
    }

    method SetEnabled(id: nat, enabled: bool, now: int) returns (record: Option<Spec>)
      modifies this
      ensures var r := Steps.SetEnabled(old(file), id, enabled, now);
              if r.None? then record == None && file == old(file)
              else record == Some(r.value.1) && file == r.value.0
    {
      var i := FindSpec(file.specs, id);
      if i == |file.specs| {
        return None;
      }
      var current := file.specs[i].(enabled := enabled, updatedAt := now);
      if enabled {
        var next := NextTrigger(current.trigger, now);
        if next.None? {
          return None;
        }
        current := current.(nextRunAt := next.value);
      }
      file := file.(specs := Replace(file.specs, current));
      record := Some(current);
    }

    method ClaimDue(limit: int, now: int) returns (claims: Option<seq<Claim>>)
      modifies this
      ensures var r := Steps.ClaimDue(old(file), limit, now, ownerId, leaseMs);
              if r.None? then claims == None && file == old(file)
              else claims == Some(r.value.claims) && file == r.value.state
    {
      hide RecoverExpired, ClaimLoop, ClaimOne, DueOrder;
      if limit < 1 || limit > 100 {
        return None;
      }
      var state := Recover(file, now);
      var due := DueOrder(state.specs, now, |state.specs|);
      ghost var recovered := state;
      var made: seq<Claim> := [];
      ghost var added: seq<Run> := [];
      var k := 0;
      LoopStarts(recovered, limit, now, ownerId, leaseMs);
      assert due[..0] == [];
      while k < |due| && |made| < limit
        invariant 0 <= k <= |due| && |state.specs| == |recovered.specs|
        invariant ClaimLoop(recovered, due[..k], limit, now, ownerId, leaseMs) == Some(Claimed(state, added, made))
        invariant file == old(file)
      {
        LoopNext(recovered, due, k, limit, now, ownerId, leaseMs);
        var one := ClaimSpec(state, due[k], now);
        if one.None? {
          LoopStops(recovered, due, k + 1, limit, now, ownerId, leaseMs);
          return None;
        }
        state, made := one.value.state, made + one.value.claims;
        added := added + one.value.added;
        k := k + 1;
      }
      LoopStops(recovered, due, k, limit, now, ownerId, leaseMs);
      file := TrimHistory(state);
      claims := Some(made);
    }

    /** The body of the loop of `claimDue`. */
    method ClaimSpec(state: State, i: nat, now: int) returns (one: Option<Claimed>)
      requires i < |state.specs|
      ensures one == ClaimOne(state, i, now, ownerId, leaseMs)
    {
      hide NextTriggerAt;
      var spec := state.specs[i];
      var scheduledAt := spec.nextRunAt;
      var key := (spec.id, scheduledAt);
      var active := HasLease(state.leases, spec.id, now);
      var duplicate := HasKey(state.runs, key);
      var next := NextTrigger(spec.trigger, now);
      if next.None? {
        return None;
      }
      spec := spec.(nextRunAt := next.value, updatedAt := now);
      var advanced := state.(specs := state.specs[i := spec]);
      if duplicate {
        return Some(Claimed(advanced, [], []));
      }
      if active {
        var skipped := Run(state.nextRunId, spec.id, key, scheduledAt, now, Some(now), Skipped, None);
        return Some(Claimed(advanced.(runs := advanced.runs + [skipped], nextRunId := state.nextRunId + 1),
            [skipped], []));
      }
      var run := Run(state.nextRunId, spec.id, key, scheduledAt, now, None, Running, None);
      var lease := Lease(spec.id, run.id, ownerId, now + Smaller(leaseMs, spec.timeoutMs + GRACE_MS));
      one := Some(Claimed(
        advanced.(runs := advanced.runs + [run], leases := advanced.leases + [lease], nextRunId := state.nextRunId + 1),
        [run], [Claim(run, spec, lease.expiresAt)]));
    }

    /** Expired leases interrupt their runs and go. */
    method Recover(state: State, now: int) returns (recovered: State)
      ensures recovered == RecoverExpired(state, now)
    {
      var runs, live := state.runs, [];
      for k := 0 to |state.leases|
        invariant runs == InterruptAll(state.runs, state.leases[..k], now)
        invariant live == Unexpired(state.leases[..k], now)
      {
        assert state.leases[..k + 1][..k] == state.leases[..k];
        var lease := state.leases[k];
        if lease.expiresAt <= now {
          runs := Interrupt(runs, lease.runId, now);
        } else {
          live := live + [lease];
        }
        UnexpiredNext(state.leases, k, now);
      }
      assert state.leases[..|state.leases|] == state.leases;
      recovered := state.(runs := runs, leases := live);
    }

    method Heartbeat(runId: nat, now: int) returns (expiresAt: Option<int>)
      modifies this
      ensures var r := Steps.Heartbeat(old(file), runId, ownerId, now, leaseMs);
              if r.None? then expiresAt == None && file == old(file)
              else expiresAt == Some(r.value.1) && file == r.value.0
    {
      var i := FindOwned(file.leases, runId, ownerId);
      if i == |file.leases| {
        return None;
      }
      var lease := file.leases[i];
      var k := FindSpec(file.specs, lease.automationId);
      if k == |file.specs| {
        return None;
      }
      lease := lease.(expiresAt := now + Smaller(leaseMs, file.specs[k].timeoutMs + GRACE_MS));
      file := file.(leases := file.leases[i := lease]);
      expiresAt := Some(lease.expiresAt);
    }

    method Complete(runId: nat, ok: bool, costUSD: Option<real>, now: int) returns (ended: Option<Run>)
      modifies this
      ensures var r := Steps.Finish(old(file), runId, if ok then Completed else Failed, costUSD, ownerId, now);
              if r.None? then ended == None && file == old(file) else ended == Some(r.value.1) && file == r.value.0
    {
      ended := Finish(runId, if ok then Completed else Failed, costUSD, now);
    }

    method Cancel(runId: nat, now: int) returns (ended: Option<Run>)
      modifies this
      ensures var r := Steps.Finish(old(file), runId, Cancelled, None, ownerId, now);
              if r.None? then ended == None && file == old(file) else ended == Some(r.value.1) && file == r.value.0
    {
      ended := Finish(runId, Cancelled, None, now);
    }

    /** An invalid cost throws after the run was changed in memory: nothing is written. */
    method Finish(runId: nat, status: Status, costUSD: Option<real>, now: int) returns (ended: Option<Run>)
      modifies this
      ensures var r := Steps.Finish(old(file), runId, status, costUSD, ownerId, now);
              if r.None? then ended == None && file == old(file) else ended == Some(r.value.1) && file == r.value.0
    {
      var state := file;
      var i := FindRun(state.runs, runId);
      if i == |state.runs| {
        return None;
      }
      var run := state.runs[i];
      if run.status != Running {
        return Some(run);
      }
      var k := FindLease(state.leases, runId);
      if status != Cancelled && (k == |state.leases| || state.leases[k].ownerId != ownerId) {
        return None;
      }
      run := run.(status := status, finishedAt := Some(now));
      state := state.(runs := state.runs[i := run]);
      if costUSD.Some? {
        if costUSD.value < 0.0 {
          return None;
        }
        run := run.(costUSD := costUSD);
        state := state.(runs := state.runs[i := run]);
      }
      file := state.(leases := DropLeases(state.leases, runId));
      ended := Some(run);
    }
  }

  lemma UnexpiredNext(leases: seq<Lease>, k: nat, now: int)
    requires k < |leases|
    ensures Unexpired(leases[..k + 1], now)
         == Unexpired(leases[..k], now) + (if leases[k].expiresAt > now then [leases[k]] else [])
  {
    assert leases[..k + 1][..k] == leases[..k];
  }

  lemma LoopStarts(s: State, limit: nat, now: int, owner: nat, leaseMs: int)
    ensures ClaimLoop(s, [], limit, now, owner, leaseMs) == Some(Claimed(s, [], []))
  {
  }

  /** The loop of `claimDue`, one turn at a time. */
  lemma LoopNext(s: State, due: seq<nat>, k: nat, limit: nat, now: int, owner: nat, leaseMs: int)
    requires k < |due| && forall x :: 0 <= x < |due| ==> due[x] < |s.specs|
    requires var before := ClaimLoop(s, due[..k], limit, now, owner, leaseMs);
             before.Some? && |before.value.claims| < limit
    ensures var before := ClaimLoop(s, due[..k], limit, now, owner, leaseMs).value;
            var one := ClaimOne(before.state, due[k], now, owner, leaseMs);
            ClaimLoop(s, due[..k + 1], limit, now, owner, leaseMs)
            == if one.None? then None
               else Some(Claimed(one.value.state, before.added + one.value.added, before.claims + one.value.claims))
  {
    assert due[..k + 1][..k] == due[..k];
  }

  /** Once the loop has thrown or made its claims, the rest of the due specs change nothing. */
  lemma {:induction false} LoopStops(s: State, due: seq<nat>, k: nat, limit: nat, now: int, owner: nat, leaseMs: int)
    requires k <= |due| && forall x :: 0 <= x < |due| ==> due[x] < |s.specs|
    requires var before := ClaimLoop(s, due[..k], limit, now, owner, leaseMs);
             k == |due| || before.None? || |before.value.claims| >= limit
    ensures ClaimLoop(s, due, limit, now, owner, leaseMs) == ClaimLoop(s, due[..k], limit, now, owner, leaseMs)
    decreases |due|
  {
    if k == |due| {
      assert due[..k] == due;
    } else {
      var front := due[..|due| - 1];
      assert front[..k] == due[..k];
      LoopStops(s, front, k, limit, now, owner, leaseMs);
    }
  }
}
