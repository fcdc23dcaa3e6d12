/** What a claim hands out: which runs, under which leases, and what it records instead. */
module AutomationClaims {
  import opened Options
  import opened AutomationSteps
  import opened AutomationLaws
  import opened AutomationThrows

  /** The record of an automation whose slot has been dealt with. */
  ghost predicate Advanced(spec: Spec, spec': Spec, now: int) {
    spec' == spec.(nextRunAt := spec'.nextRunAt, updatedAt := now) && Planned(spec.trigger, now, spec'.nextRunAt)
  }

  /** A run for the slot this automation is at. */
  predicate ForSlot(spec: Spec, run: Run, now: int) {
    && run.automationId == spec.id && run.key == (spec.id, spec.nextRunAt)
    && run.scheduledAt == spec.nextRunAt && run.startedAt == now && run.costUSD == None
  }

  /** A claim of that slot: a running run, the new record, and when its lease is over. */
  ghost predicate ClaimOf(spec: Spec, spec': Spec, c: Claim, now: int, leaseMs: int) {
    && ForSlot(spec, c.run, now) && c.run.status == Running && c.run.finishedAt == None
    && c.spec == spec' && Advanced(spec, spec', now)
    && c.leaseExpiresAt == now + (if leaseMs <= spec.timeoutMs + 60_000 then leaseMs else spec.timeoutMs + 60_000)
  }

  predicate SkipOf(spec: Spec, run: Run, now: int) {
    ForSlot(spec, run, now) && run.status == Skipped && run.finishedAt == Some(now)
  }

  function LeasesOf(claims: seq<Claim>, owner: nat): (leases: seq<Lease>)
    ensures |leases| == |claims|
    ensures forall k :: 0 <= k < |claims| ==>
              leases[k] == Lease(claims[k].run.automationId, claims[k].run.id, owner, claims[k].leaseExpiresAt)
  {
    seq(|claims|, k requires 0 <= k < |claims| =>
      Lease(claims[k].run.automationId, claims[k].run.id, owner, claims[k].leaseExpiresAt))
  }

  // ---------------------------------------------------------------- one turn

  /** What the turn of spec `i` adds, by whether its slot has a run and whether it has a lease. */
  ghost predicate Turned(s: State, i: nat, r: Claimed, now: int, owner: nat, leaseMs: int)
    requires i < |s.specs| == |r.state.specs|
  {
    var spec, spec' := s.specs[i], r.state.specs[i];
    && r.state.specs == s.specs[i := spec'] && Advanced(spec, spec', now)
    && r.state.runs == s.runs + r.added && r.state.leases == s.leases + LeasesOf(r.claims, owner)
    && r.state.nextRunId == s.nextRunId + |r.added|
    && |r.claims| <= |r.added| <= 1 && (r.added != [] ==> r.added[0].id == s.nextRunId)
    && (HasKey(s.runs, (spec.id, spec.nextRunAt)) <==> r.added == [])
    && (Free(s, i, now) <==> |r.claims| == 1)
    && (r.claims != [] ==> ClaimOf(spec, spec', r.claims[0], now, leaseMs) && r.added == [r.claims[0].run])
    && (r.claims == [] && r.added != [] ==> SkipOf(spec, r.added[0], now) && HasLease(s.leases, spec.id, now))
  }

  lemma TurnHandsOut(s: State, i: nat, now: int, owner: nat, leaseMs: int)
    requires i < |s.specs| && ClaimOne(s, i, now, owner, leaseMs).Some?
    ensures var r := ClaimOne(s, i, now, owner, leaseMs).value;
            |r.state.specs| == |s.specs| && Turned(s, i, r, now, owner, leaseMs)
  {
    hide HasKey, HasLease, NextTriggerAt, Planned;
    NextTriggerPlans(s.specs[i].trigger, now);
    var r := ClaimOne(s, i, now, owner, leaseMs).value;
    if r.claims == [] {
      assert s.leases + LeasesOf([], owner) == s.leases;
    } else {
      assert LeasesOf(r.claims, owner) == [Lease(s.specs[i].id, s.nextRunId, owner, r.claims[0].leaseExpiresAt)];
    }
  }

  // ---------------------------------------------------------------- the loop

  predicate Places(s: State, due: seq<nat>) {
    forall x :: 0 <= x < |due| ==> due[x] < |s.specs|
  }

  /** The ledgers grow by what is handed out, under new ids. */
  ghost predicate Booked(s: State, r: Claimed, owner: nat) {
    && r.state.runs == s.runs + r.added && r.state.leases == s.leases + LeasesOf(r.claims, owner)
    && r.state.nextRunId == s.nextRunId + |r.added|
    && forall k :: 0 <= k < |r.added| ==> r.added[k].id == s.nextRunId + k
  }

  /** The claim is for the slot of visited spec `i`, which had neither a run nor a lease. */
  ghost predicate ClaimFrom(s: State, i: nat, r: Claimed, c: Claim, now: int, leaseMs: int) {
    && i < |s.specs| == |r.state.specs| && Free(s, i, now)
    && ClaimOf(s.specs[i], r.state.specs[i], c, now, leaseMs) && c.run in r.added
  }

  /** The skipped run is for the slot of visited spec `i`, which has a lease. */
  ghost predicate SkipFrom(s: State, i: nat, run: Run, now: int) {
    i < |s.specs| && SkipOf(s.specs[i], run, now) && HasLease(s.leases, s.specs[i].id, now)
  }

  ghost predicate Sourced(s: State, due: seq<nat>, r: Claimed, now: int, leaseMs: int) {
    && (forall c :: c in r.claims ==> exists i :: i in due && ClaimFrom(s, i, r, c, now, leaseMs))
    && (forall run :: run in r.added ==>
          (exists c :: c in r.claims && c.run == run) || exists i :: i in due && SkipFrom(s, i, run, now))
  }

  /** A visited spec is planned anew, and has its slot claimed, or recorded as skipped, unless
      the slot has its run. */
  ghost predicate Served(s: State, i: nat, r: Claimed, now: int, leaseMs: int)
    requires i < |s.specs|
  {
    && |r.state.specs| == |s.specs| && Advanced(s.specs[i], r.state.specs[i], now)
    && (Free(s, i, now) ==> exists c :: c in r.claims && ClaimFrom(s, i, r, c, now, leaseMs))
    && (!HasKey(s.runs, (s.specs[i].id, s.specs[i].nextRunAt)) && !Free(s, i, now) ==>
          exists run :: run in r.added && SkipFrom(s, i, run, now))
  }

  /** The loop reaches position `k` as long as fewer than `limit` before it could be claimed. */
  ghost predicate Covers(s: State, due: seq<nat>, r: Claimed, limit: nat, now: int, leaseMs: int)
    requires Places(s, due)
  {
    forall k :: 0 <= k < |due| ==>
      if CountFree(s, due[..k], now) < limit then Served(s, due[k], r, now, leaseMs)
      else |r.state.specs| == |s.specs| && r.state.specs[due[k]] == s.specs[due[k]]
  }

  lemma {:induction false} LoopBooks(s: State, due: seq<nat>, limit: nat, now: int, owner: nat, leaseMs: int)
    requires Places(s, due) && ClaimLoop(s, due, limit, now, owner, leaseMs).Some?
    ensures Booked(s, ClaimLoop(s, due, limit, now, owner, leaseMs).value, owner)
    decreases |due|
  {
    hide ClaimOne, Turned;
    if due == [] {
      BookedNone(s, owner);
    } else {
      var n := |due| - 1;
      LoopBooks(s, due[..n], limit, now, owner, leaseMs);
      var before := ClaimLoop(s, due[..n], limit, now, owner, leaseMs).value;
      if |before.claims| < limit {
        TurnHandsOut(before.state, due[n], now, owner, leaseMs);
        BookedMore(s, before, due[n], ClaimOne(before.state, due[n], now, owner, leaseMs).value, now, owner, leaseMs);
      }
    }
  }

  lemma BookedNone(s: State, owner: nat)
    ensures Booked(s, Claimed(s, [], []), owner)
  {
    assert s.runs + [] == s.runs && s.leases + LeasesOf([], owner) == s.leases;
  }

  lemma BookedMore(s: State, before: Claimed, i: nat, one: Claimed, now: int, owner: nat, leaseMs: int)
    requires Booked(s, before, owner) && i < |before.state.specs| == |one.state.specs|
    requires Turned(before.state, i, one, now, owner, leaseMs)
    ensures Booked(s, Claimed(one.state, before.added + one.added, before.claims + one.claims), owner)
  {
    hide HasKey, Free, ClaimOf, SkipOf, Advanced;
    assert LeasesOf(before.claims + one.claims, owner) == LeasesOf(before.claims, owner) + LeasesOf(one.claims, owner);
  }

  /** The same turn, told from the state at the start of the loop. */
  lemma TurnFromStart(
    s: State, mid: State, front: seq<nat>, i: nat, one: Claimed, now: int, owner: nat, leaseMs: int)
    requires DistinctSpecs(s.specs) && Places(s, front) && i < |s.specs| && DistinctOrder(front + [i])
    requires Untouched(s, mid, front, now) && |mid.specs| == |one.state.specs|
    requires i < |mid.specs| && Turned(mid, i, one, now, owner, leaseMs)
    ensures i !in front && Free(mid, i, now) == Free(s, i, now) && mid.specs[i] == s.specs[i]
    ensures HasKey(s.runs, (s.specs[i].id, s.specs[i].nextRunAt)) <==> one.added == []
    ensures HasLease(s.leases, s.specs[i].id, now) <==> HasLease(mid.leases, s.specs[i].id, now)
  {
    hide HasKey, HasLease, Free, ClaimOf, SkipOf, Advanced, ForSlot, DistinctSpecs;
    forall k | 0 <= k < |front| ensures front[k] != i {
      assert (front + [i])[k] == front[k] && (front + [i])[|front|] == i;
    }
    FreeStill(s, mid, front, i, now);
  }

  function Joined(before: Claimed, one: Claimed): Claimed {
    Claimed(one.state, before.added + one.added, before.claims + one.claims)
  }

  lemma ClaimStays(s: State, j: nat, i: nat, before: Claimed, one: Claimed, c: Claim, now: int, leaseMs: int)
    requires ClaimFrom(s, j, before, c, now, leaseMs) && i != j && i < |before.state.specs|
    requires |one.state.specs| == |before.state.specs|
    requires one.state.specs == before.state.specs[i := one.state.specs[i]]
    ensures ClaimFrom(s, j, Joined(before, one), c, now, leaseMs)
  {
    hide Free, ClaimOf;
  }

  /** What the turn of `i` hands out comes from `i`. */
  lemma TurnSourced(
    s: State, before: Claimed, front: seq<nat>, i: nat, one: Claimed, now: int, owner: nat, leaseMs: int)
    requires DistinctSpecs(s.specs) && Places(s, front) && i < |s.specs| && DistinctOrder(front + [i])
    requires Untouched(s, before.state, front, now) && |before.state.specs| == |one.state.specs|
    requires i < |before.state.specs| && Turned(before.state, i, one, now, owner, leaseMs)
    ensures forall c :: c in one.claims ==> ClaimFrom(s, i, Joined(before, one), c, now, leaseMs)
    ensures forall run :: run in one.added ==>
              (exists c :: c in one.claims && c.run == run) || SkipFrom(s, i, run, now)
    ensures Served(s, i, Joined(before, one), now, leaseMs)
  {
    hide HasKey, HasLease, Free, ClaimOf, SkipOf, Advanced, DistinctOrder, Untouched;
    TurnFromStart(s, before.state, front, i, one, now, owner, leaseMs);
    SpecsLong(s, before.state, front, now);
    var r := Joined(before, one);
    if one.claims != [] {
      assert one.claims == [one.claims[0]] && one.added == [one.added[0]];
      assert one.claims[0] in r.claims && one.added[0] in r.added;
      assert ClaimFrom(s, i, r, one.claims[0], now, leaseMs);
    } else if one.added != [] {
      assert one.added == [one.added[0]] && one.added[0] in r.added;
      assert SkipFrom(s, i, one.added[0], now);
    }
  }

  lemma SpecsLong(s: State, mid: State, front: seq<nat>, now: int)
    requires Places(s, front) && Untouched(s, mid, front, now)
    ensures |mid.specs| == |s.specs|
  {
  }

  lemma SourcedMore(s: State, before: Claimed, front: seq<nat>, i: nat, one: Claimed, now: int, leaseMs: int)
    requires Sourced(s, front, before, now, leaseMs) && i < |before.state.specs| == |one.state.specs| && i !in front
    requires one.state.specs == before.state.specs[i := one.state.specs[i]]
    requires forall c :: c in one.claims ==> ClaimFrom(s, i, Joined(before, one), c, now, leaseMs)
    requires forall run :: run in one.added ==>
               (exists c :: c in one.claims && c.run == run) || SkipFrom(s, i, run, now)
    ensures Sourced(s, front + [i], Joined(before, one), now, leaseMs)
  {
    hide ClaimFrom, SkipFrom;
    var due, r := front + [i], Joined(before, one);
    assert i in due && forall j :: j in front ==> j in due;
    forall c | c in r.claims ensures exists j :: j in due && ClaimFrom(s, j, r, c, now, leaseMs) {
      if c in before.claims {
        var j :| j in front && ClaimFrom(s, j, before, c, now, leaseMs);
        ClaimStays(s, j, i, before, one, c, now, leaseMs);
      }
    }
    forall run | run in r.added
      ensures (exists c :: c in r.claims && c.run == run) || exists j :: j in due && SkipFrom(s, j, run, now)
    {
      if run in before.added {
        if c :| c in before.claims && c.run == run { assert c in r.claims; }
      } else if c :| c in one.claims && c.run == run {
        assert c in r.claims;
      }
    }
  }

  lemma ServedStays(s: State, j: nat, i: nat, before: Claimed, one: Claimed, now: int, leaseMs: int)
    requires j < |s.specs| && Served(s, j, before, now, leaseMs) && i != j
    requires i < |before.state.specs| == |one.state.specs|
    requires one.state.specs == before.state.specs[i := one.state.specs[i]]
    ensures Served(s, j, Joined(before, one), now, leaseMs)
  {
    hide Free, HasKey, Advanced, ClaimFrom, SkipFrom;
    var r := Joined(before, one);
    if Free(s, j, now) {
      var c :| c in before.claims && ClaimFrom(s, j, before, c, now, leaseMs);
      ClaimStays(s, j, i, before, one, c, now, leaseMs);
      assert c in r.claims;
    } else if !HasKey(s.runs, (s.specs[j].id, s.specs[j].nextRunAt)) {
      var run :| run in before.added && SkipFrom(s, j, run, now);
      assert run in r.added;
    }
  }

  lemma CoversMore(s: State, before: Claimed, front: seq<nat>, i: nat, one: Claimed, limit: nat, now: int, leaseMs: int)
    requires Places(s, front) && i < |s.specs| && i !in front && CountFree(s, front, now) < limit
    requires Covers(s, front, before, limit, now, leaseMs)
    requires i < |before.state.specs| == |one.state.specs|
    requires one.state.specs == before.state.specs[i := one.state.specs[i]]
    requires Served(s, i, Joined(before, one), now, leaseMs)
    ensures Places(s, front + [i]) && Covers(s, front + [i], Joined(before, one), limit, now, leaseMs)
  {
    hide Served, CountFree;
    var due, r := front + [i], Joined(before, one);
    forall k | 0 <= k < |due|
      ensures if CountFree(s, due[..k], now) < limit then Served(s, due[k], r, now, leaseMs)
              else |r.state.specs| == |s.specs| && r.state.specs[due[k]] == s.specs[due[k]]
    {
      if k < |front| {
        assert due[..k] == front[..k] && due[k] == front[k] && front[k] in front;
        if CountFree(s, due[..k], now) < limit { ServedStays(s, front[k], i, before, one, now, leaseMs); }
      } else {
        assert due[..k] == front;
      }
    }
  }

  lemma CoversFull(s: State, r: Claimed, front: seq<nat>, i: nat, limit: nat, now: int, leaseMs: int)
    requires Places(s, front) && i < |s.specs| && i !in front && CountFree(s, front, now) >= limit
    requires Covers(s, front, r, limit, now, leaseMs) && Untouched(s, r.state, front, now)
    ensures Places(s, front + [i]) && Covers(s, front + [i], r, limit, now, leaseMs)
  {
    hide Served, CountFree, HasKey, HasLease, Among;
    var due := front + [i];
    forall k | 0 <= k < |due|
      ensures if CountFree(s, due[..k], now) < limit then Served(s, due[k], r, now, leaseMs)
              else |r.state.specs| == |s.specs| && r.state.specs[due[k]] == s.specs[due[k]]
    {
      if k < |front| {
        assert due[..k] == front[..k] && due[k] == front[k];
      } else {
        assert due[..k] == front;
      }
    }
  }

  lemma {:induction false} LoopHandsOut(s: State, due: seq<nat>, limit: nat, now: int, owner: nat, leaseMs: int)
    requires DistinctSpecs(s.specs) && DistinctOrder(due) && Places(s, due)
    requires ClaimLoop(s, due, limit, now, owner, leaseMs).Some?
    ensures var r := ClaimLoop(s, due, limit, now, owner, leaseMs).value;
            Sourced(s, due, r, now, leaseMs) && Covers(s, due, r, limit, now, leaseMs)
    decreases |due|
  {
    hide Sourced, Covers, Free, ClaimOne, Untouched, DistinctSpecs, Served, ClaimFrom, SkipFrom, ClaimOf, Advanced;
    if due == [] {
      NothingYet(s, limit, now, leaseMs);
    } else {
      var n := |due| - 1;
      var front, i := due[..n], due[n];
      assert due == front + [i];
      LoopHandsOut(s, front, limit, now, owner, leaseMs);
      LoopClaims(s, front, limit, now, owner, leaseMs);
      var before := ClaimLoop(s, front, limit, now, owner, leaseMs).value;
      LastApart(front, i);
      if |before.claims| >= limit {
        CoversFull(s, before, front, i, limit, now, leaseMs);
        SourcedFull(s, front, i, before, now, leaseMs);
      } else {
        var one := ClaimOne(before.state, i, now, owner, leaseMs).value;
        TurnHandsOut(before.state, i, now, owner, leaseMs);
        TurnSourced(s, before, front, i, one, now, owner, leaseMs);
        SourcedMore(s, before, front, i, one, now, leaseMs);
        CoversMore(s, before, front, i, one, limit, now, leaseMs);
      }
    }
  }

  lemma LastApart(front: seq<nat>, i: nat)
    requires DistinctOrder(front + [i])
    ensures i !in front
  {
    forall k | 0 <= k < |front| ensures front[k] != i {
      assert (front + [i])[k] == front[k] && (front + [i])[|front|] == i;
    }
  }

  lemma NothingYet(s: State, limit: nat, now: int, leaseMs: int)
    ensures Sourced(s, [], Claimed(s, [], []), now, leaseMs)
    ensures Covers(s, [], Claimed(s, [], []), limit, now, leaseMs)
  {
  }

  lemma SourcedFull(s: State, front: seq<nat>, i: nat, r: Claimed, now: int, leaseMs: int)
    requires Sourced(s, front, r, now, leaseMs)
    ensures Sourced(s, front + [i], r, now, leaseMs)
  {
    hide ClaimFrom, SkipFrom;
    assert forall j :: j in front ==> j in front + [i];
  }

  // ---------------------------------------------------------------- claimDue

  /** What a claim that does not throw hands out and records, told from the state before it. */
  ghost predicate Outcome(s: State, r: Claimed, limit: nat, now: int, owner: nat, leaseMs: int) {
    && (forall c :: c in r.claims ==> exists i :: i in DueNow(s, now) && ClaimFrom(s, i, r, c, now, leaseMs))
    && (forall run :: run in r.added ==>
          (exists c :: c in r.claims && c.run == run) || exists i :: i in DueNow(s, now) && SkipFrom(s, i, run, now))
    && Covers(s, DueNow(s, now), r, limit, now, leaseMs)
    && (forall l :: l in r.state.leases <==> (l in s.leases && l.expiresAt > now) || l in LeasesOf(r.claims, owner))
    && Newest(r.state.runs, RecoverExpired(s, now).runs + r.added)
  }

  /** The newest 2000 of all runs. */
  ghost predicate Newest(runs: seq<Run>, all: seq<Run>) {
    && |runs| == (if |all| <= 2000 then |all| else 2000)
    && runs == all[|all| - |runs|..]
  }

  /** Each claim is a new running run for a due slot that had neither a run nor a lease, under
      a lease of the claimer that lasts as stated, and no other lease is on that run. */
  lemma ClaimGives(s: State, limit: int, now: int, owner: nat, leaseMs: int)
    requires Inv(s) && ClaimDue(s, limit, now, owner, leaseMs).Some?
    ensures 1 <= limit && Outcome(s, ClaimDue(s, limit, now, owner, leaseMs).value, limit, now, owner, leaseMs)
    ensures var r := ClaimDue(s, limit, now, owner, leaseMs).value;
            forall c, l :: c in r.claims && l in r.state.leases ==>
              (l.runId == c.run.id <==> l == Lease(c.run.automationId, c.run.id, owner, c.leaseExpiresAt))
  {
    hide Inv, RecoverExpired, ClaimLoop, TrimHistory, Sourced, Covers, Newest;
    var s1, due, r := RecoverExpired(s, now), DueNow(s, now), ClaimDue(s, limit, now, owner, leaseMs).value;
    InvSpecs(s);
    RecoverShape(s, now);
    DueNowIs(s, now);
    var loop := ClaimLoop(s1, due, limit, now, owner, leaseMs).value;
    LoopBooks(s1, due, limit, now, owner, leaseMs);
    LoopHandsOut(s1, due, limit, now, owner, leaseMs);
    TrimNewest(loop.state);
    FromRecovered(s, s1, due, loop, r, limit, now, leaseMs);
    ClaimDueKeeps(s, limit, now, owner, leaseMs);
    InvSpecs(r.state);
    OneLeaseEach(r, owner);
  }

  lemma InvSpecs(s: State)
    requires Inv(s)
    ensures DistinctSpecs(s.specs) && DistinctLeases(s.leases)
  {
  }

  lemma TrimNewest(s: State)
    ensures TrimHistory(s) == s.(runs := TrimHistory(s).runs) && Newest(TrimHistory(s).runs, s.runs)
  {
  }

  /** Recovery changes neither the specs nor what is claimable. */
  lemma FromRecovered(
    s: State, s1: State, due: seq<nat>, loop: Claimed, r: Claimed, limit: nat, now: int, leaseMs: int)
    requires s1 == RecoverExpired(s, now) && s1.specs == s.specs && due == DueNow(s, now)
    requires Sourced(s1, due, loop, now, leaseMs) && Covers(s1, due, loop, limit, now, leaseMs)
    requires r.claims == loop.claims && r.added == loop.added && r.state.specs == loop.state.specs
    ensures forall c :: c in r.claims ==> exists i :: i in due && ClaimFrom(s, i, r, c, now, leaseMs)
    ensures forall run :: run in r.added ==>
              (exists c :: c in r.claims && c.run == run) || exists i :: i in due && SkipFrom(s, i, run, now)
    ensures Covers(s, due, r, limit, now, leaseMs)
  {
    hide RecoverExpired, Free, CountFree, Served, ClaimFrom, SkipFrom, DueOrder;
    forall c | c in r.claims ensures exists i :: i in due && ClaimFrom(s, i, r, c, now, leaseMs) {
      var i :| i in due && ClaimFrom(s1, i, loop, c, now, leaseMs);
      SameTurn(s, s1, i, loop, r, now, leaseMs);
    }
    forall run | run in r.added && !exists c :: c in r.claims && c.run == run
      ensures exists i :: i in due && SkipFrom(s, i, run, now)
    {
      var i :| i in due && SkipFrom(s1, i, run, now);
      SameTurn(s, s1, i, loop, r, now, leaseMs);
    }
    forall k | 0 <= k < |due|
      ensures if CountFree(s, due[..k], now) < limit then Served(s, due[k], r, now, leaseMs)
              else |r.state.specs| == |s.specs| && r.state.specs[due[k]] == s.specs[due[k]]
    {
      RecoveryFrees(s, due[..k], now);
      SameTurn(s, s1, due[k], loop, r, now, leaseMs);
    }
  }

  lemma SameTurn(s: State, s1: State, i: nat, loop: Claimed, r: Claimed, now: int, leaseMs: int)
    requires i < |s.specs| && s1 == RecoverExpired(s, now) && s1.specs == s.specs
    requires r.claims == loop.claims && r.added == loop.added && r.state.specs == loop.state.specs
    ensures forall c :: ClaimFrom(s1, i, loop, c, now, leaseMs) <==> ClaimFrom(s, i, r, c, now, leaseMs)
    ensures forall run :: SkipFrom(s1, i, run, now) <==> SkipFrom(s, i, run, now)
    ensures Served(s1, i, loop, now, leaseMs) <==> Served(s, i, r, now, leaseMs)
  {
    hide ClaimOf, SkipOf, Advanced, RecoverExpired;
    SameFacts(s, i, now);
  }

  lemma SameFacts(s: State, i: nat, now: int)
    requires i < |s.specs|
    ensures var s1 := RecoverExpired(s, now);
            var id, key := s.specs[i].id, (s.specs[i].id, s.specs[i].nextRunAt);
            && s1.specs == s.specs && (HasKey(s1.runs, key) <==> HasKey(s.runs, key))
            && (HasLease(s1.leases, id, now) <==> HasLease(s.leases, id, now))
  {
    var s1 := RecoverExpired(s, now);
    KeepIs(s.leases, (l: Lease) => l.expiresAt > now);
    InterruptedKeys(s.runs, s.leases, now);
    SameKeys(s.runs, s1.runs, (s.specs[i].id, s.specs[i].nextRunAt));
  }

  lemma OneLeaseEach(r: Claimed, owner: nat)
    requires DistinctLeases(r.state.leases) && forall l :: l in LeasesOf(r.claims, owner) ==> l in r.state.leases
    ensures forall c, l :: c in r.claims && l in r.state.leases ==>
              (l.runId == c.run.id <==> l == Lease(c.run.automationId, c.run.id, owner, c.leaseExpiresAt))
  {
    forall c, l | c in r.claims && l in r.state.leases && l.runId == c.run.id
      ensures l == Lease(c.run.automationId, c.run.id, owner, c.leaseExpiresAt)
    {
      ClaimLease(r.claims, owner, c);
      var mine := Lease(c.run.automationId, c.run.id, owner, c.leaseExpiresAt);
      var i :| 0 <= i < |r.state.leases| && r.state.leases[i] == l;
      var j :| 0 <= j < |r.state.leases| && r.state.leases[j] == mine;
      assert !(i < j) && !(j < i);
    }
  }

  lemma ClaimLease(claims: seq<Claim>, owner: nat, c: Claim)
    requires c in claims
    ensures Lease(c.run.automationId, c.run.id, owner, c.leaseExpiresAt) in LeasesOf(claims, owner)
  {
    var k :| 0 <= k < |claims| && claims[k] == c;
    assert LeasesOf(claims, owner)[k] in LeasesOf(claims, owner);
  }

  // ---------------------------------------------------------------- until the lease is over

  /** While a lease lasts, a claim by anybody leaves it and its run as they are, hands out
      nothing for its automation, and records a slot of that automation that it comes to as
      skipped. */
  lemma LeaseHolds(s: State, l: Lease, limit: int, now: int, owner: nat, leaseMs: int)
    requires Inv(s) && l in s.leases && now < l.expiresAt && ClaimDue(s, limit, now, owner, leaseMs).Some?
    ensures var r := ClaimDue(s, limit, now, owner, leaseMs).value;
            && l in r.state.leases
            && (forall run :: run in s.runs && run.id == l.runId ==> run in RecoverExpired(s, now).runs)
            && (forall c :: c in r.claims ==> c.run.automationId != l.automationId)
            && (forall run :: run in r.added && run.automationId == l.automationId ==> run.status == Skipped)
            && 1 <= limit
            && forall k :: 0 <= k < |DueNow(s, now)| && CountFree(s, DueNow(s, now)[..k], now) < limit ==>
                 var spec := s.specs[DueNow(s, now)[k]];
                 spec.id == l.automationId && !HasKey(s.runs, (spec.id, spec.nextRunAt)) ==>
                   exists run :: run in r.added && SkipOf(spec, run, now)
  {
    hide Inv, ClaimDue, RecoverExpired, CountFree, DueOrder, Newest, ClaimOf, SkipOf, Advanced, HasKey;
    ClaimGives(s, limit, now, owner, leaseMs);
    var r, due := ClaimDue(s, limit, now, owner, leaseMs).value, DueNow(s, now);
    assert HasLease(s.leases, l.automationId, now);
    RunStays(s, l, now);
    forall c | c in r.claims ensures c.run.automationId != l.automationId {
      var i :| i in due && ClaimFrom(s, i, r, c, now, leaseMs);
      ClaimIds(s.specs[i], r.state.specs[i], c, now, leaseMs);
    }
    forall run | run in r.added && run.automationId == l.automationId ensures run.status == Skipped {
      if !exists c :: c in r.claims && c.run == run {
        var i :| i in due && SkipFrom(s, i, run, now);
        SkipIs(s.specs[i], run, now);
      }
    }
    forall k | 0 <= k < |due| && CountFree(s, due[..k], now) < limit && s.specs[due[k]].id == l.automationId
               && !HasKey(s.runs, (s.specs[due[k]].id, s.specs[due[k]].nextRunAt))
      ensures exists run :: run in r.added && SkipOf(s.specs[due[k]], run, now)
    {
      assert Served(s, due[k], r, now, leaseMs);
      var run :| run in r.added && SkipFrom(s, due[k], run, now);
    }
  }

  lemma ClaimIds(spec: Spec, spec': Spec, c: Claim, now: int, leaseMs: int)
    requires ClaimOf(spec, spec', c, now, leaseMs)
    ensures c.run.automationId == spec.id
  {
  }

  lemma SkipIs(spec: Spec, run: Run, now: int)
    requires SkipOf(spec, run, now)
    ensures run.status == Skipped
  {
  }

  lemma RunStays(s: State, l: Lease, now: int)
    requires Inv(s) && l in s.leases && now < l.expiresAt
    ensures forall run :: run in s.runs && run.id == l.runId ==> run in RecoverExpired(s, now).runs
  {
    RecoverShape(s, now);
    var s1 := RecoverExpired(s, now);
    hide RecoverExpired;
    forall run | run in s.runs && run.id == l.runId ensures run in s1.runs {
      var k :| 0 <= k < |s.runs| && s.runs[k] == run;
      NotOver(s, l, run, now);
      assert s1.runs[k] == Recovered(run, s.leases, now);
    }
  }

  lemma NotOver(s: State, l: Lease, run: Run, now: int)
    requires Inv(s) && l in s.leases && now < l.expiresAt && run.id == l.runId
    ensures Recovered(run, s.leases, now) == run
  {
  }
}
