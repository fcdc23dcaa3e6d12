/** When a claim throws, and how many automations it claims otherwise, told from the state. */
module AutomationThrows {
  import opened Arithmetic
  import opened Calendar
  import opened CronEngine
  import opened AutomationSteps
  import opened AutomationLaws

  /** Nothing stands in the way of a claim: the slot has no run yet and no lease is live. */
  predicate Free(s: State, i: nat, now: int)
    requires i < |s.specs|
  {
    !HasKey(s.runs, (s.specs[i].id, s.specs[i].nextRunAt)) && !HasLease(s.leases, s.specs[i].id, now)
  }

  function CountFree(s: State, due: seq<nat>, now: int): (n: nat)
    requires forall x :: 0 <= x < |due| ==> due[x] < |s.specs|
    ensures n <= |due|
  {
    if due == [] then 0 else
    CountFree(s, due[..|due| - 1], now) + if Free(s, due[|due| - 1], now) then 1 else 0
  }

  /** The `k`-th due spec has no next slot, and fewer than `limit` before it can be claimed. */
  ghost predicate Blocks(s: State, due: seq<nat>, k: nat, limit: nat, now: int)
    requires k < |due| && forall x :: 0 <= x < |due| ==> due[x] < |s.specs|
  {
    NoSlot(s.specs[due[k]].trigger, now) && CountFree(s, due[..k], now) < limit
  }

  // ---------------------------------------------------------------- what a turn leaves alone

  predicate Among(s: State, due: seq<nat>, id: nat)
    requires forall x :: 0 <= x < |due| ==> due[x] < |s.specs|
  {
    exists k :: 0 <= k < |due| && s.specs[due[k]].id == id
  }

  /** For automations the loop has not come to, everything is as it was. */
  ghost predicate Untouched(s: State, mid: State, due: seq<nat>, now: int)
    requires forall x :: 0 <= x < |due| ==> due[x] < |s.specs|
  {
    && |mid.specs| == |s.specs|
    && (forall i :: 0 <= i < |s.specs| && i !in due ==> mid.specs[i] == s.specs[i])
    && (forall i :: 0 <= i < |s.specs| ==> mid.specs[i].id == s.specs[i].id)
    && (forall id, slot :: !Among(s, due, id) ==> (HasKey(mid.runs, (id, slot)) <==> HasKey(s.runs, (id, slot))))
    && (forall id :: !Among(s, due, id) ==> (HasLease(mid.leases, id, now) <==> HasLease(s.leases, id, now)))
  }

  lemma KeyAdded(runs: seq<Run>, run: Run, key: (nat, int))
    requires key != run.key
    ensures HasKey(runs + [run], key) <==> HasKey(runs, key)
  {
    if HasKey(runs, key) {
      var r :| r in runs && r.key == key;
      assert r in runs + [run];
    }
  }

  lemma LeaseAddedElsewhere(leases: seq<Lease>, lease: Lease, id: nat, now: int)
    requires id != lease.automationId
    ensures HasLease(leases + [lease], id, now) <==> HasLease(leases, id, now)
  {
    if HasLease(leases, id, now) {
      var l :| l in leases && l.automationId == id && l.expiresAt > now;
      assert l in leases + [lease];
    }
  }

  /** One turn touches its own automation only, and claims it if it is free. */
  lemma TurnIs(s: State, i: nat, now: int, owner: nat, leaseMs: int)
    requires i < |s.specs|
    ensures ClaimOne(s, i, now, owner, leaseMs).None? <==> NextTriggerAt(s.specs[i].trigger, now).None?
    ensures ClaimOne(s, i, now, owner, leaseMs).Some? ==>
              var c := ClaimOne(s, i, now, owner, leaseMs).value;
              && |c.claims| == (if Free(s, i, now) then 1 else 0)
              && |c.state.specs| == |s.specs| && c.state.specs[i].id == s.specs[i].id
              && (forall k :: 0 <= k < |s.specs| && k != i ==> c.state.specs[k] == s.specs[k])
              && (forall id, slot :: id != s.specs[i].id ==>
                    (HasKey(c.state.runs, (id, slot)) <==> HasKey(s.runs, (id, slot))))
              && (forall id :: id != s.specs[i].id ==>
                    (HasLease(c.state.leases, id, now) <==> HasLease(s.leases, id, now)))
  {
    hide HasKey, HasLease, NextTriggerAt, Smaller;
    if ClaimOne(s, i, now, owner, leaseMs).Some? {
      var c := ClaimOne(s, i, now, owner, leaseMs).value;
      forall id, slot | id != s.specs[i].id
        ensures HasKey(c.state.runs, (id, slot)) <==> HasKey(s.runs, (id, slot))
      {
        if c.added != [] { KeyAdded(s.runs, c.added[0], (id, slot)); }
      }
      forall id | id != s.specs[i].id ensures HasLease(c.state.leases, id, now) <==> HasLease(s.leases, id, now) {
        if |c.state.leases| > |s.leases| {
          LeaseAddedElsewhere(s.leases, c.state.leases[|s.leases|], id, now);
        }
      }
    }
  }

  /** A spec the loop has not come to is as free as it was at the start. */
  lemma FreeStill(s: State, mid: State, due: seq<nat>, i: nat, now: int)
    requires forall x :: 0 <= x < |due| ==> due[x] < |s.specs|
    requires DistinctSpecs(s.specs) && Untouched(s, mid, due, now) && i < |s.specs| && i !in due
    ensures !Among(s, due, s.specs[i].id)
    ensures Free(mid, i, now) <==> Free(s, i, now)
  {
    hide HasKey, HasLease;
    forall k | 0 <= k < |due| ensures s.specs[due[k]].id != s.specs[i].id {
      assert due[k] in due;
    }
  }

  lemma UntouchedOn(s: State, mid: State, end: State, front: seq<nat>, i: nat, now: int)
    requires i < |s.specs| && forall x :: 0 <= x < |front| ==> front[x] < |s.specs|
    requires Untouched(s, mid, front, now) && |end.specs| == |mid.specs| && end.specs[i].id == mid.specs[i].id
    requires forall k :: 0 <= k < |mid.specs| && k != i ==> end.specs[k] == mid.specs[k]
    requires forall id, slot :: id != mid.specs[i].id ==>
        (HasKey(end.runs, (id, slot)) <==> HasKey(mid.runs, (id, slot)))
    requires forall id :: id != mid.specs[i].id ==> (HasLease(end.leases, id, now) <==> HasLease(mid.leases, id, now))
    ensures Untouched(s, end, front + [i], now)
  {
    hide HasKey, HasLease, Among;
    var due := front + [i];
    forall id | !Among(s, due, id) ensures !Among(s, front, id) && id != s.specs[i].id {
      AmongMore(s, front, i, id);
    }
    assert forall k :: k in due <==> k in front || k == i;
  }

  lemma AmongMore(s: State, front: seq<nat>, i: nat, id: nat)
    requires i < |s.specs| && forall x :: 0 <= x < |front| ==> front[x] < |s.specs|
    ensures Among(s, front + [i], id) <==> Among(s, front, id) || id == s.specs[i].id
  {
    var due := front + [i];
    if Among(s, front, id) {
      var k :| 0 <= k < |front| && s.specs[front[k]].id == id;
      assert due[k] == front[k];
    }
    assert due[|front|] == i;
  }

  // ---------------------------------------------------------------- the loop

  /** A loop that does not throw claims the first free ones, up to the limit. */
  lemma {:induction false} LoopClaims(s: State, due: seq<nat>, limit: nat, now: int, owner: nat, leaseMs: int)
    requires DistinctSpecs(s.specs) && DistinctOrder(due) && forall x :: 0 <= x < |due| ==> due[x] < |s.specs|
    requires ClaimLoop(s, due, limit, now, owner, leaseMs).Some?
    ensures |ClaimLoop(s, due, limit, now, owner, leaseMs).value.claims| == Smaller(limit, CountFree(s, due, now))
    ensures Untouched(s, ClaimLoop(s, due, limit, now, owner, leaseMs).value.state, due, now)
    decreases |due|
  {
    hide Free, ClaimOne, Untouched, DistinctSpecs;
    if due == [] {
      StartUntouched(s, now);
    } else {
      var n := |due| - 1;
      var front, i := due[..n], due[n];
      LoopClaims(s, front, limit, now, owner, leaseMs);
      var before := ClaimLoop(s, front, limit, now, owner, leaseMs).value;
      assert due == front + [i];
      if |before.claims| >= limit {
        UntouchedMore(s, before.state, front, i, now);
      } else {
        LoopTurns(s, before.state, front, i, now, owner, leaseMs);
      }
    }
  }

  lemma StartUntouched(s: State, now: int)
    ensures Untouched(s, s, [], now)
  {
    hide HasKey, HasLease;
  }

  lemma UntouchedMore(s: State, mid: State, front: seq<nat>, i: nat, now: int)
    requires i < |s.specs| && forall x :: 0 <= x < |front| ==> front[x] < |s.specs|
    requires Untouched(s, mid, front, now)
    ensures Untouched(s, mid, front + [i], now)
  {
    UntouchedOn(s, mid, mid, front, i, now);
  }

  lemma LoopTurns(s: State, mid: State, front: seq<nat>, i: nat, now: int, owner: nat, leaseMs: int)
    requires DistinctSpecs(s.specs) && i < |s.specs| && forall x :: 0 <= x < |front| ==> front[x] < |s.specs|
    requires DistinctOrder(front + [i]) && Untouched(s, mid, front, now)
    ensures |mid.specs| == |s.specs| && mid.specs[i] == s.specs[i]
    ensures ClaimOne(mid, i, now, owner, leaseMs).None? <==> NextTriggerAt(s.specs[i].trigger, now).None?
    ensures ClaimOne(mid, i, now, owner, leaseMs).Some? ==>
              var c := ClaimOne(mid, i, now, owner, leaseMs).value;
              |c.claims| == (if Free(s, i, now) then 1 else 0) && Untouched(s, c.state, front + [i], now)
  {
    hide ClaimOne, HasKey, HasLease, Free, NextTriggerAt;
    var due := front + [i];
    forall k | 0 <= k < |front| ensures front[k] != i { assert due[k] == front[k] && due[|front|] == i; }
    TurnIs(mid, i, now, owner, leaseMs);
    FreeStill(s, mid, front, i, now);
    if ClaimOne(mid, i, now, owner, leaseMs).Some? {
      UntouchedOn(s, mid, ClaimOne(mid, i, now, owner, leaseMs).value.state, front, i, now);
    }
  }

  /** The loop throws if and only if a due spec without a next slot comes before `limit`
      claimable ones have. */
  lemma {:induction false} LoopThrows(s: State, due: seq<nat>, limit: nat, now: int, owner: nat, leaseMs: int)
    requires DistinctSpecs(s.specs) && DistinctOrder(due) && forall x :: 0 <= x < |due| ==> due[x] < |s.specs|
    ensures ClaimLoop(s, due, limit, now, owner, leaseMs).None? <==>
        exists k :: 0 <= k < |due| && Blocks(s, due, k, limit, now)
    decreases |due|
  {
    hide NextTriggerAt, NoSlot, Planned, Free, ClaimOne, DistinctSpecs, Untouched;
    if due != [] {
      var n := |due| - 1;
      var front, i := due[..n], due[n];
      LoopThrows(s, front, limit, now, owner, leaseMs);
      forall k | 0 <= k < n ensures Blocks(s, front, k, limit, now) <==> Blocks(s, due, k, limit, now) {
        assert front[..k] == due[..k];
      }
      var before := ClaimLoop(s, front, limit, now, owner, leaseMs);
      if before.Some? {
        LoopClaims(s, front, limit, now, owner, leaseMs);
        assert due == front + [i];
        LoopTurns(s, before.value.state, front, i, now, owner, leaseMs);
        NextTriggerPlans(s.specs[i].trigger, now);
        assert ClaimLoop(s, due, limit, now, owner, leaseMs).None? <==> Blocks(s, due, n, limit, now);
      }
    }
  }

  // ---------------------------------------------------------------- claimDue

  /** Positions of the due specs in the order a claim visits them. */
  function DueNow(s: State, now: int): (due: seq<nat>)
    ensures forall x :: 0 <= x < |due| ==> due[x] < |s.specs|
  {
    DueOrder(s.specs, now, |s.specs|)
  }

  /** Recovery ends runs and drops leases that are over: nobody becomes claimable by it. */
  lemma {:induction false} RecoveryFrees(s: State, due: seq<nat>, now: int)
    requires forall x :: 0 <= x < |due| ==> due[x] < |s.specs|
    ensures RecoverExpired(s, now).specs == s.specs
    ensures CountFree(RecoverExpired(s, now), due, now) == CountFree(s, due, now)
    decreases |due|
  {
    hide RecoverExpired, Free;
    RecoverySpecs(s, now);
    if due != [] {
      var n := |due| - 1;
      RecoveryFrees(s, due[..n], now);
      FreeAfterRecovery(s, due[n], now);
    }
  }

  lemma RecoverySpecs(s: State, now: int)
    ensures RecoverExpired(s, now).specs == s.specs
  {
  }

  lemma FreeAfterRecovery(s: State, i: nat, now: int)
    requires i < |s.specs|
    ensures RecoverExpired(s, now).specs == s.specs
    ensures Free(RecoverExpired(s, now), i, now) <==> Free(s, i, now)
  {
    var s' := RecoverExpired(s, now);
    KeepIs(s.leases, (l: Lease) => l.expiresAt > now);
    InterruptedKeys(s.runs, s.leases, now);
    SameKeys(s.runs, s'.runs, (s.specs[i].id, s.specs[i].nextRunAt));
  }

  lemma SameKeys(runs: seq<Run>, runs': seq<Run>, key: (nat, int))
    requires |runs'| == |runs| && forall k :: 0 <= k < |runs| ==> runs'[k].key == runs[k].key
    ensures HasKey(runs', key) <==> HasKey(runs, key)
  {
    if HasKey(runs, key) {
      var r :| r in runs && r.key == key;
      var k :| 0 <= k < |runs| && runs[k] == r;
      assert runs'[k] in runs';
    }
    if HasKey(runs', key) {
      var r :| r in runs' && r.key == key;
      var k :| 0 <= k < |runs'| && runs'[k] == r;
      assert runs[k] in runs;
    }
  }

  lemma {:induction false} InterruptKeys(runs: seq<Run>, id: nat, now: int)
    ensures forall k :: 0 <= k < |runs| ==> Interrupt(runs, id, now)[k].key == runs[k].key
    decreases |runs|
  {
    if runs != [] {
      InterruptKeys(runs[1..], id, now);
    }
  }

  lemma {:induction false} InterruptedKeys(runs: seq<Run>, leases: seq<Lease>, now: int)
    ensures forall k :: 0 <= k < |runs| ==> InterruptAll(runs, leases, now)[k].key == runs[k].key
    decreases |leases|
  {
    if leases != [] {
      var front, l := leases[..|leases| - 1], leases[|leases| - 1];
      InterruptedKeys(runs, front, now);
      InterruptKeys(InterruptAll(runs, front, now), l.runId, now);
    }
  }

  /** A claim throws, and loses everything, if and only if its limit is out of range or a due
      automation without a next slot comes before `limit` claimable ones. */
  lemma ClaimThrows(s: State, limit: int, now: int, owner: nat, leaseMs: int)
    requires DistinctSpecs(s.specs)
    ensures ClaimDue(s, limit, now, owner, leaseMs).None? <==>
            || limit < 1 || limit > 100
            || exists k :: 0 <= k < |DueNow(s, now)| && Blocks(s, DueNow(s, now), k, limit, now)
  {
    hide NoSlot, Free, RecoverExpired, ClaimLoop, CountFree;
    if 1 <= limit <= 100 {
      var s1, due := RecoverExpired(s, now), DueNow(s, now);
      RecoverySpecs(s, now);
      DueOrderIs(s.specs, now, |s.specs|);
      LoopThrows(s1, due, limit, now, owner, leaseMs);
      forall k | 0 <= k < |due| ensures Blocks(s1, due, k, limit, now) <==> Blocks(s, due, k, limit, now) {
        RecoveryFrees(s, due[..k], now);
      }
    }
  }

  /** A claim that does not throw claims as many of the due automations as are claimable, up
      to the limit. */
  lemma ClaimCounts(s: State, limit: int, now: int, owner: nat, leaseMs: int)
    requires DistinctSpecs(s.specs) && ClaimDue(s, limit, now, owner, leaseMs).Some?
    ensures |ClaimDue(s, limit, now, owner, leaseMs).value.claims| == Smaller(limit, CountFree(s, DueNow(s, now), now))
  {
    hide Free, RecoverExpired, ClaimLoop, CountFree, TrimHistory, Untouched;
    var due := DueNow(s, now);
    RecoverySpecs(s, now);
    DueOrderIs(s.specs, now, |s.specs|);
    LoopClaims(RecoverExpired(s, now), due, limit, now, owner, leaseMs);
    RecoveryFrees(s, due, now);
  }

  lemma {:induction false} InsertSorted(specs: seq<Spec>, order: seq<nat>, i: nat)
    requires i < |specs| && (forall k :: 0 <= k < |order| ==> order[k] < i) && InOrder(specs, order)
    ensures InOrder(specs, InsertDue(specs, order, i))
    decreases |order|
  {
    var out := InsertDue(specs, order, i);
    if order != [] {
      var n := |order| - 1;
      if Before(specs[order[n]], specs[i]) {
        forall k | 0 <= k < n ensures Before(specs[order[k]], specs[i]) {}
      } else {
        InsertSorted(specs, order[..n], i);
        InsertDueIs(specs, order[..n], i);
        var front := InsertDue(specs, order[..n], i);
        forall k | 0 <= k < |front| ensures Before(specs[front[k]], specs[order[n]]) {
          assert front[k] in front;
          if front[k] in order[..n] {
            var m :| 0 <= m < n && order[m] == front[k];
          }
        }
      }
    }
  }

  ghost predicate InOrder(specs: seq<Spec>, order: seq<nat>)
    requires forall k :: 0 <= k < |order| ==> order[k] < |specs|
  {
    forall i, j :: 0 <= i < j < |order| ==> Before(specs[order[i]], specs[order[j]])
  }

  lemma {:induction false} DueSorted(specs: seq<Spec>, now: int, n: nat)
    requires n <= |specs|
    ensures InOrder(specs, DueOrder(specs, now, n))
    decreases n
  {
    hide Due, InsertDue, InOrder;
    if n == 0 {
      NoneInOrder(specs);
    } else {
      DueSorted(specs, now, n - 1);
      if Due(specs[n - 1], now) {
        InsertSorted(specs, DueOrder(specs, now, n - 1), n - 1);
      }
    }
  }

  lemma NoneInOrder(specs: seq<Spec>)
    ensures InOrder(specs, [])
  {
  }

  /** A claim visits exactly the due automations, each once, the earliest slot first. */
  lemma DueNowIs(s: State, now: int)
    ensures forall i: nat :: i in DueNow(s, now) <==>
              i < |s.specs| && s.specs[i].enabled && s.specs[i].nextRunAt <= now
    ensures DistinctOrder(DueNow(s, now))
    ensures forall i, j :: 0 <= i < j < |DueNow(s, now)| ==>
              var a, b := s.specs[DueNow(s, now)[i]], s.specs[DueNow(s, now)[j]];
              a.nextRunAt < b.nextRunAt || (a.nextRunAt == b.nextRunAt && a.id <= b.id)
  {
    DueOrderIs(s.specs, now, |s.specs|);
    DueSorted(s.specs, now, |s.specs|);
  }

  // ---------------------------------------------------------------- the leap day

  /** One enabled automation for the leap day blocks all the others: once its slot has come,
      for a thousand days every claim in which fewer than `limit` claimable automations are
      due before it throws, and claims nothing for anybody. */
  lemma LeapDayBlocks(s: State, k: nat, y: int, limit: int, now: int, owner: nat, leaseMs: int)
    requires DistinctSpecs(s.specs) && 1 <= limit && IsLeap(y) && k < |DueNow(s, now)|
    requires var spec := s.specs[DueNow(s, now)[k]];
             var day := DayFromCivil(Civil(y, 2, 29));
             spec.trigger == CronTrigger(LEAP_DAY) && spec.nextRunAt == At(day, 0, 0) && now <= At(day + 1000, 0, 0)
    requires CountFree(s, DueNow(s, now)[..k], now) < limit
    ensures ClaimDue(s, limit, now, owner, leaseMs).None?
  {
    hide DayFromCivil, At, NextCron, ClaimDue, CountFree, DueOrder, NoSlot, Planned;
    DueNowIs(s, now);
    assert DueNow(s, now)[k] in DueNow(s, now);
    LeapDayThrows(y, now);
    NextTriggerPlans(CronTrigger(LEAP_DAY), now);
    assert Blocks(s, DueNow(s, now), k, limit, now);
    ClaimThrows(s, limit, now, owner, leaseMs);
  }

  /** Saving is enough to get there: in the year before a leap day it plans the automation for
      that midnight, and from then on every claim throws for a thousand days. */
  lemma LeapDayReached(y: int, id: nat, timeoutMs: int, now: int, limit: int, later: int, owner: nat, leaseMs: int)
    requires IsLeap(y)
    requires var day := DayFromCivil(Civil(y, 2, 29));
             At(day - 366, 0, 0) <= now < At(day, 0, 0) <= later <= At(day + 1000, 0, 0)
    ensures var saved := Save(State([], [], [], 0), id, CronTrigger(LEAP_DAY), true, timeoutMs, true, now);
            && saved.Some? && saved.value.1.nextRunAt == At(DayFromCivil(Civil(y, 2, 29)), 0, 0)
            && ClaimDue(saved.value.0, limit, later, owner, leaseMs).None?
  {
    hide DayFromCivil, At, NextCron, ClaimDue, CountFree;
    LeapDayPlanned(y, now);
    var s := Save(State([], [], [], 0), id, CronTrigger(LEAP_DAY), true, timeoutMs, true, now).value.0;
    DueNowIs(s, later);
    assert 0 in DueNow(s, later);
    var k: nat :| k < |DueNow(s, later)| && DueNow(s, later)[k] == 0;
    if 1 <= limit {
      LeapDayBlocks(s, k, y, limit, later, owner, leaseMs);
    } else {
      ClaimThrows(s, limit, later, owner, leaseMs);
    }
  }
}
