/** What holds in every run of the automation store, whatever the clock does. */
module AutomationLaws {
  import opened Arithmetic
  import opened Options
  import opened CronEngine
  import opened AutomationSteps

  // ---------------------------------------------------------------- the invariant

  ghost predicate DistinctSpecs(specs: seq<Spec>) {
    forall i, j :: 0 <= i < j < |specs| ==> specs[i].id != specs[j].id
  }

  /** Run ids and idempotency keys are each used once in the retained history. */
  ghost predicate DistinctRuns(runs: seq<Run>) {
    forall i, j :: 0 <= i < j < |runs| ==> runs[i].id != runs[j].id && runs[i].key != runs[j].key
  }

  /** At most one lease per automation, and per run. */
  ghost predicate DistinctLeases(leases: seq<Lease>) {
    forall i, j :: 0 <= i < j < |leases| ==>
      leases[i].runId != leases[j].runId && leases[i].automationId != leases[j].automationId
  }

  predicate Leased(leases: seq<Lease>, runId: nat) {
    exists l :: l in leases && l.runId == runId
  }

  predicate IsSpec(specs: seq<Spec>, id: nat) {
    exists i :: 0 <= i < |specs| && specs[i].id == id
  }

  /** A lease whose run is still in the history belongs to a running run of its automation. */
  ghost predicate LeaseFits(l: Lease, runs: seq<Run>) {
    forall r :: r in runs && r.id == l.runId ==> r.status == Running && r.automationId == l.automationId
  }

  ghost predicate Inv(s: State) {
    && DistinctSpecs(s.specs) && DistinctRuns(s.runs) && DistinctLeases(s.leases)
    && (forall r :: r in s.runs ==> r.id < s.nextRunId)
    && (forall l :: l in s.leases ==> l.runId < s.nextRunId && IsSpec(s.specs, l.automationId) && LeaseFits(l, s.runs))
    && (forall r :: r in s.runs && r.status == Running ==> Leased(s.leases, r.id))
  }

  /** A terminal run stays exactly as it is; a running one keeps its slot. */
  ghost predicate Follows(s: State, s': State) {
    && s'.nextRunId >= s.nextRunId
    && forall r' :: r' in s'.runs ==>
         r'.id >= s.nextRunId || exists r :: r in s.runs && Evolves(r, r')
  }

  predicate Evolves(r: Run, r': Run) {
    && r'.id == r.id && r'.automationId == r.automationId && r'.key == r.key
    && r'.scheduledAt == r.scheduledAt && r'.startedAt == r.startedAt
    && (r.status != Running ==> r' == r)
  }

  // ---------------------------------------------------------------- when to run next

  /** `at` is the next slot after `after`: the interval later, or the first match of the cron
      expression. */
  ghost predicate Planned(trigger: Trigger, after: int, at: int) {
    match trigger
    case Interval(everyMs) => at == after + everyMs
    case CronTrigger(cron) =>
      && WholeMinute(at) && after < at && Matches(cron, at)
      && forall t :: WholeMinute(t) && after < t < at ==> !Matches(cron, t)
  }

  /** The cron expression has no match in the 366 days to come. */
  ghost predicate NoSlot(trigger: Trigger, after: int) {
    trigger.CronTrigger? &&
    forall t :: WholeMinute(t) && after < t <= FirstMinute(after) + WINDOW ==> !Matches(trigger.cron, t)
  }

  lemma NextTriggerPlans(trigger: Trigger, after: int)
    ensures NextTriggerAt(trigger, after).None? <==> NoSlot(trigger, after)
    ensures NextTriggerAt(trigger, after).Some? ==> Planned(trigger, after, NextTriggerAt(trigger, after).value)
  {
    hide Matches, NextCron, FirstMinute, WholeMinute;
    if trigger.CronTrigger? { NextIsLeast(trigger.cron, after); }
  }

  // ---------------------------------------------------------------- leases

  lemma {:induction false} KeepIs(leases: seq<Lease>, f: Lease -> bool)
    ensures forall l :: l in Keep(leases, f) <==> l in leases && f(l)
    decreases |leases|
  {
    if leases != [] {
      KeepIs(leases[..|leases| - 1], f);
      assert leases == leases[..|leases| - 1] + [leases[|leases| - 1]];
    }
  }

  lemma {:induction false} KeepDistinct(leases: seq<Lease>, f: Lease -> bool)
    requires DistinctLeases(leases)
    ensures DistinctLeases(Keep(leases, f))
    decreases |leases|
  {
    if leases != [] {
      var n := |leases| - 1;
      KeepDistinct(leases[..n], f);
      KeepIs(leases[..n], f);
      var k := Keep(leases[..n], f);
      forall i | 0 <= i < |k| ensures k[i].runId != leases[n].runId && k[i].automationId != leases[n].automationId {
        assert k[i] in leases[..n];
        var j :| 0 <= j < n && leases[..n][j] == k[i];
        assert leases[j].runId != leases[n].runId && leases[j].automationId != leases[n].automationId;
      }
    }
  }

  // ---------------------------------------------------------------- recovery

  function Ended(r: Run, now: int): Run {
    r.(status := Interrupted, finishedAt := Some(now))
  }

  lemma {:induction false} InterruptAt(runs: seq<Run>, id: nat, now: int, k: nat)
    requires DistinctRuns(runs) && k < |runs|
    ensures Interrupt(runs, id, now)[k]
         == if runs[k].id == id && runs[k].status == Running then Ended(runs[k], now) else runs[k]
    decreases |runs|
  {
    if runs[0].id == id && runs[0].status == Running {
      if k > 0 { assert runs[0].id != runs[k].id; }
    } else if k > 0 {
      InterruptAt(runs[1..], id, now, k - 1);
    }
  }

  predicate Expired(leases: seq<Lease>, runId: nat, now: int) {
    exists l :: l in leases && l.runId == runId && l.expiresAt <= now
  }

  function Recovered(r: Run, leases: seq<Lease>, now: int): Run {
    if r.status == Running && Expired(leases, r.id, now) then Ended(r, now) else r
  }

  /** Recovery interrupts exactly the running runs whose lease has expired. */
  lemma {:induction false} InterruptAllAt(runs: seq<Run>, leases: seq<Lease>, now: int)
    requires DistinctRuns(runs)
    ensures DistinctRuns(InterruptAll(runs, leases, now))
    ensures forall k :: 0 <= k < |runs| ==>
      InterruptAll(runs, leases, now)[k] == Recovered(runs[k], leases, now)
    decreases |leases|
  {
    if leases != [] {
      var n := |leases| - 1;
      var front, l := leases[..n], leases[n];
      InterruptAllAt(runs, front, now);
      assert leases == front + [l];
      assert forall x :: x in leases <==> x in front || x == l;
      var rest := InterruptAll(runs, front, now);
      forall k | 0 <= k < |runs|
        ensures InterruptAll(runs, leases, now)[k] == Recovered(runs[k], leases, now)
      {
        if l.expiresAt <= now { InterruptAt(rest, l.runId, now, k); }
      }
    }
  }

  /** The history changed run by run, in place. */
  lemma InPlace(s: State, s': State)
    requires |s'.runs| == |s.runs| && s'.nextRunId == s.nextRunId
    requires forall k :: 0 <= k < |s.runs| ==> Evolves(s.runs[k], s'.runs[k])
    ensures Follows(s, s') && (DistinctRuns(s.runs) ==> DistinctRuns(s'.runs))
    ensures (forall r :: r in s.runs ==> r.id < s.nextRunId) ==> forall r :: r in s'.runs ==> r.id < s'.nextRunId
  {
    forall r' | r' in s'.runs ensures exists r :: r in s.runs && Evolves(r, r') {
      var k :| 0 <= k < |s'.runs| && s'.runs[k] == r';
      assert s.runs[k] in s.runs && Evolves(s.runs[k], r');
    }
    if DistinctRuns(s.runs) {
      forall i, j | 0 <= i < j < |s'.runs| ensures s'.runs[i].id != s'.runs[j].id && s'.runs[i].key != s'.runs[j].key {
        assert Evolves(s.runs[i], s'.runs[i]) && Evolves(s.runs[j], s'.runs[j]);
      }
    }
  }

  /** What recovery does to each run and each lease. */
  lemma RecoverShape(s: State, now: int)
    requires Inv(s)
    ensures var s' := RecoverExpired(s, now);
            && |s'.runs| == |s.runs| && s'.specs == s.specs && s'.nextRunId == s.nextRunId
            && DistinctLeases(s'.leases)
            && (forall l :: l in s'.leases <==> l in s.leases && l.expiresAt > now)
            && (forall k :: 0 <= k < |s.runs| ==> Evolves(s.runs[k], s'.runs[k]))
            && (forall k :: 0 <= k < |s.runs| ==> s'.runs[k] == Recovered(s.runs[k], s.leases, now))
  {
    var live := (l: Lease) => l.expiresAt > now;
    InterruptAllAt(s.runs, s.leases, now);
    KeepIs(s.leases, live);
    KeepDistinct(s.leases, live);
  }

  lemma RecoverLeases(s: State, s': State, now: int)
    requires Inv(s) && s'.specs == s.specs && s'.nextRunId == s.nextRunId && |s'.runs| == |s.runs|
    requires forall l :: l in s'.leases <==> l in s.leases && l.expiresAt > now
    requires forall k :: 0 <= k < |s.runs| ==> s'.runs[k] == Recovered(s.runs[k], s.leases, now)
    ensures forall l :: l in s'.leases ==> LeaseFits(l, s'.runs)
    ensures forall r :: r in s'.runs && r.status == Running ==> Leased(s'.leases, r.id)
  {
    forall l, r' | l in s'.leases && r' in s'.runs && r'.id == l.runId
      ensures r'.status == Running && r'.automationId == l.automationId
    {
      var k :| 0 <= k < |s'.runs| && s'.runs[k] == r';
      StaysLeased(s, l, s.runs[k], now);
    }
    forall r' | r' in s'.runs && r'.status == Running ensures Leased(s'.leases, r'.id) {
      var k :| 0 <= k < |s'.runs| && s'.runs[k] == r';
      assert s.runs[k] in s.runs && Leased(s.leases, r'.id);
      var l :| l in s.leases && l.runId == r'.id;
      assert l in s'.leases;
    }
  }

  /** After recovery every lease left has time to run. */
  lemma RecoverKeeps(s: State, now: int)
    requires Inv(s)
    ensures var s' := RecoverExpired(s, now);
            && Inv(s') && Follows(s, s') && s'.specs == s.specs && s'.nextRunId == s.nextRunId
            && (forall l :: l in s'.leases ==> l.expiresAt > now)
  {
    hide RecoverExpired, LeaseFits, Leased, DistinctLeases, DistinctRuns, DistinctSpecs, Follows, Expired;
    RecoverShape(s, now);
    InPlace(s, RecoverExpired(s, now));
    RecoverLeases(s, RecoverExpired(s, now), now);
  }

  /** The run of an unexpired lease has no expired one. */
  lemma StaysLeased(s: State, l: Lease, r: Run, now: int)
    requires Inv(s) && l in s.leases && l.expiresAt > now && r in s.runs && r.id == l.runId
    ensures r.status == Running && r.automationId == l.automationId && !Expired(s.leases, r.id, now)
  {
    assert LeaseFits(l, s.runs);
    forall m | m in s.leases && m.runId == r.id ensures m == l { OneLease(s.leases, l, m); }
  }

  lemma OneLease(leases: seq<Lease>, l: Lease, m: Lease)
    requires DistinctLeases(leases) && l in leases && m in leases
    requires l.runId == m.runId || l.automationId == m.automationId
    ensures l == m
  {
    var i :| 0 <= i < |leases| && leases[i] == l;
    var j :| 0 <= j < |leases| && leases[j] == m;
  }

  // ---------------------------------------------------------------- one claim

  lemma FollowsSame(s: State, s': State)
    requires s'.runs == s.runs && s'.nextRunId >= s.nextRunId
    ensures Follows(s, s')
  {
    forall r' | r' in s'.runs ensures exists r :: r in s.runs && Evolves(r, r') {
      assert Evolves(r', r');
    }
  }

  lemma FollowsTrans(a: State, b: State, c: State)
    requires Follows(a, b) && Follows(b, c)
    ensures Follows(a, c)
  {
    forall r' | r' in c.runs && r'.id < a.nextRunId ensures exists r :: r in a.runs && Evolves(r, r') {
      var m :| m in b.runs && Evolves(m, r');
      var r :| r in a.runs && Evolves(r, m);
      assert Evolves(r, r');
    }
  }

  lemma SameSpecIds(specs: seq<Spec>, specs': seq<Spec>)
    requires |specs'| == |specs| && forall i :: 0 <= i < |specs| ==> specs'[i].id == specs[i].id
    ensures DistinctSpecs(specs) ==> DistinctSpecs(specs')
    ensures forall id :: IsSpec(specs, id) ==> IsSpec(specs', id)
  {
    forall id | IsSpec(specs, id) ensures IsSpec(specs', id) {
      var i :| 0 <= i < |specs| && specs[i].id == id;
      assert specs'[i].id == id;
    }
  }

  /** Recording a run under a new key keeps the invariant; a running one needs the automation
      to be without a lease, and brings one. */
  lemma RecordKeeps(s: State, s': State, run: Run, lease: Option<Lease>)
    requires Inv(s) && run.id == s.nextRunId && !HasKey(s.runs, run.key)
    requires DistinctSpecs(s'.specs) && forall id :: IsSpec(s.specs, id) ==> IsSpec(s'.specs, id)
    requires s'.runs == s.runs + [run] && s'.nextRunId == s.nextRunId + 1
    requires if lease.Some?
             then && run.status == Running && lease.value.runId == run.id
                  && lease.value.automationId == run.automationId && IsSpec(s'.specs, run.automationId)
                  && (forall l :: l in s.leases ==> l.automationId != run.automationId)
                  && s'.leases == s.leases + [lease.value]
             else run.status == Skipped && s'.leases == s.leases
    ensures Inv(s') && Follows(s, s')
  {
    forall r | r in s.runs ensures r.key != run.key {}
    assert DistinctRuns(s'.runs);
    forall i | 0 <= i < |s.leases| ensures s.leases[i] in s.leases {}
    assert DistinctLeases(s'.leases);
    forall l | l in s'.leases ensures LeaseFits(l, s'.runs) {
      if l in s.leases { assert LeaseFits(l, s.runs); }
    }
    forall r | r in s'.runs && r.status == Running ensures Leased(s'.leases, r.id) {
      if r in s.runs {
        assert Leased(s.leases, r.id);
        var l :| l in s.leases && l.runId == r.id;
        assert l in s'.leases;
      } else {
        assert lease.value in s'.leases;
      }
    }
    forall r' | r' in s'.runs && r'.id < s.nextRunId ensures exists r :: r in s.runs && Evolves(r, r') {
      assert Evolves(r', r');
    }
  }

  /** What one claim does to the leases: nothing, or one more for this automation. */
  ghost predicate LeaseAdded(s: State, s': State, automationId: nat) {
    forall l :: l in s'.leases ==> l in s.leases || l.automationId == automationId
  }

  lemma ClaimOneKeeps(s: State, i: nat, now: int, owner: nat, leaseMs: int)
    requires Inv(s) && i < |s.specs| && ClaimOne(s, i, now, owner, leaseMs).Some?
    requires forall l :: l in s.leases && l.automationId == s.specs[i].id ==> l.expiresAt > now
    ensures var s' := ClaimOne(s, i, now, owner, leaseMs).value.state;
            Inv(s') && Follows(s, s') && LeaseAdded(s, s', s.specs[i].id)
  {
    var spec := s.specs[i];
    var c := ClaimOne(s, i, now, owner, leaseMs).value;
    var s' := c.state;
    SameSpecIds(s.specs, s'.specs);
    assert s.specs[i].id == spec.id && IsSpec(s.specs, spec.id);
    if HasKey(s.runs, (spec.id, spec.nextRunAt)) {
      FollowsSame(s, s');
    } else if HasLease(s.leases, spec.id, now) {
      RecordKeeps(s, s', c.added[0], None);
    } else {
      var lease := s'.leases[|s.leases|];
      forall l | l in s.leases ensures l.automationId != spec.id {}
      RecordKeeps(s, s', c.added[0], Some(lease));
    }
  }

  // ---------------------------------------------------------------- the claim loop

  ghost predicate DistinctOrder(order: seq<nat>) {
    forall i, j :: 0 <= i < j < |order| ==> order[i] != order[j]
  }

  lemma {:induction false} InsertDueIs(specs: seq<Spec>, order: seq<nat>, i: nat)
    requires i < |specs| && forall k :: 0 <= k < |order| ==> order[k] < i
    ensures forall x: nat :: x in InsertDue(specs, order, i) <==> x in order || x == i
    ensures |InsertDue(specs, order, i)| == |order| + 1
    decreases |order|
  {
    hide Before;
    if order != [] {
      var n := |order| - 1;
      assert order == order[..n] + [order[n]];
      InsertDueIs(specs, order[..n], i);
    }
  }

  lemma {:induction false} InsertDueDistinct(specs: seq<Spec>, order: seq<nat>, i: nat)
    requires i < |specs| && (forall k :: 0 <= k < |order| ==> order[k] < i) && DistinctOrder(order)
    ensures DistinctOrder(InsertDue(specs, order, i))
    decreases |order|
  {
    hide Before;
    if order != [] {
      var n := |order| - 1;
      InsertDueDistinct(specs, order[..n], i);
      InsertDueIs(specs, order[..n], i);
      var out := InsertDue(specs, order[..n], i);
      forall k | 0 <= k < |out| ensures out[k] != order[n] {
        assert out[k] in out;
      }
    }
  }

  /** The loop visits exactly the due specs, each once. */
  lemma {:induction false} DueOrderIs(specs: seq<Spec>, now: int, n: nat)
    requires n <= |specs|
    ensures forall x: nat :: x in DueOrder(specs, now, n) <==> x < n && Due(specs[x], now)
    ensures DistinctOrder(DueOrder(specs, now, n)) && |DueOrder(specs, now, n)| <= n
    decreases n
  {
    hide Due, InsertDue, DistinctOrder;
    if n == 0 {
      NoneDistinct();
    } else {
      DueOrderIs(specs, now, n - 1);
      var order := DueOrder(specs, now, n - 1);
      if Due(specs[n - 1], now) {
        InsertDueIs(specs, order, n - 1);
        InsertDueDistinct(specs, order, n - 1);
      }
    }
  }

  lemma NoneDistinct()
    ensures DistinctOrder([])
  {
  }

  predicate SameSpec(a: Spec, b: Spec) {
    b.id == a.id && b.trigger == a.trigger && b.enabled == a.enabled
  }

  /** Between two turns of the loop: specs still to come are as they were, and leases of
      their automations are those that were there, all unexpired. */
  ghost predicate Midway(s: State, s': State, due: seq<nat>, now: int)
    requires forall k :: 0 <= k < |due| ==> due[k] < |s.specs|
  {
    && Inv(s') && Follows(s, s') && |s'.specs| == |s.specs|
    && (forall i :: 0 <= i < |s.specs| ==> SameSpec(s.specs[i], s'.specs[i]))
    && (forall i :: 0 <= i < |s.specs| && i !in due ==> s'.specs[i] == s.specs[i])
    && (forall l :: l in s'.leases ==>
         l.expiresAt > now || exists k :: 0 <= k < |due| && s.specs[due[k]].id == l.automationId)
  }

  lemma {:induction false} ClaimLoopKeeps(s: State, due: seq<nat>, limit: nat, now: int, owner: nat, leaseMs: int)
    requires Inv(s) && DistinctOrder(due) && forall k :: 0 <= k < |due| ==> due[k] < |s.specs|
    requires forall l :: l in s.leases ==> l.expiresAt > now
    requires ClaimLoop(s, due, limit, now, owner, leaseMs).Some?
    ensures Midway(s, ClaimLoop(s, due, limit, now, owner, leaseMs).value.state, due, now)
    decreases |due|
  {
    hide ClaimOne, Inv, Follows;
    SpecsApart(s);
    if due == [] {
      FollowsSame(s, s);
    } else {
      var n := |due| - 1;
      var front, i := due[..n], due[n];
      ClaimLoopKeeps(s, front, limit, now, owner, leaseMs);
      var before := ClaimLoop(s, front, limit, now, owner, leaseMs).value;
      assert forall x :: x in front ==> x in due;
      assert forall k :: 0 <= k < n ==> front[k] == due[k];
      if |before.claims| < limit {
        LoopTurn(s, before.state, due, now, owner, leaseMs);
      }
    }
  }

  lemma SpecsApart(s: State)
    requires Inv(s)
    ensures DistinctSpecs(s.specs)
  {
  }

  lemma LoopTurn(s: State, mid: State, due: seq<nat>, now: int, owner: nat, leaseMs: int)
    requires due != [] && DistinctOrder(due) && (forall k :: 0 <= k < |due| ==> due[k] < |s.specs|)
    requires DistinctSpecs(s.specs) && Midway(s, mid, due[..|due| - 1], now)
    requires ClaimOne(mid, due[|due| - 1], now, owner, leaseMs).Some?
    ensures Midway(s, ClaimOne(mid, due[|due| - 1], now, owner, leaseMs).value.state, due, now)
  {
    hide Inv, Follows;
    var n := |due| - 1;
    var i := due[n];
    forall l | l in mid.leases && l.automationId == mid.specs[i].id ensures l.expiresAt > now {
      forall k | 0 <= k < n ensures s.specs[due[k]].id != l.automationId {
        assert due[k] != due[n];
      }
    }
    ClaimOneKeeps(mid, i, now, owner, leaseMs);
    var s' := ClaimOne(mid, i, now, owner, leaseMs).value.state;
    FollowsTrans(s, mid, s');
    assert i in due && forall x :: x in due[..n] ==> x in due;
    forall l | l in s'.leases
      ensures l.expiresAt > now || exists k :: 0 <= k < |due| && s.specs[due[k]].id == l.automationId
    {
      if l in mid.leases {
        if l.expiresAt <= now {
          var k :| 0 <= k < n && s.specs[due[..n][k]].id == l.automationId;
          assert s.specs[due[k]].id == l.automationId;
        }
      } else {
        assert s.specs[due[n]].id == l.automationId;
      }
    }
  }

  lemma {:induction false} ClaimsAtMost(s: State, due: seq<nat>, limit: nat, now: int, owner: nat, leaseMs: int)
    requires limit >= 1 && forall k :: 0 <= k < |due| ==> due[k] < |s.specs|
    requires ClaimLoop(s, due, limit, now, owner, leaseMs).Some?
    ensures |ClaimLoop(s, due, limit, now, owner, leaseMs).value.claims| <= Smaller(limit, |due|)
    decreases |due|
  {
    if due != [] {
      ClaimsAtMost(s, due[..|due| - 1], limit, now, owner, leaseMs);
    }
  }

  lemma TrimKeeps(s: State)
    requires Inv(s)
    ensures Inv(TrimHistory(s)) && Follows(s, TrimHistory(s))
  {
    hide Follows, DistinctSpecs, DistinctLeases, DistinctRuns, IsSpec, Leased;
    var s' := TrimHistory(s);
    if |s.runs| > MAX_HISTORY {
      TailDistinct(s.runs, |s.runs| - MAX_HISTORY);
      FollowsTail(s, s');
      forall l | l in s'.leases ensures LeaseFits(l, s'.runs) { assert LeaseFits(l, s.runs); }
    } else {
      FollowsSame(s, s');
    }
  }

  lemma TailDistinct(runs: seq<Run>, cut: nat)
    requires DistinctRuns(runs) && cut <= |runs|
    ensures DistinctRuns(runs[cut..]) && forall r :: r in runs[cut..] ==> r in runs
  {
  }

  lemma FollowsTail(s: State, s': State)
    requires s'.nextRunId >= s.nextRunId && forall r :: r in s'.runs ==> r in s.runs
    ensures Follows(s, s')
  {
    forall r | r in s'.runs ensures Evolves(r, r) {}
  }

  lemma ClaimDueKeeps(s: State, limit: int, now: int, owner: nat, leaseMs: int)
    requires Inv(s) && ClaimDue(s, limit, now, owner, leaseMs).Some?
    ensures var c := ClaimDue(s, limit, now, owner, leaseMs).value;
            Inv(c.state) && Follows(s, c.state) && |c.claims| <= limit
  {
    hide Inv, Follows, RecoverExpired, ClaimLoop, TrimHistory;
    RecoverKeeps(s, now);
    var s1 := RecoverExpired(s, now);
    var due := DueOrder(s1.specs, now, |s1.specs|);
    DueOrderIs(s1.specs, now, |s1.specs|);
    ClaimLoopKeeps(s1, due, limit, now, owner, leaseMs);
    ClaimsAtMost(s1, due, limit, now, owner, leaseMs);
    var s2 := ClaimLoop(s1, due, limit, now, owner, leaseMs).value.state;
    TrimKeeps(s2);
    FollowsTrans(s, s1, s2);
    FollowsTrans(s, s2, TrimHistory(s2));
  }

  // ---------------------------------------------------------------- the other operations

  /** A save replaces the one record with its id, or adds a new one; runs and leases stay. */
  lemma SaveKeeps(s: State, id: nat, trigger: Trigger, enabled: bool, timeoutMs: int, accepted: bool, now: int)
    returns (i: nat)
    requires Inv(s) && Save(s, id, trigger, enabled, timeoutMs, accepted, now).Some?
    ensures var (s', record) := Save(s, id, trigger, enabled, timeoutMs, accepted, now).value;
            && Inv(s') && Follows(s, s')
            && s'.runs == s.runs && s'.leases == s.leases && s'.nextRunId == s.nextRunId
            && i <= |s.specs| && (i < |s.specs| <==> IsSpec(s.specs, id))
            && s'.specs == (if i < |s.specs| then s.specs[i := record] else s.specs + [record])
            && (i < |s.specs| ==> s.specs[i].id == id && record.createdAt == s.specs[i].createdAt)
            && record == Spec(id, trigger, enabled, timeoutMs, if i < |s.specs| then record.createdAt else now, now,
                              record.nextRunAt)
            && Planned(trigger, now, record.nextRunAt)
  {
    hide NextTriggerAt, Planned, Inv, Follows, Replace, DistinctSpecs;
    NextTriggerPlans(trigger, now);
    InvDistinct(s);
    i := FindSpec(s.specs, id);
    var (s', record) := Save(s, id, trigger, enabled, timeoutMs, accepted, now).value;
    FollowsSame(s, s');
    if i < |s.specs| {
      assert s.specs[i].id == id;
      OnlyReplaced(s.specs, i, record);
      SameSpecIds(s.specs, s'.specs);
    } else {
      OneMoreSpec(s.specs, record);
    }
    OtherSpecsKeep(s, s');
  }

  lemma InvDistinct(s: State)
    requires Inv(s)
    ensures DistinctSpecs(s.specs)
  {
  }

  lemma OneMoreSpec(specs: seq<Spec>, record: Spec)
    requires DistinctSpecs(specs) && !IsSpec(specs, record.id)
    ensures DistinctSpecs(specs + [record]) && forall x :: IsSpec(specs, x) ==> IsSpec(specs + [record], x)
  {
    forall x | IsSpec(specs, x) ensures IsSpec(specs + [record], x) {
      var k :| 0 <= k < |specs| && specs[k].id == x;
      assert (specs + [record])[k].id == x;
    }
    forall k | 0 <= k < |specs| ensures specs[k].id != record.id { assert !IsSpec(specs, record.id); }
  }

  lemma OtherSpecsKeep(s: State, s': State)
    requires Inv(s) && s'.runs == s.runs && s'.leases == s.leases && s'.nextRunId == s.nextRunId
    requires DistinctSpecs(s'.specs) && forall x :: IsSpec(s.specs, x) ==> IsSpec(s'.specs, x)
    ensures Inv(s')
  {
  }

  lemma OnlyReplaced(specs: seq<Spec>, i: nat, record: Spec)
    requires DistinctSpecs(specs) && i < |specs| && specs[i].id == record.id
    ensures Replace(specs, record) == specs[i := record]
  {
  }

  /** Enabling plans the next run afresh, disabling leaves the plan; one record changes. */
  lemma SetEnabledKeeps(s: State, id: nat, enabled: bool, now: int) returns (i: nat)
    requires Inv(s) && SetEnabled(s, id, enabled, now).Some?
    ensures var (s', record) := SetEnabled(s, id, enabled, now).value;
            && Inv(s') && Follows(s, s')
            && s'.runs == s.runs && s'.leases == s.leases && s'.nextRunId == s.nextRunId
            && i < |s.specs| && s.specs[i].id == id && s'.specs == s.specs[i := record]
            && record == s.specs[i].(enabled := enabled, updatedAt := now, nextRunAt := record.nextRunAt)
            && (if enabled then Planned(record.trigger, now, record.nextRunAt)
                else record.nextRunAt == s.specs[i].nextRunAt)
  {
    hide NextTriggerAt, Planned;
    NextTriggerPlans(s.specs[FindSpec(s.specs, id)].trigger, now);
    i := FindSpec(s.specs, id);
    var (s', record) := SetEnabled(s, id, enabled, now).value;
    FollowsSame(s, s');
    OnlyReplaced(s.specs, i, record);
    SameSpecIds(s.specs, s'.specs);
  }

  /** A heartbeat moves the expiry of one lease, the caller's own for that run. */
  lemma HeartbeatKeeps(s: State, runId: nat, owner: nat, now: int, leaseMs: int) returns (i: nat, k: nat)
    requires Inv(s) && Heartbeat(s, runId, owner, now, leaseMs).Some?
    ensures var (s', expiresAt) := Heartbeat(s, runId, owner, now, leaseMs).value;
            && Inv(s') && Follows(s, s')
            && s'.specs == s.specs && s'.runs == s.runs && s'.nextRunId == s.nextRunId
            && i < |s.leases| && s.leases[i].runId == runId && s.leases[i].ownerId == owner
            && s'.leases == s.leases[i := s.leases[i].(expiresAt := expiresAt)]
            && k < |s.specs| && s.specs[k].id == s.leases[i].automationId
            && expiresAt == now + (if leaseMs <= s.specs[k].timeoutMs + 60_000 then leaseMs
                                   else s.specs[k].timeoutMs + 60_000)
  {
    var s' := Heartbeat(s, runId, owner, now, leaseMs).value.0;
    i := FindOwned(s.leases, runId, owner);
    k := FindSpec(s.specs, s.leases[i].automationId);
    FollowsSame(s, s');
    Renewed(s, i, s'.leases[i].expiresAt);
    assert s' == s.(leases := s.leases[i := s.leases[i].(expiresAt := s'.leases[i].expiresAt)]);
  }

  lemma Renewed(s: State, i: nat, expiresAt: int)
    requires Inv(s) && i < |s.leases|
    ensures Inv(s.(leases := s.leases[i := s.leases[i].(expiresAt := expiresAt)]))
  {
    hide IsSpec;
    var leases := s.leases[i := s.leases[i].(expiresAt := expiresAt)];
    forall l | l in leases ensures l.runId < s.nextRunId && IsSpec(s.specs, l.automationId) && LeaseFits(l, s.runs) {
      var k :| 0 <= k < |leases| && leases[k] == l;
      assert s.leases[k] in s.leases && LeaseFits(s.leases[k], s.runs);
    }
    forall r | r in s.runs && r.status == Running ensures Leased(leases, r.id) {
      assert Leased(s.leases, r.id);
      var l :| l in s.leases && l.runId == r.id;
      var k :| 0 <= k < |s.leases| && s.leases[k] == l;
      assert leases[k] in leases && leases[k].runId == r.id;
    }
  }

  /** Finishing ends exactly the named run and drops exactly its lease, for its owner or for
      a cancellation; a run that has ended is returned as it is. */
  lemma FinishKeeps(s: State, runId: nat, status: Status, costUSD: Option<real>, owner: nat, now: int)
    returns (i: nat)
    requires Inv(s) && status in {Completed, Failed, Cancelled} && Finish(s, runId, status, costUSD, owner, now).Some?
    ensures var (s', run) := Finish(s, runId, status, costUSD, owner, now).value;
            && Inv(s') && Follows(s, s') && s'.specs == s.specs && s'.nextRunId == s.nextRunId
            && i < |s.runs| && s.runs[i].id == runId
            && (s.runs[i].status != Running ==> s' == s && run == s.runs[i])
            && (s.runs[i].status == Running ==>
                  && s'.runs == s.runs[i := run]
                  && run == s.runs[i].(status := status, finishedAt := Some(now),
                                      costUSD := if costUSD.Some? then costUSD else s.runs[i].costUSD)
                  && (forall l :: l in s'.leases <==> l in s.leases && l.runId != runId)
                  && exists l :: l in s.leases && l.runId == runId && (status == Cancelled || l.ownerId == owner))
  {
    i := FindRun(s.runs, runId);
    var s' := Finish(s, runId, status, costUSD, owner, now).value.0;
    if s.runs[i].status != Running {
      FollowsSame(s, s');
    } else {
      EndKeeps(s, i, s'.runs[i]);
      KeepIs(s.leases, (l: Lease) => l.runId != runId);
      OwnLease(s, i, status, owner);
    }
  }

  // ---------------------------------------------------------------- when they throw

  /** A save throws exactly for a rejected input, an interval outside a minute to a year, or a
      cron expression without a slot. */
  lemma SaveThrows(s: State, id: nat, trigger: Trigger, enabled: bool, timeoutMs: int, accepted: bool, now: int)
    ensures Save(s, id, trigger, enabled, timeoutMs, accepted, now).None? <==>
            || !accepted || NoSlot(trigger, now)
            || (trigger.Interval? && !(60_000 <= trigger.everyMs <= 365 * 86_400_000))
  {
    hide NextTriggerAt, NoSlot, Planned, FindSpec, Replace;
    NextTriggerPlans(trigger, now);
    if NoSlot(trigger, now) { NoSlotCron(trigger, now); }
  }

  lemma NoSlotCron(trigger: Trigger, now: int)
    requires NoSlot(trigger, now)
    ensures trigger.CronTrigger?
  {
  }

  /** Enabling throws for an unknown automation or one without a slot; disabling only for the
      first. */
  lemma SetEnabledThrows(s: State, id: nat, enabled: bool, now: int)
    requires DistinctSpecs(s.specs)
    ensures SetEnabled(s, id, enabled, now).None? <==>
            forall i :: 0 <= i < |s.specs| && s.specs[i].id == id ==> enabled && NoSlot(s.specs[i].trigger, now)
  {
    hide NextTriggerAt, NoSlot;
    var i := FindSpec(s.specs, id);
    if i < |s.specs| { NextTriggerPlans(s.specs[i].trigger, now); }
  }

  /** Only the holder of a lease can renew it. */
  lemma HeartbeatThrows(s: State, runId: nat, owner: nat, now: int, leaseMs: int)
    requires Inv(s)
    ensures Heartbeat(s, runId, owner, now, leaseMs).None? <==>
            forall l :: l in s.leases ==> !(l.runId == runId && l.ownerId == owner)
  {
    var i := FindOwned(s.leases, runId, owner);
    if i < |s.leases| {
      assert IsSpec(s.specs, s.leases[i].automationId);
    } else {
      forall l | l in s.leases ensures !(l.runId == runId && l.ownerId == owner) {
        var k :| 0 <= k < |s.leases| && s.leases[k] == l;
      }
    }
  }

  /** Finishing throws for a run that is not remembered; for a running one also when somebody
      other than the lease owner completes it, or the cost is negative. */
  lemma FinishThrows(s: State, runId: nat, status: Status, costUSD: Option<real>, owner: nat, now: int)
    requires Inv(s)
    ensures Finish(s, runId, status, costUSD, owner, now).None? <==>
            forall r :: r in s.runs && r.id == runId ==>
              && r.status == Running
              && ((status != Cancelled && forall l :: l in s.leases && l.runId == runId ==> l.ownerId != owner)
                  || (costUSD.Some? && costUSD.value < 0.0))
  {
    var i, k := FindRun(s.runs, runId), FindLease(s.leases, runId);
    forall r | r in s.runs && r.id == runId ensures i < |s.runs| && s.runs[i] == r {
      var j :| 0 <= j < |s.runs| && s.runs[j] == r;
    }
    forall l | l in s.leases && l.runId == runId ensures k < |s.leases| && s.leases[k] == l {
      var j :| 0 <= j < |s.leases| && s.leases[j] == l;
    }
    assert k < |s.leases| ==> s.leases[k] in s.leases;
    assert i < |s.runs| ==> s.runs[i] in s.runs;
  }

  lemma OwnLease(s: State, i: nat, status: Status, owner: nat)
    requires Inv(s) && i < |s.runs| && s.runs[i].status == Running
    requires var k := FindLease(s.leases, s.runs[i].id);
             status == Cancelled || (k < |s.leases| && s.leases[k].ownerId == owner)
    ensures exists l :: l in s.leases && l.runId == s.runs[i].id && (status == Cancelled || l.ownerId == owner)
  {
    var k := FindLease(s.leases, s.runs[i].id);
    if k < |s.leases| {
      assert s.leases[k] in s.leases;
    } else {
      assert Leased(s.leases, s.runs[i].id);
    }
  }

  /** A run ends and its lease goes. */
  lemma EndKeeps(s: State, i: nat, ended: Run)
    requires Inv(s) && i < |s.runs| && s.runs[i].status == Running && Evolves(s.runs[i], ended)
        && ended.status != Running
    ensures var s' := s.(runs := s.runs[i := ended], leases := DropLeases(s.leases, ended.id));
            Inv(s') && Follows(s, s')
  {
    hide IsSpec, Follows;
    var s' := s.(runs := s.runs[i := ended], leases := DropLeases(s.leases, ended.id));
    var other := (l: Lease) => l.runId != ended.id;
    KeepIs(s.leases, other);
    KeepDistinct(s.leases, other);
    forall k | 0 <= k < |s.runs| ensures Evolves(s.runs[k], s'.runs[k]) {}
    InPlace(s, s');
    EndLeases(s, i, ended);
  }

  lemma EndLeases(s: State, i: nat, ended: Run)
    requires Inv(s) && i < |s.runs| && ended.id == s.runs[i].id && ended.status != Running
    ensures var s' := s.(runs := s.runs[i := ended], leases := DropLeases(s.leases, ended.id));
            && (forall l :: l in s'.leases ==> LeaseFits(l, s'.runs))
            && (forall r :: r in s'.runs && r.status == Running ==> Leased(s'.leases, r.id))
  {
    hide IsSpec;
    var s' := s.(runs := s.runs[i := ended], leases := DropLeases(s.leases, ended.id));
    KeepIs(s.leases, (l: Lease) => l.runId != ended.id);
    forall l | l in s'.leases ensures LeaseFits(l, s'.runs) { assert LeaseFits(l, s.runs); }
    forall r | r in s'.runs && r.status == Running ensures Leased(s'.leases, r.id) {
      var k :| 0 <= k < |s'.runs| && s'.runs[k] == r;
      assert s.runs[k].id != s.runs[i].id;
      assert r in s.runs && Leased(s.leases, r.id);
      var l :| l in s.leases && l.runId == r.id;
      assert l in s'.leases;
    }
  }

  // ---------------------------------------------------------------- runs

  lemma SaveSafe(s: State, id: nat, trigger: Trigger, enabled: bool, timeoutMs: int, accepted: bool, now: int)
    requires Inv(s) && Save(s, id, trigger, enabled, timeoutMs, accepted, now).Some?
    ensures var s' := Save(s, id, trigger, enabled, timeoutMs, accepted, now).value.0; Inv(s') && Follows(s, s')
  {
    hide Inv, Follows, Save;
    var _ := SaveKeeps(s, id, trigger, enabled, timeoutMs, accepted, now);
  }

  lemma SetEnabledSafe(s: State, id: nat, enabled: bool, now: int)
    requires Inv(s) && SetEnabled(s, id, enabled, now).Some?
    ensures var s' := SetEnabled(s, id, enabled, now).value.0; Inv(s') && Follows(s, s')
  {
    hide Inv, Follows, SetEnabled;
    var _ := SetEnabledKeeps(s, id, enabled, now);
  }

  lemma HeartbeatSafe(s: State, runId: nat, owner: nat, now: int, leaseMs: int)
    requires Inv(s) && Heartbeat(s, runId, owner, now, leaseMs).Some?
    ensures var s' := Heartbeat(s, runId, owner, now, leaseMs).value.0; Inv(s') && Follows(s, s')
  {
    hide Inv, Follows, Heartbeat;
    var _, _ := HeartbeatKeeps(s, runId, owner, now, leaseMs);
  }

  lemma FinishSafe(s: State, runId: nat, status: Status, costUSD: Option<real>, owner: nat, now: int)
    requires Inv(s) && status in {Completed, Failed, Cancelled} && Finish(s, runId, status, costUSD, owner, now).Some?
    ensures var s' := Finish(s, runId, status, costUSD, owner, now).value.0; Inv(s') && Follows(s, s')
  {
    hide Inv, Follows, Finish;
    var _ := FinishKeeps(s, runId, status, costUSD, owner, now);
  }

  lemma StepKeeps(w: World, e: Event)
    requires Inv(w.state)
    ensures Inv(Step(w, e).state) && Follows(w.state, Step(w, e).state)
  {
    hide Inv, Follows, Save, SetEnabled, ClaimDue, Heartbeat, Finish;
    FollowsSame(w.state, w.state);
    match e
    case DoSave(id, trigger, enabled, timeoutMs, accepted, now) =>
      if Save(w.state, id, trigger, enabled, timeoutMs, accepted, now).Some? {
        SaveSafe(w.state, id, trigger, enabled, timeoutMs, accepted, now);
      }
    case DoSetEnabled(id, on, now) =>
      if SetEnabled(w.state, id, on, now).Some? { SetEnabledSafe(w.state, id, on, now); }
    case DoClaim(limit, now, owner, leaseMs) =>
      if ClaimDue(w.state, limit, now, owner, leaseMs).Some? { ClaimDueKeeps(w.state, limit, now, owner, leaseMs); }
    case DoHeartbeat(runId, now, owner, leaseMs) =>
      if Heartbeat(w.state, runId, owner, now, leaseMs).Some? { HeartbeatSafe(w.state, runId, owner, now, leaseMs); }
    case DoComplete(runId, ok, costUSD, now, owner) =>
      var status := if ok then Completed else Failed;
      if Finish(w.state, runId, status, costUSD, owner, now).Some? {
        FinishSafe(w.state, runId, status, costUSD, owner, now);
      }
    case DoCancel(runId, now, owner) =>
      if Finish(w.state, runId, Cancelled, None, owner, now).Some? {
        FinishSafe(w.state, runId, Cancelled, None, owner, now);
      }
  }
}
