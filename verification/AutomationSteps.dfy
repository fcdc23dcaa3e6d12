/**
  The durable automation store as values. Each operation runs on the state read from the
  file under its lock and either yields the state to write back or throws (`None`), in which
  case the file keeps what it had.
  */
module AutomationSteps {
  import opened Searching
  import opened Arithmetic
  import opened Options
  import opened CronEngine

  const MAX_HISTORY: nat := 2000
  const GRACE_MS := 60_000

  datatype Trigger = Interval(everyMs: int) | CronTrigger(cron: Cron)

  /** Ids are ordered the way `localeCompare` orders them. */
  datatype Spec = Spec(
    id: nat, trigger: Trigger, enabled: bool, timeoutMs: int, createdAt: int, updatedAt: int, nextRunAt: int)

  datatype Status = Running | Completed | Failed | Cancelled | Interrupted | Skipped

  /** The idempotency key hashes the automation and the slot; hashing is injective. */
  datatype Run = Run(
    id: nat, automationId: nat, key: (nat, int), scheduledAt: int, startedAt: int,
    finishedAt: Option<int>, status: Status, costUSD: Option<real>)

  datatype Lease = Lease(automationId: nat, runId: nat, ownerId: nat, expiresAt: int)

  datatype Claim = Claim(run: Run, spec: Spec, leaseExpiresAt: int)

  /** `nextRunId` stands for the supply of fresh UUIDs. */
  datatype State = State(specs: seq<Spec>, runs: seq<Run>, leases: seq<Lease>, nextRunId: nat)

  function NextTriggerAt(trigger: Trigger, after: int): Option<int> {
    match trigger
    case Interval(everyMs) => Some(after + everyMs)
    case CronTrigger(cron) => NextCron(cron, after)
  }

  /** What the schema and `validateTrigger` accept. */
  predicate TriggerOk(trigger: Trigger) {
    trigger.Interval? ==> 60_000 <= trigger.everyMs <= 31_536_000_000
  }

  function FindSpec(specs: seq<Spec>, id: nat): (i: nat)
    ensures i <= |specs| && (i < |specs| ==> specs[i].id == id)
    ensures forall k :: 0 <= k < i ==> specs[k].id != id
  {
    FirstIndex(specs, (spec: Spec) => spec.id == id)
  }

  function FindRun(runs: seq<Run>, id: nat): (i: nat)
    ensures i <= |runs| && (i < |runs| ==> runs[i].id == id)
    ensures forall k :: 0 <= k < i ==> runs[k].id != id
  {
    FirstIndex(runs, (run: Run) => run.id == id)
  }

  function FindLease(leases: seq<Lease>, runId: nat): (i: nat)
    ensures i <= |leases| && (i < |leases| ==> leases[i].runId == runId)
    ensures forall k :: 0 <= k < i ==> leases[k].runId != runId
  {
    FirstIndex(leases, (l: Lease) => l.runId == runId)
  }

  // ---------------------------------------------------------------- save, setEnabled

  /** `accepted` is whether the input parses and, if it can mutate, was confirmed. */
  function Save(s: State, id: nat, trigger: Trigger, enabled: bool, timeoutMs: int, accepted: bool, now: int)
    : Option<(State, Spec)>
  {
    if !accepted || !TriggerOk(trigger) then None else
    var next := NextTriggerAt(trigger, now);
    if next.None? then None else
    var i := FindSpec(s.specs, id);
    var record := Spec(id, trigger, enabled, timeoutMs,
                       if i < |s.specs| then s.specs[i].createdAt else now, now, next.value);
    if i < |s.specs|
    then Some((s.(specs := Replace(s.specs, record)), record))
    else Some((s.(specs := s.specs + [record]), record))
  }

  /** Every spec with the record's id becomes the record. */
  function Replace(specs: seq<Spec>, record: Spec): (out: seq<Spec>)
    ensures |out| == |specs|
    ensures forall i :: 0 <= i < |specs| ==> out[i] == if specs[i].id == record.id then record else specs[i]
  {
    seq(|specs|, i requires 0 <= i < |specs| => if specs[i].id == record.id then record else specs[i])
  }

  function SetEnabled(s: State, id: nat, enabled: bool, now: int): Option<(State, Spec)> {
    var i := FindSpec(s.specs, id);
    if i == |s.specs| then None else
    var current := s.specs[i];
    var next := NextTriggerAt(current.trigger, now);
    if enabled && next.None? then None else
    var record := current.(enabled := enabled, updatedAt := now,
                           nextRunAt := if enabled then next.value else current.nextRunAt);
    Some((s.(specs := Replace(s.specs, record)), record))
  }

  // ---------------------------------------------------------------- recovery

  /** The first running run with this id is interrupted. */
  function Interrupt(runs: seq<Run>, id: nat, now: int): (out: seq<Run>)
    ensures |out| == |runs|
  {
    if runs == [] then [] else
    if runs[0].id == id && runs[0].status == Running
    then [runs[0].(status := Interrupted, finishedAt := Some(now))] + runs[1..]
    else [runs[0]] + Interrupt(runs[1..], id, now)
  }

  function InterruptAll(runs: seq<Run>, leases: seq<Lease>, now: int): (out: seq<Run>)
    ensures |out| == |runs|
    decreases |leases|
  {
    if leases == [] then runs else
    var rest := InterruptAll(runs, leases[..|leases| - 1], now);
    var l := leases[|leases| - 1];
    if l.expiresAt <= now then Interrupt(rest, l.runId, now) else rest
  }

  /** `Array.filter`. */
  function Keep(leases: seq<Lease>, f: Lease -> bool): seq<Lease> {
    if leases == [] then [] else
    Keep(leases[..|leases| - 1], f) + (if f(leases[|leases| - 1]) then [leases[|leases| - 1]] else [])
  }

  function Unexpired(leases: seq<Lease>, now: int): seq<Lease> {
    Keep(leases, (l: Lease) => l.expiresAt > now)
  }

  function RecoverExpired(s: State, now: int): State {
    s.(runs := InterruptAll(s.runs, s.leases, now), leases := Unexpired(s.leases, now))
  }

  // ---------------------------------------------------------------- claimDue

  predicate Due(spec: Spec, now: int) {
    spec.enabled && spec.nextRunAt <= now
  }

  predicate Before(a: Spec, b: Spec) {
    a.nextRunAt < b.nextRunAt || (a.nextRunAt == b.nextRunAt && a.id <= b.id)
  }

  /** Positions of the due specs, earliest slot first, ties by id. */
  function DueOrder(specs: seq<Spec>, now: int, n: nat): (order: seq<nat>)
    requires n <= |specs|
    ensures forall i :: 0 <= i < |order| ==> order[i] < n
  {
    if n == 0 then [] else
    var order := DueOrder(specs, now, n - 1);
    if Due(specs[n - 1], now) then InsertDue(specs, order, n - 1) else order
  }

  function InsertDue(specs: seq<Spec>, order: seq<nat>, i: nat): (out: seq<nat>)
    requires i < |specs| && forall k :: 0 <= k < |order| ==> order[k] < i
    ensures forall k :: 0 <= k < |out| ==> out[k] <= i
  {
    if order == [] || Before(specs[order[|order| - 1]], specs[i]) then order + [i]
    else InsertDue(specs, order[..|order| - 1], i) + [order[|order| - 1]]
  }

  predicate HasLease(leases: seq<Lease>, automationId: nat, now: int) {
    exists l :: l in leases && l.automationId == automationId && l.expiresAt > now
  }

  predicate HasKey(runs: seq<Run>, key: (nat, int)) {
    exists r :: r in runs && r.key == key
  }

  /** One due spec: what it adds to the history, and the claim it makes, if any. */
  datatype Claimed = Claimed(state: State, added: seq<Run>, claims: seq<Claim>)

  function ClaimOne(s: State, i: nat, now: int, owner: nat, leaseMs: int): Option<Claimed>
    requires i < |s.specs|
  {
    var spec := s.specs[i];
    var next := NextTriggerAt(spec.trigger, now);
    if next.None? then None else
    var key := (spec.id, spec.nextRunAt);
    var advanced := spec.(nextRunAt := next.value, updatedAt := now);
    var s1 := s.(specs := s.specs[i := advanced]);
    if HasKey(s.runs, key) then Some(Claimed(s1, [], [])) else
    var started := Run(s.nextRunId, spec.id, key, spec.nextRunAt, now, None, Running, None);
    if HasLease(s.leases, spec.id, now) then
      var skipped := started.(finishedAt := Some(now), status := Skipped);
      Some(Claimed(s1.(runs := s.runs + [skipped], nextRunId := s.nextRunId + 1), [skipped], []))
    else
      var lease := Lease(spec.id, started.id, owner, now + Smaller(leaseMs, spec.timeoutMs + GRACE_MS));
      Some(Claimed(s1.(runs := s.runs + [started], leases := s.leases + [lease], nextRunId := s.nextRunId + 1),
                   [started], [Claim(started, advanced, lease.expiresAt)]))
  }

  /** The loop over the due specs; it stops early once `limit` claims are made. */
  function ClaimLoop(s: State, due: seq<nat>, limit: nat, now: int, owner: nat, leaseMs: int): (r: Option<Claimed>)
    requires forall k :: 0 <= k < |due| ==> due[k] < |s.specs|
    ensures r.Some? ==> |r.value.state.specs| == |s.specs|
    decreases |due|
  {
    if due == [] then Some(Claimed(s, [], [])) else
    var n := |due| - 1;
    var before := ClaimLoop(s, due[..n], limit, now, owner, leaseMs);
    if before.None? || |before.value.claims| >= limit then before else
    var one := ClaimOne(before.value.state, due[n], now, owner, leaseMs);
    if one.None? then None else
    Some(Claimed(one.value.state, before.value.added + one.value.added, before.value.claims + one.value.claims))
  }

  function TrimHistory(s: State): State {
    if |s.runs| > MAX_HISTORY then s.(runs := s.runs[|s.runs| - MAX_HISTORY..]) else s
  }

  function ClaimDue(s: State, limit: int, now: int, owner: nat, leaseMs: int): Option<Claimed> {
    if limit < 1 || limit > 100 then None else
    var s1 := RecoverExpired(s, now);
    var r := ClaimLoop(s1, DueOrder(s1.specs, now, |s1.specs|), limit, now, owner, leaseMs);
    if r.None? then None else Some(r.value.(state := TrimHistory(r.value.state)))
  }

  // ---------------------------------------------------------------- heartbeat, finish

  /** The first lease of this run held by this owner. */
  function FindOwned(leases: seq<Lease>, runId: nat, owner: nat): (i: nat)
    ensures i <= |leases| && (i < |leases| ==> leases[i].runId == runId && leases[i].ownerId == owner)
    ensures forall k :: 0 <= k < i ==> leases[k].runId != runId || leases[k].ownerId != owner
  {
    FirstIndex(leases, (l: Lease) => l.runId == runId && l.ownerId == owner)
  }

  function Heartbeat(s: State, runId: nat, owner: nat, now: int, leaseMs: int): Option<(State, int)> {
    var i := FindOwned(s.leases, runId, owner);
    if i == |s.leases| then None else
    var k := FindSpec(s.specs, s.leases[i].automationId);
    if k == |s.specs| then None else
    var expiresAt := now + Smaller(leaseMs, s.specs[k].timeoutMs + GRACE_MS);
    Some((s.(leases := s.leases[i := s.leases[i].(expiresAt := expiresAt)]), expiresAt))
  }

  function DropLeases(leases: seq<Lease>, runId: nat): seq<Lease> {
    Keep(leases, (l: Lease) => l.runId != runId)
  }

  /** `complete` and `cancel`; a run that has ended is returned as it is. */
  function Finish(s: State, runId: nat, status: Status, costUSD: Option<real>, owner: nat, now: int)
    : Option<(State, Run)>
  {
    var i := FindRun(s.runs, runId);
    if i == |s.runs| then None else
    var run := s.runs[i];
    if run.status != Running then Some((s, run)) else
    var k := FindLease(s.leases, runId);
    if status != Cancelled && (k == |s.leases| || s.leases[k].ownerId != owner) then None else
    if costUSD.Some? && costUSD.value < 0.0 then None else
    var ended := run.(status := status, finishedAt := Some(now),
                      costUSD := if costUSD.Some? then costUSD else run.costUSD);
    Some((s.(runs := s.runs[i := ended], leases := DropLeases(s.leases, runId)), ended))
  }

  // ---------------------------------------------------------------- events

  datatype Event =
    | DoSave(id: nat, trigger: Trigger, enabled: bool, timeoutMs: int, accepted: bool, now: int)
    | DoSetEnabled(specId: nat, on: bool, now: int)
    | DoClaim(limit: int, now: int, owner: nat, leaseMs: int)
    | DoHeartbeat(beating: nat, now: int, owner: nat, leaseMs: int)
    | DoComplete(completed: nat, ok: bool, costUSD: Option<real>, now: int, owner: nat)
    | DoCancel(cancelled: nat, now: int, owner: nat)

  /** The file and, as history, every run ever recorded. */
  datatype World = World(state: State, ever: seq<Run>)

  function Step(w: World, e: Event): World {
    match e
    case DoSave(id, trigger, enabled, timeoutMs, accepted, now) =>
      var r := Save(w.state, id, trigger, enabled, timeoutMs, accepted, now);
      if r.None? then w else w.(state := r.value.0)
    case DoSetEnabled(id, on, now) =>
      var r := SetEnabled(w.state, id, on, now);
      if r.None? then w else w.(state := r.value.0)
    case DoClaim(limit, now, owner, leaseMs) =>
      var r := ClaimDue(w.state, limit, now, owner, leaseMs);
      if r.None? then w else World(r.value.state, w.ever + r.value.added)
    case DoHeartbeat(runId, now, owner, leaseMs) =>
      var r := Heartbeat(w.state, runId, owner, now, leaseMs);
      if r.None? then w else w.(state := r.value.0)
    case DoComplete(runId, ok, costUSD, now, owner) =>
      var r := Finish(w.state, runId, if ok then Completed else Failed, costUSD, owner, now);
      if r.None? then w else w.(state := r.value.0)
    case DoCancel(runId, now, owner) =>
      var r := Finish(w.state, runId, Cancelled, None, owner, now);
      if r.None? then w else w.(state := r.value.0)
  }
}
