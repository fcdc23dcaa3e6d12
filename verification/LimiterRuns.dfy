/** Runs of the limiter with its holders. */
module LimiterRuns {
  import opened Arithmetic
  import opened Options
  import opened LimiterGate

  /** `resumed` are the running holders that were suspended at some time; `arrivals` logs
      who asked for a slot, in order, without those who gave up; `granted` who got one. */
  datatype World = World(
    gate: Gate, running: set<nat>, suspended: set<nat>, resumed: set<nat>, arrivals: seq<nat>, granted: seq<nat>)

  datatype Event =
    | Arrive(t: nat)
    | GiveUp(t: nat)
    | End(t: nat, outcome: Verdict)
    | Suspend(t: nat)
    | Resume(t: nat)
    | Requeue(t: nat)

  /** Suspend and resume are paired; a ticket queues or holds at most once at a time. */
  predicate Enabled(w: World, e: Event) {
    match e
    case Arrive(t) => t !in w.running && t !in w.suspended && t !in w.gate.waiters
    case GiveUp(t) => t in w.gate.waiters
    case End(t, _) => t in w.running
    case Suspend(t) => t in w.running
    case Resume(t) => t in w.suspended
    case Requeue(t) => t in w.suspended
  }

  function Strike(log: seq<nat>, t: nat): seq<nat> {
    if log == [] then [] else
    if log[|log| - 1] == t then log[..|log| - 1] else Strike(log[..|log| - 1], t) + [log[|log| - 1]]
  }

  function Elements(ts: seq<nat>): set<nat> {
    set t | t in ts
  }

  /** The gate moved on and admitted the waiters that left the head of its queue. */
  function Admit(w: World, g: Gate): World {
    var n := if |g.waiters| <= |w.gate.waiters| then |w.gate.waiters| - |g.waiters| else 0;
    var ins := w.gate.waiters[..n];
    w.(gate := g, running := w.running + Elements(ins), granted := w.granted + ins)
  }

  function Queue(w: World, t: nat): World {
    var (g, now) := Acquire(w.gate, t);
    var w1 := w.(gate := g, arrivals := w.arrivals + [t]);
    if now then w1.(running := w.running + {t}, granted := w.granted + [t]) else w1
  }

  function Step(w: World, e: Event): World {
    match e
    case Arrive(t) => Queue(w, t)
    case GiveUp(t) => w.(gate := Abort(w.gate, t), arrivals := Strike(w.arrivals, t))
    case End(t, outcome) =>
      Admit(w.(running := w.running - {t}, resumed := w.resumed - {t}), Finished(w.gate, outcome))
    case Suspend(t) =>
      Admit(w.(running := w.running - {t}, suspended := w.suspended + {t}, resumed := w.resumed - {t}), Release(w.gate))
    case Resume(t) =>
      Admit(w.(running := w.running + {t}, suspended := w.suspended - {t}, resumed := w.resumed + {t}),
          Reacquire(w.gate))
    case Requeue(t) => Queue(w.(suspended := w.suspended - {t}), t)
  }

  ghost predicate Bounds(g: Gate) {
    && 1 <= g.min <= g.limit <= g.max
    && 0 <= g.successes < g.increaseEvery
    && (g.limit == g.max ==> g.successes == 0)
  }

  /** No wakeup is lost: somebody waits only while the ceiling is reached. */
  ghost predicate Busy(g: Gate) {
    g.waiters != [] ==> g.active >= g.limit
  }

  ghost predicate Distinct(ts: seq<nat>) {
    forall i, j :: 0 <= i < j < |ts| ==> ts[i] != ts[j]
  }

  ghost predicate Apart(w: World) {
    && Distinct(w.gate.waiters)
    && (forall t :: t in w.gate.waiters ==> t !in w.running && t !in w.suspended)
    && w.running !! w.suspended
    && w.resumed <= w.running
  }

  ghost predicate Inv(w: World) {
    && Bounds(w.gate) && Busy(w.gate) && Apart(w)
    && w.gate.active == |w.running|
    && w.arrivals == w.granted + w.gate.waiters
    && w.gate.active <= w.gate.max + |w.resumed|
  }

  // ---------------------------------------------------------------- steps

  lemma PumpBusy(g: Gate)
    ensures Busy(Pump(g)) && Pump(g) == g.(active := Pump(g).active, waiters := Pump(g).waiters)
    ensures Pump(g).waiters == g.waiters[Admitted(g)..] && Pump(g).active == g.active + Admitted(g)
    ensures Admitted(g) > 0 ==> Pump(g).active <= g.limit
  {
  }

  lemma SetSize(ts: seq<nat>)
    requires Distinct(ts)
    ensures |Elements(ts)| == |ts|
    decreases |ts|
  {
    if ts != [] {
      var n := |ts| - 1;
      SetSize(ts[..n]);
      assert ts == ts[..n] + [ts[n]];
      assert Elements(ts) == Elements(ts[..n]) + {ts[n]};
      assert ts[n] !in Elements(ts[..n]);
    }
  }

  /** What `Inv` says apart from the sizes that a changed gate still has to meet. */
  ghost predicate Ready(w: World, g: Gate, n: nat) {
    && n <= |w.gate.waiters|
    && g.waiters == w.gate.waiters[n..]
    && Bounds(g) && Busy(g) && Apart(w)
    && g.max == w.gate.max
    && w.arrivals == w.granted + w.gate.waiters
    && g.active == |w.running| + n
    && g.active <= g.max + |w.resumed|
  }

  lemma AdmitApart(w: World, g: Gate, n: nat)
    requires Apart(w) && n <= |w.gate.waiters| && g.waiters == w.gate.waiters[n..]
    ensures Apart(Admit(w, g)) && |Admit(w, g).running| == |w.running| + n
    ensures Admit(w, g).granted == w.granted + w.gate.waiters[..n]
  {
    hide Elements, Admit, Apart, Distinct;
    AdmitIs(w, g, n);
    HeadApart(w, g, n);
  }

  /** The head of the queue moves among the running, the rest stays apart. */
  lemma HeadApart(w: World, g: Gate, n: nat)
    requires Apart(w) && n <= |w.gate.waiters| && g.waiters == w.gate.waiters[n..]
    ensures var ins := w.gate.waiters[..n];
            var w' := w.(gate := g, running := w.running + Elements(ins), granted := w.granted + ins);
            Apart(w') && |w'.running| == |w.running| + n
  {
    hide Elements;
    var ins := w.gate.waiters[..n];
    SplitDistinct(w.gate.waiters, n);
    SetSize(ins);
    InElements(ins);
    assert Elements(ins) !! w.running;
  }

  lemma SplitDistinct(ts: seq<nat>, n: nat)
    requires Distinct(ts) && n <= |ts|
    ensures Distinct(ts[..n]) && Distinct(ts[n..])
    ensures forall t :: t in ts[n..] ==> t !in ts[..n]
    ensures forall t :: t in ts[..n] || t in ts[n..] ==> t in ts
  {
  }

  lemma InElements(ts: seq<nat>)
    ensures forall t :: t in Elements(ts) <==> t in ts
  {
  }

  lemma AdmitIs(w: World, g: Gate, n: nat)
    requires n <= |w.gate.waiters| && g.waiters == w.gate.waiters[n..]
    ensures var ins := w.gate.waiters[..n];
            Admit(w, g) == w.(gate := g, running := w.running + Elements(ins), granted := w.granted + ins)
  {
    hide Elements;
  }

  /** Letting the head of the queue in keeps every law. */
  lemma AdmitKeeps(w: World, g: Gate, n: nat)
    requires Ready(w, g, n)
    ensures Inv(Admit(w, g))
  {
    hide Apart, Bounds, Busy, Admit, Elements;
    AdmitApart(w, g, n);
    AdmitIs(w, g, n);
    var w' := Admit(w, g);
    assert w.gate.waiters == w.gate.waiters[..n] + g.waiters;
    assert w'.arrivals == w'.granted + g.waiters;
  }

  lemma {:induction false} StrikeTail(a: seq<nat>, b: seq<nat>, i: nat)
    requires Distinct(b) && i < |b|
    ensures Strike(a + b, b[i]) == a + (b[..i] + b[i + 1..])
    decreases |b|
  {
    var n := |b| - 1;
    assert (a + b)[..|a + b| - 1] == a + b[..n];
    if i < n {
      StrikeTail(a, b[..n], i);
      assert b[..n][..i] + b[..n][i + 1..] + [b[n]] == b[..i] + b[i + 1..];
    } else {
      assert b[..i] + b[i + 1..] == b[..n];
    }
  }

  lemma QueueKeeps(w: World, t: nat)
    requires Inv(w) && t !in w.running && t !in w.suspended && t !in w.gate.waiters
    ensures Inv(Queue(w, t))
  {
    var w' := Queue(w, t);
    if w.gate.active < w.gate.limit {
      assert w.gate.waiters == [];
      assert |w'.running| == |w.running| + 1;
    } else {
      assert w'.arrivals == w'.granted + w'.gate.waiters;
    }
  }

  lemma GiveUpKeeps(w: World, t: nat)
    requires Inv(w) && t in w.gate.waiters
    ensures Inv(Step(w, GiveUp(t)))
  {
    var ws := w.gate.waiters;
    var i := IndexOf(ws, t);
    StrikeTail(w.granted, ws, i);
    var rest := ws[..i] + ws[i + 1..];
    assert Abort(w.gate, t).waiters == rest;
    forall x | x in rest ensures x in ws {}
    assert Distinct(rest);
  }

  lemma OnSuccessKeeps(g: Gate)
    requires Bounds(g) && Busy(g)
    ensures Bounds(OnSuccess(g)) && Busy(OnSuccess(g)) && OnSuccess(g).max == g.max && OnSuccess(g).min == g.min
    ensures exists n :: 0 <= n <= |g.waiters| && OnSuccess(g).waiters == g.waiters[n..]
              && OnSuccess(g).active == g.active + n && (n > 0 ==> OnSuccess(g).active <= g.max)
  {
    if g.limit < g.max && g.successes + 1 >= g.increaseEvery {
      var g1 := g.(successes := 0, limit := Smaller(g.max, g.limit + 1));
      PumpBusy(g1);
      assert OnSuccess(g) == Pump(g1);
      assert OnSuccess(g).waiters == g.waiters[Admitted(g1)..];
    } else {
      assert OnSuccess(g).waiters == g.waiters[0..];
    }
  }

  /** Adapting the ceiling and then giving the slot back lets in a prefix of the queue. */
  lemma FinishedKeeps(g: Gate, outcome: Verdict) returns (n: nat)
    requires Bounds(g) && Busy(g) && 1 <= g.active
    ensures n <= |g.waiters|
    ensures var g' := Finished(g, outcome);
            && Bounds(g') && Busy(g') && g'.max == g.max
            && g'.waiters == g.waiters[n..] && g'.active == g.active - 1 + n
            && (n > 0 ==> g'.active <= g.max)
  {
    hide Pump, Adapt, Busy, Bounds;
    var g1 := Adapt(g, outcome);
    var m := AdaptKeeps(g, outcome);
    var g2 := g1.(active := g1.active - 1);
    PumpBusy(g2);
    BoundsOnly(g1, Pump(g2));
    LimitBelowMax(g1);
    n := m + Admitted(g2);
    assert g.waiters[m..][Admitted(g2)..] == g.waiters[n..];
  }

  lemma BoundsOnly(g: Gate, g': Gate)
    requires Bounds(g) && g' == g.(active := g'.active, waiters := g'.waiters)
    ensures Bounds(g')
  {
  }

  lemma LimitBelowMax(g: Gate)
    requires Bounds(g)
    ensures g.limit <= g.max
  {
  }

  lemma AdaptKeeps(g: Gate, outcome: Verdict) returns (m: nat)
    requires Bounds(g) && Busy(g)
    ensures m <= |g.waiters|
    ensures var g1 := Adapt(g, outcome);
            && Bounds(g1) && g1.max == g.max && g1.waiters == g.waiters[m..] && g1.active == g.active + m
            && (m > 0 ==> g1.active <= g.max)
  {
    var g1 := Adapt(g, outcome);
    m := 0;
    if outcome == Succeeded {
      OnSuccessKeeps(g);
      hide OnSuccess;
      m :| 0 <= m <= |g.waiters| && g1.waiters == g.waiters[m..] && g1.active == g.active + m
          && (m > 0 ==> g1.active <= g.max);
    }
  }

  /** The holder of `t` lets go of its slot, for good or to wait for its children. */
  lemma LetGo(w: World, t: nat, outcome: Verdict, suspended: set<nat>)
    requires Inv(w) && t in w.running
    requires suspended == w.suspended || suspended == w.suspended + {t}
    ensures Inv(Admit(w.(running := w.running - {t}, suspended := suspended, resumed := w.resumed - {t}),
                      Finished(w.gate, outcome)))
  {
    hide Finished, Admit;
    Leaves(w, t);
    var n := FinishedKeeps(w.gate, outcome);
    var w1 := w.(running := w.running - {t}, suspended := suspended, resumed := w.resumed - {t});
    assert Apart(w1);
    AdmitKeeps(w1, Finished(w.gate, outcome), n);
  }

  lemma ResumeKeeps(w: World, t: nat)
    requires Inv(w) && t in w.suspended
    ensures Inv(Step(w, Resume(t)))
  {
    hide Admit;
    var g1 := w.gate.(active := w.gate.active + 1);
    PumpBusy(g1);
    var w1 := w.(running := w.running + {t}, suspended := w.suspended - {t}, resumed := w.resumed + {t});
    assert |w1.running| == |w.running| + 1 && |w1.resumed| == |w.resumed| + 1;
    AdmitKeeps(w1, Reacquire(w.gate), Admitted(g1));
  }

  lemma StepKeeps(w: World, e: Event)
    requires Inv(w) && Enabled(w, e)
    ensures Inv(Step(w, e))
  {
    hide Inv, Admit, Finished, Queue;
    match e
    case Arrive(t) => QueueKeeps(w, t);
    case GiveUp(t) => GiveUpKeeps(w, t);
    case Requeue(t) => RequeueKeeps(w, t);
    case Resume(t) => ResumeKeeps(w, t);
    case End(t, outcome) => LetGo(w, t, outcome, w.suspended);
    case Suspend(t) =>
      LetGo(w, t, Failed, w.suspended + {t});
      FailedReleases(w.gate);
  }

  lemma FailedReleases(g: Gate)
    ensures Finished(g, Failed) == Release(g)
  {
  }

  lemma Leaves(w: World, t: nat)
    requires Inv(w) && t in w.running
    ensures |w.running - {t}| == |w.running| - 1
    ensures |w.resumed - {t}| == if t in w.resumed then |w.resumed| - 1 else |w.resumed|
    ensures 1 <= w.gate.active
  {
    if t !in w.resumed { assert w.resumed - {t} == w.resumed; }
  }

  lemma RequeueKeeps(w: World, t: nat)
    requires Inv(w) && t in w.suspended
    ensures Inv(Step(w, Requeue(t)))
  {
    QueueKeeps(w.(suspended := w.suspended - {t}), t);
  }

  // ---------------------------------------------------------------- runs

  function Start(max: Option<real>, min: Option<real>, increaseEvery: Option<real>): World {
    World(Create(max, min, increaseEvery), {}, {}, {}, [], [])
  }

  function Run(w: World, events: seq<Event>): World
    decreases |events|
  {
    if events == [] then w else Run(Step(w, events[0]), events[1..])
  }

  predicate Possible(w: World, events: seq<Event>)
    decreases |events|
  {
    events == [] || (Enabled(w, events[0]) && Possible(Step(w, events[0]), events[1..]))
  }

  /** Who gets a slot: a newcomer exactly when the ceiling of the moment is not reached, else
      it queues last; and no grant leaves more than that ceiling active. Only a holder that
      takes its slot back may exceed it. */
  ghost predicate Granting(w: World, e: Event) {
    var w' := Step(w, e);
    && w.granted <= w'.granted
    && (w'.granted != w.granted ==> w'.gate.active <= w'.gate.limit)
    && (!e.Resume? && w'.gate.active > w.gate.active ==> w'.gate.active <= w'.gate.limit)
    && (e.Resume? ==> e.t in w'.running && w'.gate.active >= w.gate.active + 1)
    && (e.Arrive? || e.Requeue? ==>
          if w.gate.active < w.gate.limit
          then w'.granted == w.granted + [e.t] && w'.gate.waiters == w.gate.waiters && e.t in w'.running
          else w'.granted == w.granted && w'.gate.waiters == w.gate.waiters + [e.t])
  }

  lemma StepGrants(w: World, e: Event)
    requires Inv(w) && Enabled(w, e)
    ensures Granting(w, e)
  {
    hide Admit, Finished, Inv, Enabled, Granting, Step;
    match e
    case Arrive(_) => ArriveGrants(w, e);
    case Requeue(_) => ArriveGrants(w, e);
    case GiveUp(t) => GiveUpGrants(w, t);
    case Resume(t) => ResumeGrants(w, t);
    case End(t, outcome) => EndGrants(w, t, outcome);
    case Suspend(t) => SuspendGrants(w, t);
  }

  lemma ArriveGrants(w: World, e: Event)
    requires Inv(w) && (e.Arrive? || e.Requeue?)
    ensures Granting(w, e)
  {
    hide Admit;
    StepRest(w, e);
  }

  lemma GiveUpGrants(w: World, t: nat)
    requires Enabled(w, GiveUp(t))
    ensures Granting(w, GiveUp(t))
  {
  }

  lemma ResumeGrants(w: World, t: nat)
    requires Inv(w) && Enabled(w, Resume(t))
    ensures Granting(w, Resume(t))
  {
    hide Admit, Inv, Pump;
    AdmitGrants(w.(running := w.running + {t}, suspended := w.suspended - {t}, resumed := w.resumed + {t}),
                Reacquire(w.gate));
    PumpBusy(w.gate.(active := w.gate.active + 1));
  }

  lemma EndGrants(w: World, t: nat, outcome: Verdict)
    requires Inv(w) && Enabled(w, End(t, outcome))
    ensures Granting(w, End(t, outcome))
  {
    hide Admit, Finished;
    Leaves(w, t);
    AdmitGrants(w.(running := w.running - {t}, resumed := w.resumed - {t}), Finished(w.gate, outcome));
    FinishedWithin(w.gate, outcome);
  }

  lemma SuspendGrants(w: World, t: nat)
    requires Inv(w) && Enabled(w, Suspend(t))
    ensures Granting(w, Suspend(t))
  {
    hide Admit, Inv, Pump;
    AdmitGrants(w.(running := w.running - {t}, suspended := w.suspended + {t}, resumed := w.resumed - {t}),
                Release(w.gate));
    PumpBusy(w.gate.(active := w.gate.active - 1));
  }

  lemma StepRest(w: World, e: Event)
    requires e.Arrive? || e.Requeue?
    ensures Step(w, e) == Queue(if e.Requeue? then w.(suspended := w.suspended - {e.t}) else w, e.t)
  {
  }

  lemma AdmitGrants(w: World, g: Gate)
    ensures var w' := Admit(w, g);
            && w'.gate == g && w.granted <= w'.granted && w.running <= w'.running
            && (w'.granted != w.granted ==> |g.waiters| < |w.gate.waiters|)
  {
  }

  /** Ending a holder lets nobody in above the ceiling it leaves. */
  lemma FinishedWithin(g: Gate, outcome: Verdict)
    requires Bounds(g) && Busy(g) && 1 <= g.active
    ensures var g' := Finished(g, outcome);
            (g'.active > g.active || |g'.waiters| < |g.waiters| ==> g'.active <= g'.limit)
  {
    hide Pump, Busy, Bounds;
    var g1 := Adapt(g, outcome);
    AdaptWithin(g, outcome);
    PumpBusy(g1.(active := g1.active - 1));
  }

  lemma AdaptWithin(g: Gate, outcome: Verdict)
    ensures var g1 := Adapt(g, outcome);
            && |g1.waiters| <= |g.waiters| && g1.active == g.active + |g.waiters| - |g1.waiters|
            && (|g1.waiters| < |g.waiters| ==> g1.active <= g1.limit)
  {
    if outcome == Succeeded && g.limit < g.max && g.successes + 1 >= g.increaseEvery {
      PumpBusy(g.(successes := 0, limit := Smaller(g.max, g.limit + 1)));
    }
  }

  /** Every law holds in every run, at every step slots go to those the ceiling admits, and
      they are granted in the order they were asked for: a grant is never taken back, and
      grants and queue together are the arrivals. */
  lemma {:induction false} EveryRun(w: World, events: seq<Event>)
    requires Inv(w) && Possible(w, events)
    ensures Inv(Run(w, events)) && w.granted <= Run(w, events).granted
    ensures forall k :: 0 <= k < |events| ==> Granting(Run(w, events[..k]), events[k])
    decreases |events|
  {
    hide Inv, Step, Enabled, Granting;
    if events != [] {
      StepKeeps(w, events[0]);
      StepGrants(w, events[0]);
      GrantsKept(w, events[0]);
      var w1, rest := Step(w, events[0]), events[1..];
      EveryRun(w1, rest);
      forall k | 0 <= k < |events| ensures Granting(Run(w, events[..k]), events[k]) {
        if k > 0 {
          assert events[..k][1..] == rest[..k - 1] && events[k] == rest[k - 1];
        }
      }
    }
  }

  lemma GrantsKept(w: World, e: Event)
    requires Granting(w, e)
    ensures w.granted <= Step(w, e).granted
  {
  }

  /** The whole part of an option, or its default, kept between `lo` and `hi`. */
  predicate Clamped(option: Option<real>, default: int, lo: int, hi: Option<int>, n: int) {
    var x := if option.Some? then option.value else default as real;
    if hi.Some? && x >= hi.value as real then n == (if hi.value < lo then lo else hi.value)
    else if x < lo as real then n == lo
    else n as real <= x < n as real + 1.0
  }

  lemma StartOk(max: Option<real>, min: Option<real>, increaseEvery: Option<real>)
    ensures var w := Start(max, min, increaseEvery);
            var g := w.gate;
            && Inv(w)
            && Clamped(max, 16, 1, None, g.max) && Clamped(min, 2, 1, Some(g.max), g.min)
            && Clamped(increaseEvery, 8, 1, None, g.increaseEvery)
            && g.limit == g.max && g.active == 0 && g.successes == 0 && g.waiters == []
  {
  }

  /** Whoever heads the queue gets in once enough holders end: nothing else is needed, so a
      queue never waits on suspended holders alone. */
  lemma {:induction false} QueueDrains(w: World) returns (ends: seq<Event>)
    requires Inv(w) && w.gate.waiters != []
    ensures |ends| == w.gate.active - w.gate.limit + 1 && w.running != {}
    ensures forall e :: e in ends ==> e.End? && e.t in w.running
    ensures Possible(w, ends) && w.gate.waiters[0] in Run(w, ends).running
    decreases w.gate.active
  {
    hide Inv, Step;
    SomebodyRuns(w);
    var t :| t in w.running;
    var e := End(t, Failed);
    StepKeeps(w, e);
    var w1 := Step(w, e);
    EndFailed(w, t);
    if w.gate.active > w.gate.limit {
      var more := QueueDrains(w1);
      ends := [e] + more;
      assert ends[1..] == more;
    } else {
      ends := [e];
      assert ends[1..] == [];
    }
  }

  lemma SomebodyRuns(w: World)
    requires Inv(w) && w.gate.waiters != []
    ensures w.gate.active >= w.gate.limit >= 1 && w.running != {}
  {
  }

  lemma EndFailed(w: World, t: nat)
    requires Inv(w) && t in w.running && w.gate.waiters != []
    ensures var w1 := Step(w, End(t, Failed));
            if w.gate.active > w.gate.limit
            then w1.gate == w.gate.(active := w.gate.active - 1) && w1.running == w.running - {t}
            else w.gate.waiters[0] in w1.running
  {
    var g1 := w.gate.(active := w.gate.active - 1);
    if w.gate.active > w.gate.limit {
      assert Admitted(g1) == 0 && g1.waiters[0..] == g1.waiters && g1.waiters[..0] == [];
      assert Finished(w.gate, Failed) == g1;
    } else {
      assert Admitted(g1) == 1;
      var ins := w.gate.waiters[..1];
      assert w.gate.waiters[0] in ins;
    }
  }

  // ---------------------------------------------------------------- the ceiling

  function Count(events: seq<Event>, outcome: Verdict): nat {
    if events == [] then 0 else
    (if events[0].End? && events[0].outcome == outcome then 1 else 0) + Count(events[1..], outcome)
  }

  function Pow2(k: nat): (p: nat)
    ensures p >= 1
  {
    if k == 0 then 1 else 2 * Pow2(k - 1)
  }

  lemma CeilingStep(w: World, e: Event)
    ensures var g, g' := w.gate, Step(w, e).gate;
            && g'.min == g.min && g'.max == g.max && g'.increaseEvery == g.increaseEvery
            && g'.limit == (if e.End? then Adapt(g, e.outcome).limit else g.limit)
            && g'.successes == (if e.End? then Adapt(g, e.outcome).successes else g.successes)
  {
  }

  lemma {:induction false} DivTwice(a: nat, p: nat)
    requires p >= 1
    ensures (a / 2) / p == a / (2 * p)
  {
    var q, r := (a / 2) / p, (a / 2) % p;
    assert a / 2 == q * p + r;
    assert a == 2 * (a / 2) + a % 2;
    assert a == q * (2 * p) + (2 * r + a % 2);
    assert 0 <= 2 * r + a % 2 < 2 * p;
    Division(a, 2 * p, q, 2 * r + a % 2);
  }

  /** k overloads with no success among them bring the ceiling to max(min, limit / 2^k),
      whatever else happens in between. */
  lemma {:induction false} OverloadsHalve(w: World, events: seq<Event>)
    requires Inv(w) && Possible(w, events) && Count(events, Succeeded) == 0
    ensures Run(w, events).gate.limit == Larger(w.gate.min, w.gate.limit / Pow2(Count(events, Overloaded)))
    decreases |events|
  {
    hide Inv, Step, Enabled, Adapt;
    if events == [] {
      LimitWithin(w);
    } else {
      var e, k := events[0], Count(events[1..], Overloaded);
      StepKeeps(w, e);
      CeilingStep(w, e);
      OverloadsHalve(Step(w, e), events[1..]);
      LimitWithin(w);
      if e.End? {
        AdaptDown(w.gate, e.outcome);
        if e.outcome == Overloaded {
          DivTwice(w.gate.limit, Pow2(k));
          HalfOfFloor(w.gate.min, w.gate.limit, Pow2(k));
        }
      }
    }
  }

  lemma LimitWithin(w: World)
    requires Inv(w)
    ensures 1 <= w.gate.min <= w.gate.limit <= w.gate.max && w.gate.increaseEvery >= 1
    ensures 0 <= w.gate.successes < w.gate.increaseEvery && (w.gate.limit == w.gate.max ==> w.gate.successes == 0)
  {
  }

  lemma AdaptDown(g: Gate, outcome: Verdict)
    requires outcome != Succeeded
    ensures Adapt(g, outcome).limit == if outcome == Overloaded then Larger(g.min, g.limit / 2) else g.limit
  {
  }

  /** Dividing max(min, x/2) further and dividing x/2 further differ only below min. */
  lemma HalfOfFloor(min: int, limit: int, p: nat)
    requires 1 <= min <= limit && p >= 1
    ensures Larger(min, Larger(min, limit / 2) / p) == Larger(min, (limit / 2) / p)
  {
    if limit / 2 < min {
      DivAtMost(min, p);
      DivAtMost(limit / 2, p);
    }
  }

  lemma DivAtMost(a: nat, p: nat)
    requires p >= 1
    ensures a / p <= a
  {
    var q := a / p;
    assert a == q * p + a % p;
    assert q * p >= q;
  }

  /** n successes with no overload among them raise the ceiling by one per `increaseEvery`,
      counting those already banked, up to max. */
  lemma {:induction false} SuccessesRaise(w: World, events: seq<Event>)
    requires Inv(w) && Possible(w, events) && Count(events, Overloaded) == 0
    ensures w.gate.increaseEvery >= 1
    ensures var banked, g := w.gate.successes + Count(events, Succeeded), w.gate;
            Run(w, events).gate.limit == Smaller(g.max, g.limit + banked / g.increaseEvery)
    decreases |events|
  {
    hide Inv, Step, Enabled, Adapt;
    LimitWithin(w);
    if events == [] {
      Division(w.gate.successes, w.gate.increaseEvery, 0, w.gate.successes);
    } else {
      var e, n := events[0], Count(events[1..], Succeeded);
      StepKeeps(w, e);
      CeilingStep(w, e);
      SuccessesRaise(Step(w, e), events[1..]);
      LimitWithin(Step(w, e));
      if e.End? {
        AdaptUp(w.gate, e.outcome);
        if e.outcome == Succeeded {
          BankOne(w.gate, n);
        }
      }
    }
  }

  lemma AdaptUp(g: Gate, outcome: Verdict)
    requires Bounds(g) && outcome != Overloaded
    ensures var g' := Adapt(g, outcome);
            if outcome == Failed || g.limit == g.max then g' == g
            else if g.successes + 1 == g.increaseEvery then g'.limit == g.limit + 1 && g'.successes == 0
            else g'.limit == g.limit && g'.successes == g.successes + 1
  {
  }

  /** The next success banked on top of n more. */
  lemma BankOne(g: Gate, n: nat)
    requires Bounds(g)
    ensures var g', all := Adapt(g, Succeeded), g.successes + 1 + n;
            Smaller(g.max, g'.limit + (g'.successes + n) / g.increaseEvery)
            == Smaller(g.max, g.limit + all / g.increaseEvery)
  {
    AdaptUp(g, Succeeded);
    var d := g.increaseEvery;
    if g.limit == g.max {
      DivNat(g.successes + n, d);
      DivNat(g.successes + 1 + n, d);
    } else if g.successes + 1 == d {
      Division(d + n, d, 1 + n / d, n % d);
    }
  }

  lemma DivNat(a: nat, d: nat)
    requires d >= 1
    ensures a / d >= 0
  {
  }

  /** An overload halves the ceiling and forfeits what was banked: it takes `increaseEvery`
      new successes for each step up, whatever was banked before. */
  lemma OverloadForfeits(w: World, t: nat, events: seq<Event>)
    requires Inv(w) && t in w.running && Count(events, Overloaded) == 0
    requires Possible(Step(w, End(t, Overloaded)), events) && w.gate.increaseEvery >= 1
    ensures var half := if w.gate.limit / 2 > w.gate.min then w.gate.limit / 2 else w.gate.min;
            var up := half + Count(events, Succeeded) / w.gate.increaseEvery;
            && Step(w, End(t, Overloaded)).gate.limit == half
            && Run(Step(w, End(t, Overloaded)), events).gate.limit == (if up < w.gate.max then up else w.gate.max)
  {
    hide Inv, Step, Run, Possible, Enabled;
    var w1 := Step(w, End(t, Overloaded));
    assert Enabled(w, End(t, Overloaded)) by { Running(w, t); }
    StepKeeps(w, End(t, Overloaded));
    CeilingStep(w, End(t, Overloaded));
    SuccessesRaise(w1, events);
  }

  lemma Running(w: World, t: nat)
    requires t in w.running
    ensures Enabled(w, End(t, Overloaded))
  {
  }

  /** After an overload, (max - limit) * increaseEvery successes restore the ceiling. */
  lemma CeilingRestored(w: World, events: seq<Event>)
    requires Inv(w) && Possible(w, events) && Count(events, Overloaded) == 0 && w.gate.successes == 0
    requires Count(events, Succeeded) == (w.gate.max - w.gate.limit) * w.gate.increaseEvery
    ensures Run(w, events).gate.limit == w.gate.max
  {
    hide Inv;
    SuccessesRaise(w, events);
    var g := w.gate;
    Division((g.max - g.limit) * g.increaseEvery, g.increaseEvery, g.max - g.limit, 0);
  }
}
