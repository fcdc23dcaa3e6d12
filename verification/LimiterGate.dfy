/**
  The adaptive concurrency limiter. `Gate` is what the closure holds; the class changes it
  in place and is proved against functions on it; the laws are about runs in which any
  number of holders arrive, abort, finish, suspend and resume in any order.
  */
module LimiterGate {
  import opened Searching
  import opened Arithmetic
  import opened Options

  /** `waiters` are the tickets queued for a slot, oldest first. */
  datatype Gate = Gate(
    max: int, min: int, increaseEvery: int, limit: int, active: int, successes: int, waiters: seq<nat>)

  /** The options, floored and clamped. */
  function Create(max: Option<real>, min: Option<real>, increaseEvery: Option<real>): Gate {
    var hi := Larger(1, if max.Some? then max.value.Floor else 16);
    var lo := Larger(1, Smaller(if min.Some? then min.value.Floor else 2, hi));
    var every := Larger(1, if increaseEvery.Some? then increaseEvery.value.Floor else 8);
    Gate(hi, lo, every, hi, 0, 0, [])
  }

  /** How many queued tickets `pump` lets in. */
  function Admitted(g: Gate): (n: nat)
    ensures n <= |g.waiters|
  {
    var room := Larger(0, g.limit - g.active);
    Smaller(room, |g.waiters|)
  }

  function Pump(g: Gate): Gate {
    g.(active := g.active + Admitted(g), waiters := g.waiters[Admitted(g)..])
  }

  lemma PumpStep(g: Gate)
    requires g.active < g.limit && g.waiters != []
    ensures Pump(g) == Pump(g.(active := g.active + 1, waiters := g.waiters[1..]))
  {
    var g1 := g.(active := g.active + 1, waiters := g.waiters[1..]);
    assert g1.waiters[Admitted(g1)..] == g.waiters[Admitted(g)..];
  }

  lemma PumpDone(g: Gate)
    requires g.active >= g.limit || g.waiters == []
    ensures Pump(g) == g
  {
  }

  /** Granted at once, or queued. */
  function Acquire(g: Gate, t: nat): (Gate, bool) {
    if g.active < g.limit then (g.(active := g.active + 1), true) else (g.(waiters := g.waiters + [t]), false)
  }

  function IndexOf(ts: seq<nat>, t: nat): (i: nat)
    ensures i <= |ts| && (i < |ts| ==> ts[i] == t) && t !in ts[..i]
    ensures i < |ts| <==> t in ts
  {
    FirstIndex(ts, (x: nat) => x == t)
  }

  function Abort(g: Gate, t: nat): Gate {
    var i := IndexOf(g.waiters, t);
    if i < |g.waiters| then g.(waiters := g.waiters[..i] + g.waiters[i + 1..]) else g
  }

  function Release(g: Gate): Gate {
    Pump(g.(active := g.active - 1))
  }

  function OnSuccess(g: Gate): Gate {
    if g.limit >= g.max then g else
    var g1 := g.(successes := g.successes + 1);
    if g1.successes >= g1.increaseEvery then
      Pump(g1.(successes := 0, limit := Smaller(g.max, g.limit + 1)))
    else g1
  }

  function OnOverload(g: Gate): Gate {
    g.(successes := 0, limit := Larger(g.min, g.limit / 2))
  }

  function Reacquire(g: Gate): Gate {
    Pump(g.(active := g.active + 1))
  }

  class Limiter {
    const max: int
    const min: int
    const increaseEvery: int
    var limit: int
    var active: int
    var successes: int
    var waiters: seq<nat>

    function View(): Gate
      reads this
    {
      Gate(max, min, increaseEvery, limit, active, successes, waiters)
    }

    constructor (max: Option<real>, min: Option<real>, increaseEvery: Option<real>)
      ensures View() == Create(max, min, increaseEvery)
    {
      var g := Create(max, min, increaseEvery);
      this.max, this.min, this.increaseEvery := g.max, g.min, g.increaseEvery;
      limit, active, successes, waiters := g.max, 0, 0, [];
    }

    /** Admit as many queued waiters as the ceiling allows; the admitted ones, in order. */
    method PumpWaiters() returns (admitted: seq<nat>)
      modifies this`active, this`waiters
      ensures View() == Pump(old(View()))
      ensures admitted + waiters == old(waiters)
    {
      hide Pump;
      admitted := [];
      while active < limit && waiters != []
        invariant admitted + waiters == old(waiters)
        invariant Pump(View()) == Pump(old(View()))
        decreases |waiters|
      {
        PumpStep(View());
        assert old(waiters) == admitted + [waiters[0]] + waiters[1..];
        active := active + 1;
        admitted := admitted + [waiters[0]];
        waiters := waiters[1..];
      }
      PumpDone(View());
    }

    /** `aborted` is whether the signal had fired before the call. */
    method AcquireSlot(t: nat, aborted: bool) returns (granted: Option<bool>)
      modifies this`active, this`waiters
      ensures aborted ==> granted == None && View() == old(View())
      ensures !aborted ==> granted.Some? && (View(), granted.value) == Acquire(old(View()), t)
    {
      if aborted {
        return None;
      }
      if active < limit {
        active := active + 1;
        return Some(true);
      }
      waiters := waiters + [t];
      granted := Some(false);
    }

    /** A queued waiter whose signal fires leaves the queue. */
    method OnAbort(t: nat)
      modifies this`waiters
      ensures View() == Abort(old(View()), t)
    {
      var i := IndexOf(waiters, t);
      if i != |waiters| {
        waiters := waiters[..i] + waiters[i + 1..];
      }
    }

    method ReleaseSlot() returns (admitted: seq<nat>)
      modifies this`active, this`waiters
      ensures View() == Release(old(View()))
      ensures admitted + waiters == old(waiters)
    {
      active := active - 1;
      admitted := PumpWaiters();
    }

    method ReacquireSlot() returns (admitted: seq<nat>)
      modifies this`active, this`waiters
      ensures View() == Reacquire(old(View()))
      ensures admitted + waiters == old(waiters)
    {
      active := active + 1;
      admitted := PumpWaiters();
    }

    /** The end of `run`: adapt the ceiling, then give the slot back. */
    method Finish(outcome: Verdict) returns (admitted: seq<nat>)
      modifies this
      ensures View() == Finished(old(View()), outcome)
      ensures admitted + waiters == old(waiters)
    {
      hide Pump;
      var early := AdaptCeiling(outcome);
      var late := ReleaseSlot();
      admitted := early + late;
      assert early + (late + waiters) == admitted + waiters;
    }

    method AdaptCeiling(outcome: Verdict) returns (admitted: seq<nat>)
      modifies this
      ensures View() == Adapt(old(View()), outcome)
      ensures admitted + waiters == old(waiters)
    {
      hide Pump;
      admitted := [];
      if outcome == Succeeded {
        if limit < max {
          successes := successes + 1;
          if successes >= increaseEvery {
            successes := 0;
            limit := Smaller(max, limit + 1);
            admitted := PumpWaiters();
          }
        }
      } else if outcome == Overloaded {
        successes := 0;
        var next := Larger(min, limit / 2);
        if next != limit {
          limit := next;
        }
      }
    }
  }

  datatype Verdict = Succeeded | Overloaded | Failed

  function Adapt(g: Gate, outcome: Verdict): Gate {
    match outcome
    case Succeeded => OnSuccess(g)
    case Overloaded => OnOverload(g)
    case Failed => g
  }

  function Finished(g: Gate, outcome: Verdict): Gate {
    Release(Adapt(g, outcome))
  }
}
