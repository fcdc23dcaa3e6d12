/**
  Decisions on pending requests. `decide` is two steps, before and after it awaits the send;
  events of the session and other decisions come in between. The digest of a decision stands
  for the decision: hashing is injective.
  */
module Decisions {
  import opened Options

  datatype Kind = Permission | Question | ExternalCapability | Plan

  /** `body` is the rest of the decision: the verdict, answers, feedback. */
  datatype Decision = Decision(kind: Kind, id: string, body: string)

  datatype Receipt = Receipt(receiptId: nat, key: string, pendingId: string, acceptedAt: int)

  datatype Stored = Stored(digest: Decision, receipt: Receipt)

  datatype Desk = Desk(pending: map<string, Kind>, receipts: map<string, Stored>)

  datatype UIEvent =
    | PermissionRequest(id: string)
    | PermissionSettled(ids: seq<string>)
    | QuestionRequest(id: string)
    | QuestionSettled(id: string)
    | CapabilityPending(id: string)
    | CapabilityResolved(id: string)
    | PlanPresented(planId: string)
    | PlanStateChanged(stillPending: bool)
    | OtherEvent

  datatype Reply = Conflict | Stale | Again(receipt: Receipt) | Send(receipt: Receipt)

  /** Ids an event takes off the desk, and the one it puts on. */
  function Cleared(pending: map<string, Kind>, e: UIEvent): set<string> {
    match e
    case PermissionSettled(ids) => set id | id in ids
    case QuestionSettled(id) => {id}
    case CapabilityResolved(id) => {id}
    case PlanPresented(_) => Plans(pending)
    case PlanStateChanged(stillPending) => if stillPending then {} else Plans(pending)
    case _ => {}
  }

  function Plans(pending: map<string, Kind>): set<string> {
    set id | id in pending && pending[id] == Plan
  }

  function Registered(e: UIEvent): Option<(string, Kind)> {
    match e
    case PermissionRequest(id) => Some((id, Permission))
    case QuestionRequest(id) => Some((id, Question))
    case CapabilityPending(id) => Some((id, ExternalCapability))
    case PlanPresented(planId) => Some((planId, Plan))
    case _ => None
  }

  function Observe(pending: map<string, Kind>, e: UIEvent): map<string, Kind> {
    var left := pending - Cleared(pending, e);
    var r := Registered(e);
    if r.Some? then left[r.value.0 := r.value.1] else left
  }

  /** `decide` up to its send; the id leaves the desk before the outcome is known. */
  function Begin(d: Desk, key: string, decision: Decision, receiptId: nat, now: int): (Desk, Reply) {
    if key in d.receipts then
      (d, if d.receipts[key].digest == decision then Again(d.receipts[key].receipt) else Conflict)
    else if decision.id !in d.pending || d.pending[decision.id] != decision.kind then (d, Stale)
    else
      var receipt := Receipt(receiptId, key, decision.id, now);
      (Desk(d.pending - {decision.id}, d.receipts[key := Stored(decision, receipt)]), Send(receipt))
  }

  /** The send failed: undo both entries. */
  function Rollback(d: Desk, key: string, decision: Decision): Desk {
    Desk(d.pending[decision.id := decision.kind], d.receipts - {key})
  }

  class DecisionDesk {
    var pending: map<string, Kind>
    var receipts: map<string, Stored>

    function View(): Desk
      reads this
    {
      Desk(pending, receipts)
    }

    constructor ()
      ensures View() == Desk(map[], map[])
    {
      pending, receipts := map[], map[];
    }

    /** Returns the id under which the event waits for a decision. */
    method ObservePending(e: UIEvent) returns (pendingId: Option<string>)
      modifies this`pending
      ensures pending == Observe(old(pending), e)
      ensures pendingId == if Registered(e).Some? then Some(Registered(e).value.0) else None
    {
      pendingId := None;
      match e
      case PermissionRequest(id) =>
        pending := pending[id := Permission];
        pendingId := Some(id);
      case PermissionSettled(ids) =>
        for i := 0 to |ids|
          invariant pending == old(pending) - (set id | id in ids[..i])
        {
          assert forall id :: id in ids[..i + 1] <==> id in ids[..i] || id == ids[i];
          pending := pending - {ids[i]};
        }
        assert ids[..|ids|] == ids;
      case QuestionRequest(id) =>
        pending := pending[id := Question];
        pendingId := Some(id);
      case QuestionSettled(id) => pending := pending - {id};
      case CapabilityPending(id) =>
        pending := pending[id := ExternalCapability];
        pendingId := Some(id);
      case CapabilityResolved(id) => pending := pending - {id};
      case PlanPresented(planId) =>
        DropPlans();
        pending := pending[planId := Plan];
        pendingId := Some(planId);
      case PlanStateChanged(stillPending) =>
        if !stillPending {
          DropPlans();
        }
      case OtherEvent =>
    }

    method DropPlans()
      modifies this`pending
      ensures pending == old(pending) - Plans(old(pending))
    {
      var todo := pending.Keys;
      while todo != {}
        invariant todo <= old(pending).Keys
        invariant pending == old(pending) - (set id | id in Plans(old(pending)) && id !in todo)
        decreases |todo|
      {
        var id :| id in todo;
        if pending[id] == Plan {
          pending := pending - {id};
        }
        todo := todo - {id};
      }
      assert (set id | id in Plans(old(pending)) && id !in todo) == Plans(old(pending));
    }

    method BeginDecide(key: string, decision: Decision, receiptId: nat, now: int) returns (reply: Reply)
      modifies this
      ensures (View(), reply) == Begin(old(View()), key, decision, receiptId, now)
    {
      if key in receipts {
        var stored := receipts[key];
        if stored.digest != decision {
          return Conflict;
        }
        return Again(stored.receipt);
      }
      if decision.id !in pending || pending[decision.id] != decision.kind {
        return Stale;
      }
      var receipt := Receipt(receiptId, key, decision.id, now);
      pending := pending - {decision.id};
      receipts := receipts[key := Stored(decision, receipt)];
      reply := Send(receipt);
    }

    method SendFailed(key: string, decision: Decision)
      modifies this
      ensures View() == Rollback(old(View()), key, decision)
    {
      receipts := receipts - {key};
      pending := pending[decision.id := decision.kind];
    }
  }

  // ---------------------------------------------------------------- what events do

  /** Each request is pending under its kind until the event that settles it, whatever else is
      seen in between that does not concern it. */
  lemma RequestsSettle(pending: map<string, Kind>, id: string, ids: seq<string>)
    ensures Observe(Observe(pending, PermissionRequest(id)), PermissionSettled(ids))
         == if id in ids then pending - (set x | x in ids) else (pending - (set x | x in ids))[id := Permission]
    ensures Observe(pending, QuestionRequest(id)) == pending[id := Question]
    ensures Observe(Observe(pending, QuestionRequest(id)), QuestionSettled(id)) == pending - {id}
    ensures Observe(pending, CapabilityPending(id)) == pending[id := ExternalCapability]
    ensures Observe(Observe(pending, CapabilityPending(id)), CapabilityResolved(id)) == pending - {id}
    ensures Observe(pending, OtherEvent) == pending && Observe(pending, PlanStateChanged(true)) == pending
  {
    assert pending[id := Question] - {id} == pending - {id};
    assert pending[id := ExternalCapability] - {id} == pending - {id};
    assert pending - {} == pending;
  }

  /** An event about one request leaves all others as they are. */
  lemma OthersStay(pending: map<string, Kind>, e: UIEvent, other: string)
    requires match e
             case PermissionRequest(id) => other != id
             case PermissionSettled(ids) => other !in ids
             case QuestionRequest(id) => other != id
             case QuestionSettled(id) => other != id
             case CapabilityPending(id) => other != id
             case CapabilityResolved(id) => other != id
             case _ => other !in pending || pending[other] != Plan
    requires e.PlanPresented? ==> other != e.planId
    ensures other in Observe(pending, e) <==> other in pending
    ensures other in pending ==> Observe(pending, e)[other] == pending[other]
  {
  }

  /** At most the plan presented last is pending, and none once its state has moved on. */
  lemma OnePlan(pending: map<string, Kind>, planId: string)
    ensures var shown := Observe(pending, PlanPresented(planId));
            var over := Observe(pending, PlanStateChanged(false));
            && planId in shown && (forall id :: id in shown && shown[id] == Plan <==> id == planId)
            && (forall id :: id in over ==> over[id] != Plan)
  {
  }

  // ---------------------------------------------------------------- interleavings

  /** A send under way or delivered, for one registration of a pending id. */
  datatype Flight = Flight(token: nat, decision: Decision, receipt: Receipt)

  /** Where a registration is. */
  datatype Place = AtDesk(id: string) | Sending(key: string) | Taken(key: string)

  /** `tokens` numbers the registration each pending id now stands for; `place` says where
      each registration last was. */
  datatype World = World(
    desk: Desk, tokens: map<string, nat>, flights: map<string, Flight>, done: map<string, Flight>,
    place: map<nat, Place>, next: nat)

  datatype Event =
    | Saw(e: UIEvent)
    | Asked(key: string, decision: Decision, receiptId: nat, now: int)
    | Delivered(sent: string)
    | Bounced(failed: string)

  predicate Enabled(w: World, e: Event) {
    match e
    case Delivered(key) => key in w.flights
    case Bounced(key) => key in w.flights
    case _ => true
  }

  function Step(w: World, e: Event): World
    requires Enabled(w, e)
  {
    match e
    case Saw(ui) =>
      var left := w.tokens - Cleared(w.desk.pending, ui);
      var w1 := w.(desk := w.desk.(pending := Observe(w.desk.pending, ui)), tokens := left, next := w.next + 1);
      var r := Registered(ui);
      if r.None? then w1 else
      w1.(tokens := left[r.value.0 := w.next], place := w.place[w.next := AtDesk(r.value.0)])
    case Asked(key, decision, receiptId, now) =>
      var (desk, reply) := Begin(w.desk, key, decision, receiptId, now);
      if !reply.Send? || decision.id !in w.tokens then w.(desk := desk) else
      var t := w.tokens[decision.id];
      w.(desk := desk, tokens := w.tokens - {decision.id},
         flights := w.flights[key := Flight(t, decision, reply.receipt)], place := w.place[t := Sending(key)])
    case Delivered(key) =>
      var f := w.flights[key];
      w.(flights := w.flights - {key}, done := w.done[key := f], place := w.place[f.token := Taken(key)])
    case Bounced(key) =>
      var f := w.flights[key];
      w.(desk := Rollback(w.desk, key, f.decision), flights := w.flights - {key},
         tokens := w.tokens[f.decision.id := f.token], place := w.place[f.token := AtDesk(f.decision.id)])
  }

  /** A registration is pending, or being sent, or delivered: one of them, once. */
  ghost predicate OnePlace(w: World) {
    && (forall id :: id in w.tokens ==> w.tokens[id] in w.place && w.place[w.tokens[id]] == AtDesk(id))
    && (forall k :: k in w.flights ==> w.flights[k].token in w.place && w.place[w.flights[k].token] == Sending(k))
    && (forall k :: k in w.done ==> w.done[k].token in w.place && w.place[w.done[k].token] == Taken(k))
    && (forall t :: t in w.place ==> t < w.next)
  }

  /** The desk stores a receipt exactly for the sends under way and delivered. */
  ghost predicate Booked(w: World) {
    && w.tokens.Keys == w.desk.pending.Keys
    && w.desk.receipts.Keys == w.flights.Keys + w.done.Keys
    && w.flights.Keys !! w.done.Keys
    && (forall k :: k in w.flights ==> w.desk.receipts[k] == Stored(w.flights[k].decision, w.flights[k].receipt))
    && (forall k :: k in w.done ==> w.desk.receipts[k] == Stored(w.done[k].decision, w.done[k].receipt))
  }

  ghost predicate Inv(w: World) {
    OnePlace(w) && Booked(w)
  }

  /** Events only change what is on the desk. */
  lemma SawBooked(w: World, ui: UIEvent)
    requires Booked(w)
    ensures Booked(Step(w, Saw(ui)))
  {
    hide Cleared, Registered;
    var w' := Step(w, Saw(ui));
    assert w'.tokens.Keys == w'.desk.pending.Keys;
  }

  lemma SawPlaced(w: World, ui: UIEvent)
    requires OnePlace(w)
    ensures OnePlace(Step(w, Saw(ui)))
  {
    hide Cleared, Registered, Observe, OnePlace;
    var left := w.tokens - Cleared(w.desk.pending, ui);
    var desk := w.desk.(pending := Observe(w.desk.pending, ui));
    FewerTokens(w, left, desk);
    if Registered(ui).Some? {
      OneMoreToken(w, left, desk, Registered(ui).value.0);
    }
  }

  lemma FewerTokens(w: World, left: map<string, nat>, desk: Desk)
    requires OnePlace(w) && forall id :: id in left ==> id in w.tokens && left[id] == w.tokens[id]
    ensures OnePlace(w.(desk := desk, tokens := left, next := w.next + 1))
  {
  }

  lemma OneMoreToken(w: World, left: map<string, nat>, desk: Desk, id: string)
    requires OnePlace(w) && forall x :: x in left ==> x in w.tokens && left[x] == w.tokens[x]
    ensures OnePlace(w.(desk := desk, tokens := left[id := w.next], next := w.next + 1,
                        place := w.place[w.next := AtDesk(id)]))
  {
    assert w.next !in w.place;
  }

  lemma AskedBooked(w: World, key: string, decision: Decision, receiptId: nat, now: int)
    requires Booked(w)
    ensures Booked(Step(w, Asked(key, decision, receiptId, now)))
  {
  }

  lemma AskedPlaced(w: World, key: string, decision: Decision, receiptId: nat, now: int)
    requires Inv(w)
    ensures OnePlace(Step(w, Asked(key, decision, receiptId, now)))
  {
  }

  lemma DeliveredBooked(w: World, key: string)
    requires Booked(w) && key in w.flights
    ensures Booked(Step(w, Delivered(key)))
  {
    var w' := Step(w, Delivered(key));
    assert w'.flights.Keys == w.flights.Keys - {key} && w'.done.Keys == w.done.Keys + {key};
  }

  lemma BouncedBooked(w: World, key: string)
    requires Booked(w) && key in w.flights
    ensures Booked(Step(w, Bounced(key)))
  {
    var w' := Step(w, Bounced(key));
    assert w'.flights.Keys == w.flights.Keys - {key} && w'.done == w.done;
    assert w'.desk.receipts.Keys == w.desk.receipts.Keys - {key};
  }

  lemma DeliveredPlaced(w: World, key: string)
    requires OnePlace(w) && key in w.flights
    ensures OnePlace(Step(w, Delivered(key)))
  {
  }

  lemma BouncedPlaced(w: World, key: string)
    requires OnePlace(w) && key in w.flights
    ensures OnePlace(Step(w, Bounced(key)))
  {
    hide Rollback;
  }

  lemma StepKeeps(w: World, e: Event)
    requires Inv(w) && Enabled(w, e)
    ensures Inv(Step(w, e))
    ensures forall k :: k in w.done ==> k in Step(w, e).done && Step(w, e).done[k] == w.done[k]
  {
    hide OnePlace, Booked;
    match e
    case Saw(ui) => SawBooked(w, ui); SawPlaced(w, ui);
    case Asked(key, decision, receiptId, now) =>
      AskedBooked(w, key, decision, receiptId, now);
      AskedPlaced(w, key, decision, receiptId, now);
    case Delivered(key) => FlightsNotDone(w); DeliveredBooked(w, key); DeliveredPlaced(w, key);
    case Bounced(key) => BouncedBooked(w, key); BouncedPlaced(w, key);
  }

  lemma FlightsNotDone(w: World)
    requires Booked(w)
    ensures w.flights.Keys !! w.done.Keys
  {
  }

  /** Two delivered sends never carry the same registration. */
  lemma TakenOnce(w: World, a: string, b: string)
    requires Inv(w) && a in w.done && b in w.done && a != b
    ensures w.done[a].token != w.done[b].token
  {
    assert w.place[w.done[a].token] == Taken(a) && w.place[w.done[b].token] == Taken(b);
  }

  function Run(w: World, events: seq<Event>): World
    requires Possible(w, events)
    decreases |events|
  {
    if events == [] then w else Run(Step(w, events[0]), events[1..])
  }

  predicate Possible(w: World, events: seq<Event>)
    decreases |events|
  {
    events == [] || (Enabled(w, events[0]) && Possible(Step(w, events[0]), events[1..]))
  }

  const START := World(Desk(map[], map[]), map[], map[], map[], map[], 0)

  /** In every interleaving each registration has at most one send that succeeds: delivered
      sends are never forgotten and no two carry the same registration. */
  lemma {:induction false} EveryRun(w: World, events: seq<Event>)
    requires Inv(w) && Possible(w, events)
    ensures Inv(Run(w, events))
    ensures forall a, b :: a in Run(w, events).done && b in Run(w, events).done && a != b ==>
              Run(w, events).done[a].token != Run(w, events).done[b].token
    ensures forall k :: k in w.done ==> k in Run(w, events).done && Run(w, events).done[k] == w.done[k]
    decreases |events|
  {
    hide Inv, Step, Enabled;
    if events == [] {
      forall a, b | a in w.done && b in w.done && a != b ensures w.done[a].token != w.done[b].token {
        TakenOnce(w, a, b);
      }
    } else {
      StepKeeps(w, events[0]);
      EveryRun(Step(w, events[0]), events[1..]);
    }
  }

  lemma StartOk()
    ensures Inv(START)
  {
  }

  /** After a success, whatever happens, the same key and decision get the same receipt and
      nothing is sent; another decision under that key is refused. */
  lemma AfterSuccess(w: World, events: seq<Event>, key: string, decision: Decision, receiptId: nat, now: int)
    requires Inv(w) && Possible(w, events) && key in w.done
    ensures var w' := Run(w, events);
            var (desk, reply) := Begin(w'.desk, key, decision, receiptId, now);
            && desk == w'.desk
            && reply == if decision == w.done[key].decision then Again(w.done[key].receipt) else Conflict
  {
    EveryRun(w, events);
  }

  /** Once a registration is delivered no other send for it can start or be under way. */
  lemma NoSecondSend(w: World, key: string, other: string, decision: Decision, receiptId: nat, now: int)
    requires Inv(w) && key in w.done && other !in w.flights
    ensures var w' := Step(w, Asked(other, decision, receiptId, now));
            other in w'.flights ==> w'.flights[other].token != w.done[key].token
  {
    StepKeeps(w, Asked(other, decision, receiptId, now));
  }

  /** A failed send puts the id back: a new attempt, under the old key or any unused one, is
      sent again. */
  lemma FailedDecidable(w: World, key: string, retry: string, body: string, receiptId: nat, now: int)
    requires Inv(w) && key in w.flights && (retry == key || retry !in w.desk.receipts)
    ensures var d := w.flights[key].decision;
            Begin(Step(w, Bounced(key)).desk, retry, d.(body := body), receiptId, now).1.Send?
  {
  }

  /** A repeated receipt speaks for a send that is under way or delivered; it can still fail
      in the first case, and only in that case. */
  lemma RepeatedReceipt(w: World, key: string, decision: Decision, receiptId: nat, now: int)
    requires Inv(w) && Begin(w.desk, key, decision, receiptId, now).1.Again?
    ensures (key in w.flights && w.flights[key].decision == decision)
        || (key in w.done && w.done[key].decision == decision)
    ensures Enabled(w, Bounced(key)) <==> key !in w.done
  {
  }

  /** A repeated receipt can be wrong: the request comes in, it is decided, the same decision
      is asked for again and gets the receipt, and then the send fails. The receipt is
      forgotten and the request pending again. */
  lemma ReceiptThenBounce(id: string, key: string, body: string, receiptId: nat, now: int)
    ensures var d, receipt := Decision(Permission, id, body), Receipt(receiptId, key, id, now);
            var before := [Saw(PermissionRequest(id)), Asked(key, d, receiptId, now)];
            && Possible(START, before + [Bounced(key)])
            && Begin(Run(START, before).desk, key, d, receiptId + 1, now).1 == Again(receipt)
            && var w := Run(START, before + [Bounced(key)]);
               key !in w.desk.receipts && w.desk.pending == map[id := Permission]
  {
    var d := Decision(Permission, id, body);
    var saw, asked, bounced := Saw(PermissionRequest(id)), Asked(key, d, receiptId, now), Bounced(key);
    var before := [saw, asked];
    var w1 := Step(START, saw);
    assert w1.desk.pending == map[id := Permission] && w1.tokens == map[id := 0];
    var w2 := Step(w1, asked);
    assert key in w2.flights && w2.flights[key].decision == d;
    var w3 := Step(w2, bounced);
    assert before[1..] == [asked] && [asked][1..] == [];
    assert Possible(w2, []) && Run(w2, []) == w2;
    assert Possible(w1, [asked]) && Run(w1, [asked]) == w2;
    assert Run(START, before) == w2;
    var all := before + [bounced];
    assert all[1..] == [asked, bounced] && all[1..][1..] == [bounced] && [bounced][1..] == [];
    assert Possible(w3, []) && Run(w3, []) == w3;
    assert Possible(w2, [bounced]) && Run(w2, [bounced]) == w3;
    assert Possible(w1, all[1..]) && Run(w1, all[1..]) == w3;
    assert Run(START, all) == w3;
  }
}
