/**
  Which requests are pending. The session's events alone say which registrations are open:
  registered and not settled or replaced since. The desk has those of them that no send has
  taken, as long as no send fails for a registration that was closed while it was under way.
  */
module Settlements {
  import opened Decisions

  /** One registration of an id. */
  datatype Registration = Registration(token: nat, kind: Kind)

  type Open = map<string, Registration>

  function Kinds(open: Open): map<string, Kind> {
    map id | id in open :: open[id].kind
  }

  /** What an event opens and closes, whatever was decided. */
  function Follow(open: Open, e: UIEvent, token: nat): Open {
    var left := open - Cleared(Kinds(open), e);
    var r := Registered(e);
    if r.Some? then left[r.value.0 := Registration(token, r.value.1)] else left
  }

  function Opened(w: World, open: Open, e: Event): Open {
    if e.Saw? then Follow(open, e.e, w.next) else open
  }

  predicate AtTheDesk(w: World, token: nat) {
    token in w.place && w.place[token].AtDesk?
  }

  /** The pending ids are the open ones that no send has taken, with their kinds. */
  ghost predicate Right(w: World, open: Open) {
    forall id :: RightAt(w, open, id)
  }

  predicate RightAt(w: World, open: Open, id: string) {
    && (id in w.tokens <==> id in open && AtTheDesk(w, open[id].token))
    && (id in w.desk.pending <==> id in w.tokens)
    && (id in w.tokens ==> open[id] == Registration(w.tokens[id], w.desk.pending[id]))
  }

  /** Open registrations are different ones, and sends are of the kind registered. */
  ghost predicate Fits(w: World, open: Open) {
    Numbered(open, w.next) && SendsFit(w.flights, open)
  }

  ghost predicate Numbered(open: Open, next: nat) {
    && (forall id :: id in open ==> open[id].token < next)
    && (forall a, b :: a in open && b in open && a != b ==> open[a].token != open[b].token)
  }

  ghost predicate SendsFit(flights: map<string, Flight>, open: Open) {
    forall k :: k in flights && StillOpen(open, flights[k]) ==>
      open[flights[k].decision.id].kind == flights[k].decision.kind
  }

  predicate StillOpen(open: Open, f: Flight) {
    f.decision.id in open && open[f.decision.id].token == f.token
  }

  /** A send does not fail after its request was settled or replaced. */
  predicate Timely(w: World, open: Open, e: Event)
    requires Enabled(w, e)
  {
    e.Bounced? ==> StillOpen(open, w.flights[e.failed])
  }

  // ---------------------------------------------------------------- steps

  lemma SawRight(w: World, open: Open, ui: UIEvent)
    requires Inv(w) && Fits(w, open) && Right(w, open)
    ensures Right(Step(w, Saw(ui)), Follow(open, ui, w.next))
  {
    hide Inv, Fits, Step, Follow, RightAt;
    forall id ensures RightAt(Step(w, Saw(ui)), Follow(open, ui, w.next), id) {
      assert RightAt(w, open, id);
      SameCleared(w, open, ui, id);
      SawRightAt(w, open, ui, id);
    }
  }

  lemma SawRightAt(w: World, open: Open, ui: UIEvent, id: string)
    requires Inv(w) && Fits(w, open) && RightAt(w, open, id)
    requires id in w.tokens ==> (id in Cleared(w.desk.pending, ui) <==> id in Cleared(Kinds(open), ui))
    ensures RightAt(Step(w, Saw(ui)), Follow(open, ui, w.next), id)
  {
    hide Cleared, Registered, Booked, OnePlace, SendsFit, Kinds;
  }

  lemma SameCleared(w: World, open: Open, ui: UIEvent, id: string)
    requires RightAt(w, open, id)
    ensures id in w.tokens ==> (id in Cleared(w.desk.pending, ui) <==> id in Cleared(Kinds(open), ui))
  {
  }

  lemma SawFits(w: World, open: Open, ui: UIEvent)
    requires Inv(w) && Fits(w, open)
    ensures Fits(Step(w, Saw(ui)), Follow(open, ui, w.next))
  {
    hide Cleared, Registered, Observe, Booked, Numbered;
    NumberedMore(open, ui, w.next);
    var open' := Follow(open, ui, w.next);
    forall k | k in w.flights && StillOpen(open', w.flights[k])
      ensures open'[w.flights[k].decision.id].kind == w.flights[k].decision.kind
    {
      assert w.flights[k].token in w.place;
      assert open'[w.flights[k].decision.id].token < w.next;
    }
  }

  lemma NumberedMore(open: Open, ui: UIEvent, next: nat)
    requires Numbered(open, next)
    ensures Numbered(Follow(open, ui, next), next + 1)
  {
    hide Cleared, Registered;
  }

  lemma AskedRight(w: World, open: Open, e: Event)
    requires Inv(w) && Fits(w, open) && Right(w, open) && e.Asked?
    ensures Right(Step(w, e), open) && Fits(Step(w, e), open)
  {
    hide Inv, Fits, Step, RightAt;
    assert RightAt(w, open, e.decision.id);
    forall id ensures RightAt(Step(w, e), open, id) {
      assert RightAt(w, open, id);
      AskedRightAt(w, open, e, id);
    }
    AskedFits(w, open, e);
  }

  lemma AskedRightAt(w: World, open: Open, e: Event, id: string)
    requires Inv(w) && Fits(w, open) && e.Asked? && RightAt(w, open, id) && RightAt(w, open, e.decision.id)
    ensures RightAt(Step(w, e), open, id)
  {
    hide Booked, OnePlace, SendsFit;
  }

  lemma AskedFits(w: World, open: Open, e: Event)
    requires Inv(w) && Fits(w, open) && e.Asked? && RightAt(w, open, e.decision.id)
    ensures Fits(Step(w, e), open)
  {
    hide Booked, OnePlace, Numbered;
  }

  lemma DeliveredRight(w: World, open: Open, key: string)
    requires Inv(w) && Fits(w, open) && Right(w, open) && key in w.flights
    ensures Right(Step(w, Delivered(key)), open) && Fits(Step(w, Delivered(key)), open)
  {
    hide Inv, RightAt, Numbered;
    forall id ensures RightAt(Step(w, Delivered(key)), open, id) {
      assert RightAt(w, open, id);
      DeliveredRightAt(w, open, key, id);
    }
  }

  lemma DeliveredRightAt(w: World, open: Open, key: string, id: string)
    requires Inv(w) && RightAt(w, open, id) && key in w.flights
    ensures RightAt(Step(w, Delivered(key)), open, id)
  {
    hide Booked;
  }

  lemma BouncedRightIff(w: World, open: Open, key: string)
    requires Inv(w) && Fits(w, open) && Right(w, open) && key in w.flights
    ensures Right(Step(w, Bounced(key)), open) <==> StillOpen(open, w.flights[key])
    ensures Fits(Step(w, Bounced(key)), open)
  {
    hide Inv, Step, RightAt, Numbered, StillOpen;
    var w' := Step(w, Bounced(key));
    if StillOpen(open, w.flights[key]) {
      forall id ensures RightAt(w', open, id) {
        assert RightAt(w, open, id);
        BouncedRightAt(w, open, key, id);
      }
    } else {
      BouncedLate(w, open, key);
    }
    SendsFitLess(w, open, key);
  }

  lemma BouncedRightAt(w: World, open: Open, key: string, id: string)
    requires Fits(w, open) && RightAt(w, open, id) && key in w.flights && StillOpen(open, w.flights[key])
    ensures RightAt(Step(w, Bounced(key)), open, id)
  {
  }

  lemma BouncedLate(w: World, open: Open, key: string)
    requires key in w.flights && !StillOpen(open, w.flights[key])
    ensures !RightAt(Step(w, Bounced(key)), open, w.flights[key].decision.id)
  {
  }

  lemma SendsFitLess(w: World, open: Open, key: string)
    requires Fits(w, open) && key in w.flights
    ensures Fits(Step(w, Bounced(key)), open)
  {
    hide Numbered;
  }

  /** From right a step leads to right, except exactly when it puts back a request that was
      settled or replaced while its send was under way. */
  lemma StepRightIff(w: World, open: Open, e: Event)
    requires Inv(w) && Enabled(w, e) && Fits(w, open) && Right(w, open)
    ensures Right(Step(w, e), Opened(w, open, e)) <==> Timely(w, open, e)
    ensures Fits(Step(w, e), Opened(w, open, e))
  {
    hide Inv, Right, Fits, Step, StillOpen;
    match e
    case Saw(ui) => SawRight(w, open, ui); SawFits(w, open, ui);
    case Asked(_, _, _, _) => AskedRight(w, open, e);
    case Delivered(key) => DeliveredRight(w, open, key);
    case Bounced(key) => BouncedRightIff(w, open, key);
  }

  // ---------------------------------------------------------------- runs

  predicate TimelyRun(w: World, open: Open, events: seq<Event>)
    requires Possible(w, events)
    decreases |events|
  {
    events == [] ||
    (Timely(w, open, events[0]) && TimelyRun(Step(w, events[0]), Opened(w, open, events[0]), events[1..]))
  }

  ghost predicate RightThroughout(w: World, open: Open, events: seq<Event>)
    requires Possible(w, events)
    decreases |events|
  {
    Right(w, open) &&
    (events == [] || RightThroughout(Step(w, events[0]), Opened(w, open, events[0]), events[1..]))
  }

  /** In every interleaving: the pending ids are at every moment those registered and not
      settled since that no send has taken, if and only if no send fails late. */
  lemma {:induction false} EveryRunRightIff(w: World, open: Open, events: seq<Event>)
    requires Inv(w) && Fits(w, open) && Right(w, open) && Possible(w, events)
    ensures RightThroughout(w, open, events) <==> TimelyRun(w, open, events)
    decreases |events|
  {
    hide Inv, Right, Fits, Step, Enabled, Opened, Timely;
    if events != [] {
      var e := events[0];
      StepKeeps(w, e);
      StepRightIff(w, open, e);
      if Right(Step(w, e), Opened(w, open, e)) {
        EveryRunRightIff(Step(w, e), Opened(w, open, e), events[1..]);
      }
    }
  }

  lemma StartRight()
    ensures Right(START, map[]) && Fits(START, map[])
  {
  }

  /** The request comes in and is decided, its settlement arrives while the send is under way,
      and the send fails: the settled request is pending again and can be decided again. */
  lemma SettledComesBack(id: string, key: string, body: string, receiptId: nat, now: int)
    ensures var d := Decision(Permission, id, body);
            var events := [Saw(PermissionRequest(id)), Asked(key, d, receiptId, now), Saw(PermissionSettled([id])),
                           Bounced(key)];
            && Possible(START, events) && !TimelyRun(START, map[], events)
            && var w := Run(START, events);
               w.desk.pending == map[id := Permission] && Begin(w.desk, key, d, receiptId + 1, now).1.Send?
  {
    var d := Decision(Permission, id, body);
    var saw, asked, settled, bounced :=
      Saw(PermissionRequest(id)), Asked(key, d, receiptId, now), Saw(PermissionSettled([id])), Bounced(key);
    RequestSent(id, key, d, receiptId, now);
    var w2 := Step(Step(START, saw), asked);
    SettledThenFails(w2, Opened(START, map[], saw), id, key, d);
    hide Run, Possible, TimelyRun, Step, Timely;
    FourEvents(START, map[], saw, asked, settled, bounced);
  }

  lemma FourEvents(w: World, open: Open, a: Event, b: Event, c: Event, d: Event)
    requires Enabled(w, a) && Enabled(Step(w, a), b) && Enabled(Step(Step(w, a), b), c)
    requires Enabled(Step(Step(Step(w, a), b), c), d)
    ensures var w1 := Step(w, a);
            var w2 := Step(w1, b);
            var w3 := Step(w2, c);
            var o1 := Opened(w, open, a);
            var o2 := Opened(w1, o1, b);
            && Possible(w, [a, b, c, d]) && Run(w, [a, b, c, d]) == Step(w3, d)
            && (TimelyRun(w, open, [a, b, c, d]) ==> Timely(w3, Opened(w2, o2, c), d))
  {
    hide Step, Opened, Timely, Enabled;
    var w1 := Step(w, a);
    var w2 := Step(w1, b);
    var w3 := Step(w2, c);
    var o1 := Opened(w, open, a);
    var o2 := Opened(w1, o1, b);
    OneMore(w3, Opened(w2, o2, c), d, []);
    OneMore(w2, o2, c, [d]);
    OneMore(w1, o1, b, [c, d]);
    OneMore(w, open, a, [b, c, d]);
    assert [a] + [b, c, d] == [a, b, c, d] && [b] + [c, d] == [b, c, d];
    assert [c] + [d] == [c, d] && [d] + [] == [d];
  }

  lemma RequestSent(id: string, key: string, d: Decision, receiptId: nat, now: int)
    requires d.id == id && d.kind == Permission
    ensures var w1 := Step(START, Saw(PermissionRequest(id)));
            var w2 := Step(w1, Asked(key, d, receiptId, now));
            && w2.desk.pending == map[] && key in w2.flights && w2.flights[key].decision == d
            && w2.desk.receipts.Keys == {key}
            && Opened(START, map[], Saw(PermissionRequest(id))) == map[id := Registration(0, Permission)]
  {
    var w1 := Step(START, Saw(PermissionRequest(id)));
    assert w1.desk.pending == map[id := Permission] && w1.tokens == map[id := 0];
  }

  lemma SettledThenFails(w: World, open: Open, id: string, key: string, d: Decision)
    requires w.desk.pending == map[] && key in w.flights && w.flights[key].decision == d
    requires d.id == id && d.kind == Permission && w.desk.receipts.Keys == {key}
    ensures var w1 := Step(w, Saw(PermissionSettled([id])));
            && key in w1.flights && w1.flights[key].decision == d
            && !Timely(w1, Opened(w, open, Saw(PermissionSettled([id]))), Bounced(key))
            && var w2 := Step(w1, Bounced(key));
               w2.desk.pending == map[id := Permission] && key !in w2.desk.receipts
  {
    assert [id][0] == id;
    var w1 := Step(w, Saw(PermissionSettled([id])));
    assert w1.desk.pending == map[];
    assert id !in Opened(w, open, Saw(PermissionSettled([id])));
  }

  lemma OneMore(w: World, open: Open, e: Event, rest: seq<Event>)
    requires Enabled(w, e) && Possible(Step(w, e), rest)
    ensures Possible(w, [e] + rest) && Run(w, [e] + rest) == Run(Step(w, e), rest)
    ensures TimelyRun(w, open, [e] + rest)
       <==> Timely(w, open, e) && TimelyRun(Step(w, e), Opened(w, open, e), rest)
  {
    hide Step, Opened, Timely, Enabled;
    assert ([e] + rest)[1..] == rest;
  }
}
