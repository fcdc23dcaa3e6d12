/** Whole runs of the hub: what every interleaving keeps, and which re-lists begin in it. */
module McpRuns {
  import opened Options
  import opened McpNames
  import opened McpSteps
  import opened McpLaws

  // ---------------------------------------------------------------- runs

  const START := Hub([], {}, map[], map[], map[], map[], false)

  predicate Possible(h: Hub, events: seq<Event>, maxAttempts: nat)
    decreases |events|
  {
    events == [] || (Enabled(h, events[0])
        && Possible(Step(h, events[0], maxAttempts), events[1..], maxAttempts))
  }

  function Run(h: Hub, events: seq<Event>, maxAttempts: nat): Hub
    decreases |events|
  {
    if events == [] then h else Run(Step(h, events[0], maxAttempts), events[1..], maxAttempts)
  }

  /** Whatever interleaves: a registered tool belongs to a server that has a client, is bound
      to that client, and has a name derived from what it calls that every provider accepts;
      from the moment close begins there is none, ever again. */
  lemma {:induction false} EveryRun(h: Hub, events: seq<Event>, maxAttempts: nat)
    requires Inv(h) && Possible(h, events, maxAttempts)
    ensures var h' := Run(h, events, maxAttempts);
            && Inv(h')
            && (forall n :: n in h'.tools ==>
                  var e := Lookup(h'.entries, h'.tools[n].server);
                  && e.Some? && e.value.client == Some(h'.tools[n].client) && n in e.value.toolNames
                  && NameOf(n, h'.tools[n].server, h'.tools[n].tool) && ProviderName(n))
            && (h.closed ==> h'.tools == map[])
    decreases |events|
  {
    hide Step, Enabled, DistinctNames, AllDown, Lookup, NameOf, ProviderName;
    if events == [] {
      forall n | n in h.tools ensures Bound(h, n) && ProviderName(n) {
        assert AllBound(h);
        NamesAccepted(h.tools[n].server, h.tools[n].tool, n);
      }
    } else {
      StepKeeps(h, events[0], maxAttempts);
      EveryRun(Step(h, events[0], maxAttempts), events[1..], maxAttempts);
    }
  }

  lemma StartOk()
    ensures Inv(START)
  {
  }

  // ---------------------------------------------------------------- redialing

  function FailedDials(name: string, n: nat): (events: seq<Event>)
    ensures |events| == n
  {
    seq(n, _ => Redialed(name, None))
  }

  /** A server that dropped is dialed again as long as dials fail, maxAttempts times and no
      more; until then its tools stay unregistered, and giving up changes nothing else. */
  lemma {:induction false} DialsExactly(h: Hub, name: string, n: nat, maxAttempts: nat)
    requires !h.closed && name in h.attempts && IndexOf(h.entries, name) < |h.entries|
    requires h.attempts[name] < maxAttempts
    ensures var h' := Run(h, FailedDials(name, n), maxAttempts);
            && (name in h'.attempts <==> h.attempts[name] + n < maxAttempts)
            && (name in h'.attempts ==> h'.attempts[name] == h.attempts[name] + n)
            && h' == h.(attempts := h'.attempts)
    decreases n
  {
    if n > 0 {
      var h1 := Step(h, Redialed(name, None), maxAttempts);
      assert FailedDials(name, n)[1..] == FailedDials(name, n - 1);
      assert FailedDials(name, n)[0] == Redialed(name, None);
      if name in h1.attempts {
        DialsExactly(h1, name, n - 1, maxAttempts);
      } else {
        GivenUp(h1, name, n - 1, maxAttempts);
      }
    }
  }

  lemma {:induction false} GivenUp(h: Hub, name: string, n: nat, maxAttempts: nat)
    requires name !in h.attempts
    ensures Run(h, FailedDials(name, n), maxAttempts) == h
    decreases n
  {
    if n > 0 {
      assert FailedDials(name, n)[1..] == FailedDials(name, n - 1);
      GivenUp(h, name, n - 1, maxAttempts);
    }
  }

  /** A drop starts that count at zero, for a server not being redialed yet. */
  lemma DropDials(h: Hub, name: string, maxAttempts: nat)
    requires Inv(h) && !h.closed && name !in h.attempts && IndexOf(h.entries, name) < |h.entries|
    ensures var h' := Step(h, Dropped(name), maxAttempts);
            && (maxAttempts > 0 <==> name in h'.attempts) && (maxAttempts > 0 ==> h'.attempts[name] == 0)
            && Lookup(h'.entries, name) == Some(Entry(name, None, []))
            && (forall n :: n in h'.tools ==> h'.tools[n].server != name)
  {
    hide Inv, Unregister, AllBound, AllDown, Lookup, DistinctNames;
    InvEntries(h);
    var i := IndexOf(h.entries, name);
    UnregisterKeeps(h, i);
    UnregisterRest(h, i);
    Updated(Unregister(h, i).entries, i, Entry(name, None, []));
  }

  lemma InvEntries(h: Hub)
    requires Inv(h)
    ensures DistinctNames(h.entries) && AllBound(h)
  {
  }

  // ---------------------------------------------------------------- start, close

  /** A server whose connect failed stays known, without a client and without tools; the others
      get their client, all in the order of the configuration. */
  lemma {:induction false} StartKnows(h: Hub, results: seq<(string, Option<Dialed>)>)
    ensures var h' := BootAll(h, results);
            && |h'.entries| == |h.entries| + |results| && h'.entries[..|h.entries|] == h.entries
            && (forall k :: 0 <= k < |results| ==>
                  var e, dialed := h'.entries[|h.entries| + k], results[k].1;
                  && e.name == results[k].0
                  && e.client == (if dialed.None? then None else Some(dialed.value.client))
                  && (dialed.None? ==> e.toolNames == []))
    decreases |results|
  {
    hide Boot;
    if results != [] {
      var n := |results| - 1;
      StartKnows(h, results[..n]);
      BootKnows(BootAll(h, results[..n]), results[n].0, results[n].1);
    }
  }

  lemma BootKnows(h: Hub, name: string, dialed: Option<Dialed>)
    ensures var h' := Boot(h, name, dialed);
            && |h'.entries| == |h.entries| + 1 && h'.entries[..|h.entries|] == h.entries
            && var e := h'.entries[|h.entries|];
               && e.name == name && e.client == (if dialed.None? then None else Some(dialed.value.client))
               && (dialed.None? ==> e.toolNames == [])
  {
    hide Expose;
  }

  /** Closing leaves nothing behind, and a dial that succeeds after close registers nothing. */
  lemma CloseForgets(h: Hub, name: string, dialed: Option<Dialed>, maxAttempts: nat)
    requires Inv(h)
    ensures var h1 := Step(h, CloseBegins, maxAttempts);
            && h1.closed && h1.tools == map[] && h1.used == {}
            && Step(h1, CloseEnds, maxAttempts) == h1.(entries := [])
            && Step(h1, Redialed(name, dialed), maxAttempts) == h1.(attempts := h1.attempts - {name})
            && Step(h1, Started([(name, dialed)]), maxAttempts) == h1
  {
    hide Register, UnregisterAll, IndexOf;
    CloseKeeps(h);
    var h1 := Close(h);
    if name !in h1.attempts { assert h1.attempts - {name} == h1.attempts; }
  }

  // ---------------------------------------------------------------- no trigger is lost

  /** What a step shows of re-listing: a trigger arrives, a re-list begins. */
  datatype Mark = Triggered(key: Key) | Began(key: Key)

  predicate IsQueued(h: Hub, key: Key) {
    key in h.refreshing && h.refreshing[key] == Queued
  }

  function Marks(h: Hub, e: Event): seq<Mark> {
    match e
    case ListChanged(key) => if key in h.refreshing then [Triggered(key)] else [Triggered(key), Began(key)]
    case LoopTurns(key) =>
      if key in h.flights && h.flights[key].Returned? && IsQueued(h, key) then [Began(key)] else []
    case _ => []
  }

  /** A re-list begins only when none is in flight for its key, on the client of that moment. */
  lemma BeganMeans(h: Hub, e: Event, key: Key, maxAttempts: nat)
    requires Inv(h) && Began(key) in Marks(h, e)
    ensures key !in h.flights || h.flights[key] == Returned
    ensures var h' := Step(h, e, maxAttempts);
            && key in h'.flights
            && var entry := Lookup(h.entries, key.server);
               h'.flights[key] == if h.closed || entry.None? || entry.value.client.None? then Returned
                                  else Listing(entry.value.client.value)
  {
  }

  function Trace(h: Hub, events: seq<Event>, maxAttempts: nat): seq<Mark>
    decreases |events|
  {
    if events == [] then [] else
    Marks(h, events[0]) + Trace(Step(h, events[0], maxAttempts), events[1..], maxAttempts)
  }

  /** A trigger for which no re-list has begun since. */
  predicate Pending(trace: seq<Mark>, key: Key)
    decreases |trace|
  {
    trace != [] && (trace[|trace| - 1] == Triggered(key)
                    || (trace[|trace| - 1] != Began(key) && Pending(trace[..|trace| - 1], key)))
  }

  lemma {:induction false} Served(trace: seq<Mark>, key: Key, i: nat)
    requires i < |trace| && trace[i] == Triggered(key) && !Pending(trace, key)
    ensures exists j :: i < j < |trace| && trace[j] == Began(key)
    decreases |trace|
  {
    var n := |trace| - 1;
    if trace[n] != Began(key) {
      Served(trace[..n], key, i);
      var j :| i < j < n && trace[..n][j] == Began(key);
      assert trace[j] == Began(key);
    }
  }

  lemma StepQueues(h: Hub, e: Event, key: Key, maxAttempts: nat)
    requires Inv(h)
    ensures var h' := Step(h, e, maxAttempts);
            IsQueued(h', key) <==> if Triggered(key) in Marks(h, e) then key in h.refreshing
                                   else IsQueued(h, key) && Began(key) !in Marks(h, e)
  {
    hide Lookup, AllBound, AllDown, DistinctNames, Unregister, Register, BootAll, UnregisterAll, IndexOf;
    match e
    case Started(results) => if !h.closed { BootAllRest(h, results); }
    case Dropped(server) =>
      var i := IndexOf(h.entries, server);
      if i < |h.entries| { UnregisterRest(h, i); }
    case Redialed(server, dialed) => RedialRest(h, server, dialed, maxAttempts);
    case ListArrived(k, specs) => ListedRest(h, k, specs);
    case ListChanged(_) =>
    case LoopTurns(_) =>
    case CloseBegins => UnregisterAllRest(h.(closed := true), |h.entries|);
    case CloseEnds =>
  }

  lemma {:induction false} BootAllRest(h: Hub, results: seq<(string, Option<Dialed>)>)
    ensures BootAll(h, results).refreshing == h.refreshing
    decreases |results|
  {
    hide Register;
    if results != [] {
      var n := |results| - 1;
      BootAllRest(h, results[..n]);
      var (name, dialed) := results[n];
      var h0 := BootAll(h, results[..n]);
      if dialed.Some? {
        RegisterRest(h0.(entries := h0.entries + [Entry(name, Some(dialed.value.client), [])]), |h0.entries|,
                     dialed.value.specs, dialed.value.client);
      }
    }
  }

  lemma RedialRest(h: Hub, name: string, dialed: Option<Dialed>, maxAttempts: nat)
    ensures Redial(h, name, dialed, maxAttempts).refreshing == h.refreshing
  {
    hide Expose;
  }

  lemma ListedRest(h: Hub, key: Key, specs: Option<seq<string>>)
    ensures Listed(h, key, specs).refreshing == h.refreshing
  {
    hide Expose;
  }

  lemma {:induction false} UnregisterAllRest(h: Hub, n: nat)
    requires n <= |h.entries|
    ensures UnregisterAll(h, n).refreshing == h.refreshing
    decreases n
  {
    if n > 0 {
      UnregisterAllRest(h, n - 1);
    }
  }

  /** In every run a key is queued exactly when a trigger is still unanswered. */
  lemma {:induction false} QueuedIffPending(
    h: Hub, past: seq<Mark>, events: seq<Event>, key: Key, maxAttempts: nat)
    requires Inv(h) && Possible(h, events, maxAttempts) && (Pending(past, key) <==> IsQueued(h, key))
    ensures Pending(past + Trace(h, events, maxAttempts), key) <==>
            IsQueued(Run(h, events, maxAttempts), key)
    decreases |events|
  {
    hide Inv, Step, Enabled;
    if events == [] {
      assert past + [] == past;
    } else {
      var e, h' := events[0], Step(h, events[0], maxAttempts);
      StepKeeps(h, e, maxAttempts);
      StepQueues(h, e, key, maxAttempts);
      PendingGrows(h, past, e, key);
      QueuedIffPending(h', past + Marks(h, e), events[1..], key, maxAttempts);
      var rest := Trace(h', events[1..], maxAttempts);
      assert past + (Marks(h, e) + rest) == past + Marks(h, e) + rest;
    }
  }

  lemma PendingGrows(h: Hub, past: seq<Mark>, e: Event, key: Key)
    ensures Pending(past + Marks(h, e), key) <==>
            if Triggered(key) in Marks(h, e) then key in h.refreshing
            else Pending(past, key) && Began(key) !in Marks(h, e)
  {
    var marks := Marks(h, e);
    if |marks| == 0 {
      assert past + marks == past;
    } else if |marks| == 1 {
      assert (past + marks)[..|past|] == past;
    } else {
      assert (past + marks)[..|past| + 1] == past + [marks[0]];
      assert (past + [marks[0]])[..|past|] == past;
    }
  }

  /** Every trigger is followed by a re-list that begins after it, unless the key is still
      queued. */
  lemma EveryTriggerServed(events: seq<Event>, key: Key, i: nat, maxAttempts: nat)
    requires Possible(START, events, maxAttempts)
    requires i < |Trace(START, events, maxAttempts)|
    requires Trace(START, events, maxAttempts)[i] == Triggered(key)
    requires !IsQueued(Run(START, events, maxAttempts), key)
    ensures var trace := Trace(START, events, maxAttempts);
            exists j :: i < j < |trace| && trace[j] == Began(key)
  {
    hide Trace, Run, Possible;
    StartOk();
    QueuedIffPending(START, [], events, key, maxAttempts);
    var trace := Trace(START, events, maxAttempts);
    assert [] + trace == trace;
    Served(trace, key, i);
  }

  /** A queued key is served as soon as the re-list in flight returns and its loop turns;
      until then no step takes the key out of the queue. */
  lemma QueuedIsServed(h: Hub, key: Key, specs: Option<seq<string>>, e: Event, maxAttempts: nat)
    requires Inv(h) && IsQueued(h, key)
    ensures IsQueued(Step(h, e, maxAttempts), key) || Marks(h, e) == [Began(key)]
    ensures var h1 := Step(h, ListArrived(key, specs), maxAttempts);
            IsQueued(h1, key) && Marks(h1, LoopTurns(key)) == [Began(key)]
  {
    hide Step, AllBound, AllDown, DistinctNames;
    StepQueues(h, e, key, maxAttempts);
    StepQueues(h, ListArrived(key, specs), key, maxAttempts);
    ListReturns(h, key, specs, maxAttempts);
  }

  /** When nothing is queued, the re-list that returns frees its key, and the next trigger
      begins another at once. */
  lemma QuietEnds(h: Hub, key: Key, maxAttempts: nat)
    requires Inv(h) && key in h.flights && h.flights[key] == Returned && !IsQueued(h, key)
    ensures var h1 := Step(h, LoopTurns(key), maxAttempts);
            && h1 == h.(refreshing := h.refreshing - {key}, flights := h.flights - {key})
            && Marks(h1, ListChanged(key)) == [Triggered(key), Began(key)]
  {
  }

  lemma ListReturns(h: Hub, key: Key, specs: Option<seq<string>>, maxAttempts: nat)
    requires key in h.flights
    ensures var h1 := Step(h, ListArrived(key, specs), maxAttempts);
            key in h1.flights && h1.flights[key].Returned?
  {
    hide Expose;
  }
}
