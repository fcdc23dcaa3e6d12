/**
  The hub itself: its fields change in place, one method for each stretch of code between two
  awaits, each proved against its step.
  */
module McpClasses {
  import opened Options
  import opened McpNames
  import opened McpSteps
  import McpLaws
  import McpRuns

  class McpHub {
    const maxAttempts: nat
    var entries: seq<Entry>
    var usedNames: set<string>
    /** The host's tool registry, behind `registerTool` and `unregisterTool`. */
    var registry: map<string, Binding>
    var reconnecting: map<string, nat>
    var refreshing: map<Key, Phase>
    var flights: map<Key, Flight>
    var closed: bool

    function View(): Hub
      reads this
    {
      Hub(entries, usedNames, registry, reconnecting, refreshing, flights, closed)
    }

    constructor (maxAttempts: nat)
      ensures View() == McpRuns.START && this.maxAttempts == maxAttempts
    {
      this.maxAttempts := maxAttempts;
      entries, usedNames, registry, reconnecting := [], {}, map[], map[];
      refreshing, flights, closed := map[], map[], false;
    }

    /** Exposes and registers a server's tools, one by one. */
    method RegisterServerTools(i: nat, specs: seq<string>, client: Client)
      requires i < |entries|
      modifies this`entries, this`usedNames, this`registry
      ensures View() == Register(old(View()), i, specs, client)
    {
      hide McpToolName, HashedName, Expose;
      var server := entries[i].name;
      var names: seq<string> := [];
      ghost var x := Exposure(usedNames, registry, []);
      McpLaws.ExposeNext(x, server, specs, 0, client);
      for k := 0 to |specs|
        invariant entries == old(entries)
        invariant Exposure(usedNames, registry, names) == Expose(x, server, specs[..k], client)
      {
        McpLaws.ExposeNext(x, server, specs, k, client);
        var name := McpToolName(server, specs[k]);
        if name in usedNames {
          name := HashedName(server, specs[k]);
        }
        usedNames := usedNames + {name};
        names := names + [name];
        registry := registry[name := Binding(server, client, specs[k])];
      }
      McpLaws.ExposeNext(x, server, specs, |specs|, client);
      entries := entries[i := entries[i].(toolNames := names)];
    }

    method UnregisterServerTools(i: nat)
      requires i < |entries|
      modifies this`entries, this`usedNames, this`registry
      ensures View() == Unregister(old(View()), i)
    {
      var names := entries[i].toolNames;
      for k := 0 to |names|
        invariant entries == old(entries)
        invariant usedNames == old(usedNames) - Names(names[..k])
        invariant registry == old(registry) - Names(names[..k])
      {
        assert names[..k + 1] == names[..k] + [names[k]];
        McpLaws.NamesPush(names[..k], names[k]);
        usedNames := usedNames - {names[k]};
        registry := registry - {names[k]};
      }
      assert names[..|names|] == names;
      entries := entries[i := entries[i].(toolNames := [])];
    }

    /** `start` once every connect has settled. */
    method StartSettled(results: seq<(string, Option<Dialed>)>)
      modifies this
      ensures View() == Step(old(View()), Started(results), maxAttempts)
    {
      hide Register, Expose;
      if closed {
        return;
      }
      for k := 0 to |results|
        invariant View() == BootAll(old(View()), results[..k])
      {
        assert results[..k + 1][..k] == results[..k];
        var (name, dialed) := results[k];
        if dialed.Some? {
          entries := entries + [Entry(name, Some(dialed.value.client), [])];
          RegisterServerTools(|entries| - 1, dialed.value.specs, dialed.value.client);
        } else {
          entries := entries + [Entry(name, None, [])];
        }
      }
      assert results[..|results|] == results;
    }

    /** The transport closed: pull the tools, forget the client, start redialing. */
    method ScheduleReconnect(name: string)
      modifies this`entries, this`usedNames, this`registry, this`reconnecting
      ensures View() == Step(old(View()), Dropped(name), maxAttempts)
    {
      hide IndexOf, Unregister;
      var i := IndexOf(entries, name);
      if i == |entries| || closed || name in reconnecting {
        return;
      }
      McpLaws.UnregisterRest(View(), i);
      UnregisterServerTools(i);
      entries := entries[i := entries[i].(client := None)];
      if maxAttempts > 0 {
        reconnecting := reconnecting[name := 0];
      }
    }

    /** A redial settles: adopt the client, try again, or give up. */
    method RedialSettled(name: string, dialed: Option<Dialed>)
      modifies this`entries, this`usedNames, this`registry, this`reconnecting
      ensures View() == Step(old(View()), Redialed(name, dialed), maxAttempts)
    {
      hide IndexOf, Expose;
      if name !in reconnecting {
        return;
      }
      var i := IndexOf(entries, name);
      if closed || i == |entries| {
        reconnecting := reconnecting - {name};
        return;
      }
      if dialed.Some? {
        entries := entries[i := entries[i].(client := Some(dialed.value.client))];
        RegisterServerTools(i, dialed.value.specs, dialed.value.client);
        reconnecting := reconnecting - {name};
        return;
      }
      var attempt := reconnecting[name] + 1;
      if attempt < maxAttempts {
        reconnecting := reconnecting[name := attempt];
      } else {
        reconnecting := reconnecting - {name};
      }
    }

    /** A re-list starts: the client is captured before the await. */
    method StartRefresh(key: Key)
      modifies this`flights
      ensures View() == BeginList(old(View()), key)
    {
      var i := IndexOf(entries, key.server);
      if i == |entries| || entries[i].client.None? || closed {
        flights := flights[key := Returned];
        return;
      }
      flights := flights[key := Listing(entries[i].client.value)];
    }

    method Coalesce(key: Key)
      modifies this`refreshing, this`flights
      ensures View() == Step(old(View()), ListChanged(key), maxAttempts)
    {
      hide BeginList;
      if key in refreshing {
        refreshing := refreshing[key := Queued];
        return;
      }
      refreshing := refreshing[key := Running];
      StartRefresh(key);
    }

    /** The awaited list settles; `None` is a failure or a timeout. */
    method RefreshSettled(key: Key, specs: Option<seq<string>>)
      modifies this`entries, this`usedNames, this`registry, this`flights
      ensures View() == Step(old(View()), ListArrived(key, specs), maxAttempts)
    {
      hide IndexOf, Register, Unregister;
      if key !in flights || flights[key].Returned? {
        return;
      }
      var client := flights[key].client;
      flights := flights[key := Returned];
      if specs.None? || key.kind != Tools {
        return;
      }
      var i := IndexOf(entries, key.server);
      if closed || i == |entries| || entries[i].client != Some(client) {
        return;
      }
      McpLaws.UnregisterRest(View(), i);
      UnregisterServerTools(i);
      RegisterServerTools(i, specs.value, client);
    }

    /** The end of one turn of the coalescing loop. */
    method RefreshReturned(key: Key)
      modifies this`refreshing, this`flights
      ensures View() == Step(old(View()), LoopTurns(key), maxAttempts)
    {
      hide BeginList;
      if key !in flights || flights[key].Listing? || key !in refreshing {
        return;
      }
      if refreshing[key] == Queued {
        refreshing := refreshing[key := Running];
        StartRefresh(key);
      } else {
        refreshing := refreshing - {key};
        flights := flights - {key};
      }
    }

    /** `close` up to its await. */
    method CloseHub()
      modifies this
      ensures View() == Step(old(View()), CloseBegins, maxAttempts)
    {
      hide Unregister;
      closed := true;
      ghost var h := View();
      for k := 0 to |entries|
        invariant View() == UnregisterAll(h, k) && |entries| == |h.entries|
      {
        UnregisterServerTools(k);
      }
      usedNames := {};
    }

    method CloseSettled()
      modifies this`entries
      ensures View() == Step(old(View()), CloseEnds, maxAttempts)
    {
      if closed {
        entries := [];
      }
    }
  }
}
