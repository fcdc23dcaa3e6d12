/**
  The life of MCP connections. Every stretch between two awaits is one atomic step; what an
  awaiting call remembers (the client it lists, the reconnect attempt it is at) is kept with
  the hub so that steps can interleave in any order.
  */
module McpSteps {
  import opened Searching
  import opened Options
  import opened McpNames

  type Client = nat

  datatype Entry = Entry(name: string, client: Option<Client>, toolNames: seq<string>)

  /** What a registered tool calls: a tool of a server, by its own name, over a connection. */
  datatype Binding = Binding(server: string, client: Client, tool: string)

  datatype Kind = Tools | Resources | Prompts

  datatype Key = Key(server: string, kind: Kind)

  datatype Phase = Running | Queued

  /** A re-list under way: waiting for the client it captured, or already returned. */
  datatype Flight = Listing(client: Client) | Returned

  /** `tools` is the host's registry, `used` the hub's own set of exposed names; `attempts`
      holds the names being reconnected, with the attempts made. */
  datatype Hub = Hub(
    entries: seq<Entry>, used: set<string>, tools: map<string, Binding>, attempts: map<string, nat>,
    refreshing: map<Key, Phase>, flights: map<Key, Flight>, closed: bool)

  /** A connect that succeeded: the client and the tools it lists. */
  datatype Dialed = Dialed(client: Client, specs: seq<string>)

  function IndexOf(entries: seq<Entry>, name: string): (i: nat)
    ensures i <= |entries| && (i < |entries| ==> entries[i].name == name)
    ensures forall k :: 0 <= k < i ==> entries[k].name != name
  {
    FirstIndex(entries, (e: Entry) => e.name == name)
  }

  function Lookup(entries: seq<Entry>, name: string): Option<Entry> {
    var i := IndexOf(entries, name);
    if i < |entries| then Some(entries[i]) else None
  }

  // ---------------------------------------------------------------- registration

  datatype Exposure = Exposure(used: set<string>, tools: map<string, Binding>, names: seq<string>)

  /** The name for one more tool. */
  function FreeName(used: set<string>, server: string, spec: string): string {
    var plain := McpToolName(server, spec);
    if plain in used then HashedName(server, spec) else plain
  }

  function ExposeOne(x: Exposure, server: string, spec: string, client: Client): Exposure {
    var name := FreeName(x.used, server, spec);
    Exposure(x.used + {name}, x.tools[name := Binding(server, client, spec)], x.names + [name])
  }

  function Expose(x: Exposure, server: string, specs: seq<string>, client: Client): Exposure
    decreases |specs|
  {
    if specs == [] then x else
    ExposeOne(Expose(x, server, specs[..|specs| - 1], client), server, specs[|specs| - 1], client)
  }

  function Register(h: Hub, i: nat, specs: seq<string>, client: Client): Hub
    requires i < |h.entries|
  {
    var x := Expose(Exposure(h.used, h.tools, []), h.entries[i].name, specs, client);
    h.(used := x.used, tools := x.tools, entries := h.entries[i := h.entries[i].(toolNames := x.names)])
  }

  function Names(names: seq<string>): set<string> {
    set n | n in names
  }

  function Unregister(h: Hub, i: nat): Hub
    requires i < |h.entries|
  {
    var names := Names(h.entries[i].toolNames);
    h.(used := h.used - names, tools := h.tools - names, entries := h.entries[i := h.entries[i].(toolNames := [])])
  }

  // ---------------------------------------------------------------- start, close

  /** One settled connect of `start`. */
  function Boot(h: Hub, name: string, dialed: Option<Dialed>): Hub {
    if dialed.None? then h.(entries := h.entries + [Entry(name, None, [])]) else
    var h1 := h.(entries := h.entries + [Entry(name, Some(dialed.value.client), [])]);
    Register(h1, |h.entries|, dialed.value.specs, dialed.value.client)
  }

  function BootAll(h: Hub, results: seq<(string, Option<Dialed>)>): Hub
    decreases |results|
  {
    if results == [] then h else
    var last := results[|results| - 1];
    Boot(BootAll(h, results[..|results| - 1]), last.0, last.1)
  }

  function UnregisterAll(h: Hub, n: nat): (r: Hub)
    requires n <= |h.entries|
    ensures |r.entries| == |h.entries|
  {
    if n == 0 then h else Unregister(UnregisterAll(h, n - 1), n - 1)
  }

  /** `close` up to its await. */
  function Close(h: Hub): Hub {
    UnregisterAll(h.(closed := true), |h.entries|).(used := {})
  }

  // ---------------------------------------------------------------- drop, reconnect

  /** `#scheduleReconnect` up to its first await; with no attempts allowed it gives up at once. */
  function Drop(h: Hub, name: string, maxAttempts: nat): Hub {
    var i := IndexOf(h.entries, name);
    if i == |h.entries| || h.closed || name in h.attempts then h else
    var h1 := Unregister(h, i);
    var h2 := h1.(entries := h1.entries[i := h1.entries[i].(client := None)]);
    if maxAttempts == 0 then h2 else h2.(attempts := h.attempts[name := 0])
  }

  /** A reconnect attempt settles; `None` is a failed dial. */
  function Redial(h: Hub, name: string, dialed: Option<Dialed>, maxAttempts: nat): Hub {
    if name !in h.attempts then h else
    var done := h.(attempts := h.attempts - {name});
    var i := IndexOf(h.entries, name);
    if h.closed || i == |h.entries| then done
    else if dialed.Some? then
      var h1 := done.(entries := h.entries[i := h.entries[i].(client := Some(dialed.value.client))]);
      Register(h1, i, dialed.value.specs, dialed.value.client)
    else if h.attempts[name] + 1 < maxAttempts then h.(attempts := h.attempts[name := h.attempts[name] + 1])
    else done
  }

  // ---------------------------------------------------------------- re-listing

  /** The start of a re-list: it captures the client, or returns when there is none. */
  function BeginList(h: Hub, key: Key): Hub {
    var i := IndexOf(h.entries, key.server);
    var idle := h.closed || i == |h.entries| || h.entries[i].client.None?;
    h.(flights := h.flights[key := if idle then Returned else Listing(h.entries[i].client.value)])
  }

  /** `#coalesce` on a trigger. */
  function Trigger(h: Hub, key: Key): Hub {
    if key in h.refreshing then h.(refreshing := h.refreshing[key := Queued])
    else BeginList(h.(refreshing := h.refreshing[key := Running]), key)
  }

  /** The list arrives, or fails; a swapped client or a closed hub is left alone. */
  function Listed(h: Hub, key: Key, specs: Option<seq<string>>): Hub {
    if key !in h.flights || h.flights[key].Returned? then h else
    var client := h.flights[key].client;
    var h1 := h.(flights := h.flights[key := Returned]);
    var i := IndexOf(h.entries, key.server);
    if key.kind != Tools || specs.None? || h.closed || i == |h.entries| || h.entries[i].client != Some(client) then h1
    else Register(Unregister(h1, i), i, specs.value, client)
  }

  /** The loop condition of `#coalesce` once a re-list has returned. */
  function Turn(h: Hub, key: Key): Hub {
    if key !in h.flights || h.flights[key].Listing? || key !in h.refreshing then h
    else if h.refreshing[key] == Queued then BeginList(h.(refreshing := h.refreshing[key := Running]), key)
    else h.(refreshing := h.refreshing - {key}, flights := h.flights - {key})
  }

  datatype Event =
    | Started(results: seq<(string, Option<Dialed>)>)
    | Dropped(server: string)
    | Redialed(server: string, dialed: Option<Dialed>)
    | ListChanged(key: Key)
    | ListArrived(key: Key, specs: Option<seq<string>>)
    | LoopTurns(key: Key)
    | CloseBegins
    | CloseEnds

  function Step(h: Hub, e: Event, maxAttempts: nat): Hub {
    match e
    case Started(results) => if h.closed then h else BootAll(h, results)
    case Dropped(server) => Drop(h, server, maxAttempts)
    case Redialed(server, dialed) => Redial(h, server, dialed, maxAttempts)
    case ListChanged(key) => Trigger(h, key)
    case ListArrived(key, specs) => Listed(h, key, specs)
    case LoopTurns(key) => Turn(h, key)
    case CloseBegins => Close(h)
    case CloseEnds => if h.closed then h.(entries := []) else h
  }
}
