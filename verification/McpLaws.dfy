/** What holds in every interleaving. */
module McpLaws {
  import opened Options
  import opened McpNames
  import opened McpSteps

  /** A registered name is listed by its server's entry, bound to its current client, and
      derived from the tool it calls. */
  ghost predicate Bound(h: Hub, n: string)
    requires n in h.tools
  {
    var e := Lookup(h.entries, h.tools[n].server);
    && e.Some? && e.value.client == Some(h.tools[n].client) && n in e.value.toolNames
    && NameOf(n, h.tools[n].server, h.tools[n].tool)
  }

  ghost predicate AllBound(h: Hub) {
    forall n :: n in h.tools ==> Bound(h, n)
  }

  ghost predicate DistinctNames(entries: seq<Entry>) {
    forall i, j :: 0 <= i < j < |entries| ==> entries[i].name != entries[j].name
  }

  /** Servers being reconnected are known and have no client. */
  ghost predicate AllDown(h: Hub) {
    forall s :: s in h.attempts ==> Lookup(h.entries, s).Some? && Lookup(h.entries, s).value.client == None
  }

  ghost predicate Inv(h: Hub) {
    && DistinctNames(h.entries) && AllBound(h)
    && (!h.closed ==> AllDown(h))
    && (h.closed ==> h.tools == map[])
    && h.used == h.tools.Keys
    && h.refreshing.Keys == h.flights.Keys
  }

  /** `start` runs once, on names that are not connected yet. */
  predicate Enabled(h: Hub, e: Event) {
    e.Started? ==>
      && (forall i :: 0 <= i < |e.results| ==> Lookup(h.entries, e.results[i].0) == None)
      && (forall i, j :: 0 <= i < j < |e.results| ==> e.results[i].0 != e.results[j].0)
  }

  // ---------------------------------------------------------------- entries

  lemma Unknown(entries: seq<Entry>, name: string)
    ensures Lookup(entries, name) == None <==> forall k :: 0 <= k < |entries| ==> entries[k].name != name
  {
  }

  lemma IndexAt(entries: seq<Entry>, i: nat)
    requires DistinctNames(entries) && i < |entries|
    ensures IndexOf(entries, entries[i].name) == i
  {
  }

  /** `e` is what its name finds now; every other name finds what it found before. */
  ghost predicate Placed(entries: seq<Entry>, entries': seq<Entry>, e: Entry) {
    && Lookup(entries', e.name) == Some(e)
    && forall s :: s != e.name ==> Lookup(entries', s) == Lookup(entries, s)
  }

  /** Changing one entry changes what its name finds, and nothing else. */
  lemma Updated(entries: seq<Entry>, i: nat, e: Entry)
    requires DistinctNames(entries) && i < |entries| && e.name == entries[i].name
    ensures DistinctNames(entries[i := e])
    ensures Placed(entries, entries[i := e], e)
  {
    var entries' := entries[i := e];
    forall s ensures Lookup(entries', s) == if s == e.name then Some(e) else Lookup(entries, s) {
      IndexSame(entries, entries', s);
      IndexAt(entries, i);
    }
  }

  lemma IndexSame(entries: seq<Entry>, entries': seq<Entry>, name: string)
    requires |entries| == |entries'| && forall k :: 0 <= k < |entries| ==> entries'[k].name == entries[k].name
    ensures IndexOf(entries', name) == IndexOf(entries, name)
  {
    var i, j := IndexOf(entries, name), IndexOf(entries', name);
    assert i < |entries| ==> entries'[i].name == entries[i].name;
    assert j < |entries| ==> entries[j].name == entries'[j].name;
  }

  lemma Grown(entries: seq<Entry>, e: Entry)
    requires DistinctNames(entries) && Lookup(entries, e.name) == None
    ensures DistinctNames(entries + [e])
    ensures Placed(entries, entries + [e], e)
  {
    var all := entries + [e];
    Unknown(entries, e.name);
    forall s ensures Lookup(all, s) == if s == e.name then Some(e) else Lookup(entries, s) {
      var i, j := IndexOf(entries, s), IndexOf(all, s);
      assert i < |entries| ==> all[i] == entries[i];
      assert j < |entries| ==> all[j] == entries[j];
      assert all[|entries|] == e;
    }
  }

  // ---------------------------------------------------------------- registration

  lemma NamesPush(names: seq<string>, n: string)
    ensures Names(names + [n]) == Names(names) + {n}
  {
    assert forall x :: x in names + [n] <==> x in names || x == n;
  }

  /** What registering adds: names that call tools of this server over this client, each the
      last tool listed under it; bindings under other names stay. */
  ghost predicate Added(x: Exposure, y: Exposure, server: string, specs: seq<string>, client: Client) {
    && |y.names| == |specs| && y.used == x.used + Names(y.names) && y.tools.Keys == x.tools.Keys + Names(y.names)
    && (forall n :: n in x.tools && n !in y.names ==> y.tools[n] == x.tools[n])
    && (forall n :: n in y.names ==> Calls(y.tools[n], n, server, client))
    && forall k :: 0 <= k < |specs| ==> LatestCalled(y, specs, k)
  }

  /** A name calls the last tool listed under it. */
  ghost predicate LatestCalled(y: Exposure, specs: seq<string>, k: nat)
    requires k < |specs| == |y.names| && y.names[k] in y.tools
  {
    y.names[k] !in y.names[k + 1..] ==> y.tools[y.names[k]].tool == specs[k]
  }

  ghost predicate Calls(b: Binding, name: string, server: string, client: Client) {
    b.server == server && b.client == client && NameOf(name, server, b.tool)
  }

  lemma {:induction false} ExposeBinds(x: Exposure, server: string, specs: seq<string>, client: Client)
    requires x.names == []
    ensures Added(x, Expose(x, server, specs, client), server, specs, client)
    decreases |specs|
  {
    hide Names, McpToolName, HashedName, Calls, Added;
    if specs == [] {
      AddedNone(x, server, client);
    } else {
      var m := |specs| - 1;
      ExposeBinds(x, server, specs[..m], client);
      AddedOne(x, Expose(x, server, specs[..m], client), server, specs, client);
    }
  }

  lemma AddedNone(x: Exposure, server: string, client: Client)
    requires x.names == []
    ensures Added(x, x, server, [], client)
  {
    NoNames();
  }

  lemma AddedOne(x: Exposure, y: Exposure, server: string, specs: seq<string>, client: Client)
    requires specs != [] && Added(x, y, server, specs[..|specs| - 1], client)
    ensures Added(x, ExposeOne(y, server, specs[|specs| - 1], client), server, specs, client)
  {
    hide Names, McpToolName, HashedName, LatestCalled;
    var m := |specs| - 1;
    var y' := ExposeOne(y, server, specs[m], client);
    var name := FreeName(y.used, server, specs[m]);
    assert NameOf(name, server, specs[m]);
    NamesPush(y.names, name);
    MemberNames(y.names);
    MemberNames(y'.names);
    forall k | 0 <= k < |specs| ensures LatestCalled(y', specs, k) {
      if k < m {
        assert LatestCalled(y, specs[..m], k);
      }
      LatestMore(y, y', specs, k, name, Binding(server, client, specs[m]));
    }
  }

  lemma LatestMore(y: Exposure, y': Exposure, specs: seq<string>, k: nat, name: string, b: Binding)
    requires k < |specs| == |y'.names| && y'.names == y.names + [name] && y'.tools == y.tools[name := b]
    requires b.tool == specs[|specs| - 1] && forall n :: n in y.names ==> n in y.tools
    requires k < |specs| - 1 ==> LatestCalled(y, specs[..|specs| - 1], k)
    ensures LatestCalled(y', specs, k)
  {
    var m := |specs| - 1;
    if k < m && y'.names[k] !in y'.names[k + 1..] {
      assert y'.names[k + 1..] == y.names[k + 1..] + [name];
    }
  }

  lemma ExposeNext(x: Exposure, server: string, specs: seq<string>, k: nat, client: Client)
    requires k <= |specs|
    ensures Expose(x, server, specs[..0], client) == x && specs[..|specs|] == specs
    ensures k < |specs| ==>
              Expose(x, server, specs[..k + 1], client)
              == ExposeOne(Expose(x, server, specs[..k], client), server, specs[k], client)
  {
    hide ExposeOne;
    if k < |specs| {
      assert specs[..k + 1][..k] == specs[..k];
    }
  }

  lemma NoNames()
    ensures Names([]) == {}
  {
  }

  /** The readable name is kept unless another live tool has it; then the hashed one is used. */
  lemma {:induction false} ExposeNames(
    x: Exposure, server: string, specs: seq<string>, client: Client, k: nat)
    requires x.names == [] && k < |specs|
    ensures var y, plain := Expose(x, server, specs, client), McpToolName(server, specs[k]);
            && |y.names| == |specs|
            && y.names[k] == if plain in x.used + Names(y.names[..k]) then HashedName(server, specs[k]) else plain
    decreases |specs|
  {
    hide McpToolName, HashedName, Names, Expose, Calls, LatestCalled;
    var m := |specs| - 1;
    ExposeBinds(x, server, specs, client);
    ExposeBinds(x, server, specs[..m], client);
    ExposeNext(x, server, specs, m, client);
    assert specs[..m + 1] == specs;
    var y0, y := Expose(x, server, specs[..m], client), Expose(x, server, specs, client);
    if k < m {
      ExposeNames(x, server, specs[..m], client, k);
      assert y.names[..k] == y0.names[..k];
    } else {
      assert y.names[..k] == y0.names;
    }
  }

  lemma MemberNames(names: seq<string>)
    ensures forall n :: n in Names(names) <==> n in names
  {
  }

  /** Everything registered for a server goes when it is unregistered. */
  lemma UnregisterKeeps(h: Hub, i: nat)
    requires i < |h.entries| && DistinctNames(h.entries) && AllBound(h)
    ensures var h' := Unregister(h, i);
            && DistinctNames(h'.entries) && AllBound(h') && h'.tools.Keys <= h.tools.Keys
            && (forall n :: n in h'.tools ==> h'.tools[n] == h.tools[n] && h'.tools[n].server != h.entries[i].name)
            && Placed(h.entries, h'.entries, h.entries[i].(toolNames := []))
  {
    hide IndexOf, Lookup, Names;
    var e := h.entries[i];
    MemberNames(e.toolNames);
    Updated(h.entries, i, e.(toolNames := []));
    Updated(h.entries, i, e);
    assert h.entries[i := e] == h.entries;
    var h' := Unregister(h, i);
    forall n | n in h'.tools ensures Bound(h', n) && h'.tools[n].server != e.name {
      assert Bound(h, n);
    }
  }

  /** A server without registered tools gets those of its present client. */
  lemma RegisterKeeps(h: Hub, i: nat, specs: seq<string>, client: Client)
    requires i < |h.entries| && DistinctNames(h.entries) && h.entries[i].client == Some(client)
    requires AllBound(h) && forall n :: n in h.tools ==> h.tools[n].server != h.entries[i].name
    ensures var h' := Register(h, i, specs, client);
            && DistinctNames(h'.entries) && AllBound(h')
            && Placed(h.entries, h'.entries, h.entries[i].(toolNames := h'.entries[i].toolNames))
  {
    hide IndexOf, Lookup, Names, Expose;
    var h' := Register(h, i, specs, client);
    ExposeBinds(Exposure(h.used, h.tools, []), h.entries[i].name, specs, client);
    Updated(h.entries, i, h'.entries[i]);
    MemberNames(h'.entries[i].toolNames);
    forall n | n in h'.tools ensures Bound(h', n) {
      if n !in h'.entries[i].toolNames { assert Bound(h, n); }
    }
  }

  // ---------------------------------------------------------------- steps

  lemma BootKeeps(h: Hub, name: string, dialed: Option<Dialed>)
    requires Inv(h) && !h.closed && Lookup(h.entries, name) == None
    ensures var h' := Boot(h, name, dialed);
            && Inv(h') && !h'.closed
            && (forall s :: s != name ==> Lookup(h'.entries, s) == Lookup(h.entries, s))
  {
    hide IndexOf, Lookup, Register;
    var client := if dialed.None? then None else Some(dialed.value.client);
    var h1 := h.(entries := h.entries + [Entry(name, client, [])]);
    Grown(h.entries, Entry(name, client, []));
    forall n | n in h1.tools ensures Bound(h1, n) && h1.tools[n].server != name { assert Bound(h, n); }
    if dialed.Some? {
      RegisterKeeps(h1, |h.entries|, dialed.value.specs, dialed.value.client);
      RegisterRest(h1, |h.entries|, dialed.value.specs, dialed.value.client);
    }
  }

  lemma RegisterRest(h: Hub, i: nat, specs: seq<string>, client: Client)
    requires i < |h.entries|
    ensures var h' := Register(h, i, specs, client);
            && |h'.entries| == |h.entries| && h'.attempts == h.attempts && h'.refreshing == h.refreshing
            && h'.flights == h.flights && h'.closed == h.closed
            && (h.used == h.tools.Keys ==> h'.used == h'.tools.Keys)
  {
    hide Expose;
    ExposeBinds(Exposure(h.used, h.tools, []), h.entries[i].name, specs, client);
  }

  lemma {:induction false} BootAllKeeps(h: Hub, results: seq<(string, Option<Dialed>)>)
    requires Inv(h) && !h.closed && Enabled(h, Started(results))
    ensures var h' := BootAll(h, results);
            && Inv(h') && !h'.closed
            && (forall s :: (forall k :: 0 <= k < |results| ==> results[k].0 != s) ==>
                  Lookup(h'.entries, s) == Lookup(h.entries, s))
    decreases |results|
  {
    hide Inv, Boot, Lookup;
    if results != [] {
      var n := |results| - 1;
      BootAllKeeps(h, results[..n]);
      BootKeeps(BootAll(h, results[..n]), results[n].0, results[n].1);
    }
  }

  lemma DropKeeps(h: Hub, name: string, maxAttempts: nat)
    requires Inv(h)
    ensures Inv(Drop(h, name, maxAttempts)) && Drop(h, name, maxAttempts).closed == h.closed
  {
    hide Unregister;
    var i := IndexOf(h.entries, name);
    if i < |h.entries| && !h.closed && name !in h.attempts {
      UnregisterKeeps(h, i);
      UnregisterRest(h, i);
      Disconnected(h, Unregister(h, i), i, name, maxAttempts);
    }
  }

  lemma UnregisterRest(h: Hub, i: nat)
    requires i < |h.entries|
    ensures var h' := Unregister(h, i);
            && |h'.entries| == |h.entries| && h'.entries[i] == h.entries[i].(toolNames := [])
            && h'.attempts == h.attempts && h'.refreshing == h.refreshing && h'.flights == h.flights
                && h'.closed == h.closed
            && (h.used == h.tools.Keys ==> h'.used == h'.tools.Keys)
  {
    hide Names;
  }

  /** The client goes once its tools have gone. */
  lemma Disconnected(h: Hub, h1: Hub, i: nat, name: string, maxAttempts: nat)
    requires Inv(h) && !h.closed && i < |h1.entries| && h1.entries[i].name == name
    requires DistinctNames(h1.entries) && AllBound(h1) && forall n :: n in h1.tools ==> h1.tools[n].server != name
    requires Placed(h.entries, h1.entries, h1.entries[i])
    requires h1.attempts == h.attempts && h1.refreshing == h.refreshing && h1.flights == h.flights
        && h1.closed == h.closed
    requires h1.used == h1.tools.Keys
    ensures var h2 := h1.(entries := h1.entries[i := h1.entries[i].(client := None)]);
            && Inv(if maxAttempts == 0 then h2 else h2.(attempts := h.attempts[name := 0]))
  {
    hide Lookup, IndexOf;
    var h2 := h1.(entries := h1.entries[i := h1.entries[i].(client := None)]);
    Updated(h1.entries, i, h1.entries[i].(client := None));
    forall n | n in h2.tools ensures Bound(h2, n) { assert Bound(h1, n); }
    var h' := if maxAttempts == 0 then h2 else h2.(attempts := h.attempts[name := 0]);
    forall n | n in h'.tools ensures Bound(h', n) { assert Bound(h2, n); }
  }

  lemma RedialKeeps(h: Hub, name: string, dialed: Option<Dialed>, maxAttempts: nat)
    requires Inv(h)
    ensures var h' := Redial(h, name, dialed, maxAttempts); Inv(h') && h'.closed == h.closed
  {
    hide Register, Lookup, Inv;
    var i := IndexOf(h.entries, name);
    if name in h.attempts && !h.closed && i < |h.entries| && dialed.Some? {
      Reconnected(h, i, name, dialed.value);
    } else {
      var h' := Redial(h, name, dialed, maxAttempts);
      assert h' == h.(attempts := h'.attempts);
      assert h'.attempts.Keys <= h.attempts.Keys;
      FewerAttempts(h, h'.attempts);
    }
  }

  lemma FewerAttempts(h: Hub, attempts: map<string, nat>)
    requires Inv(h) && attempts.Keys <= h.attempts.Keys
    ensures Inv(h.(attempts := attempts))
  {
    hide Lookup;
    forall n | n in h.tools ensures Bound(h.(attempts := attempts), n) { assert Bound(h, n); }
  }

  lemma Reconnected(h: Hub, i: nat, name: string, dialed: Dialed)
    requires Inv(h) && !h.closed && name in h.attempts && i == IndexOf(h.entries, name) && i < |h.entries|
    ensures var h1 := h.(attempts := h.attempts - {name},
        entries := h.entries[i := h.entries[i].(client := Some(dialed.client))]);
            Inv(Register(h1, i, dialed.specs, dialed.client))
            && !Register(h1, i, dialed.specs, dialed.client).closed
  {
    hide Lookup, IndexOf, Register, DistinctNames, AllBound, AllDown, Placed;
    var e := h.entries[i].(client := Some(dialed.client));
    var h1 := h.(attempts := h.attempts - {name}, entries := h.entries[i := e]);
    Adopted(h, i, name, dialed.client);
    RegisterKeeps(h1, i, dialed.specs, dialed.client);
    RegisterRest(h1, i, dialed.specs, dialed.client);
    var h' := Register(h1, i, dialed.specs, dialed.client);
    DownElsewhere(h1, h', e.(toolNames := h'.entries[i].toolNames));
  }

  lemma Adopted(h: Hub, i: nat, name: string, client: Client)
    requires Inv(h) && !h.closed && name in h.attempts && i == IndexOf(h.entries, name) && i < |h.entries|
    ensures var e := h.entries[i].(client := Some(client));
            var h1 := h.(attempts := h.attempts - {name}, entries := h.entries[i := e]);
            && e.name == name && DistinctNames(h1.entries) && AllBound(h1) && AllDown(h1)
            && forall n :: n in h1.tools ==> h1.tools[n].server != name
  {
    var e := h.entries[i].(client := Some(client));
    var h1 := h.(attempts := h.attempts - {name}, entries := h.entries[i := e]);
    assert Lookup(h.entries, name) == Some(h.entries[i]);
    hide Lookup, IndexOf;
    Updated(h.entries, i, e);
    forall n | n in h1.tools ensures Bound(h1, n) && h1.tools[n].server != name { assert Bound(h, n); }
  }

  /** Servers that are down stay down when another one's entry changes. */
  lemma DownElsewhere(h: Hub, h': Hub, e: Entry)
    requires AllDown(h) && Placed(h.entries, h'.entries, e) && h'.attempts == h.attempts && e.name !in h.attempts
    ensures AllDown(h')
  {
    hide Lookup;
  }

  lemma ListedKeeps(h: Hub, key: Key, specs: Option<seq<string>>)
    requires Inv(h)
    ensures var h' := Listed(h, key, specs); Inv(h') && h'.closed == h.closed
  {
    hide Unregister, Register;
    if key in h.flights && h.flights[key].Listing? {
      var client := h.flights[key].client;
      var h1 := h.(flights := h.flights[key := Returned]);
      var i := IndexOf(h.entries, key.server);
      QuietKeeps(h, h1);
      if key.kind == Tools && specs.Some? && !h.closed && i < |h.entries| && h.entries[i].client == Some(client) {
        Relisted(h1, i, specs.value, client);
      }
    }
  }

  /** A re-list swaps a server's tools under its unchanged client. */
  lemma Relisted(h: Hub, i: nat, specs: seq<string>, client: Client)
    requires Inv(h) && !h.closed && i < |h.entries| && h.entries[i].client == Some(client)
    ensures |Unregister(h, i).entries| == |h.entries|
    ensures var h' := Register(Unregister(h, i), i, specs, client); Inv(h') && !h'.closed
  {
    hide Lookup, IndexOf, Unregister, Register;
    UnregisterKeeps(h, i);
    UnregisterRest(h, i);
    RegisterKeeps(Unregister(h, i), i, specs, client);
    RegisterRest(Unregister(h, i), i, specs, client);
    var e := h.entries[i];
    Updated(h.entries, i, e);
    assert h.entries[i := e] == h.entries;
  }

  lemma QuietKeeps(h: Hub, h': Hub)
    requires Inv(h) && h'.entries == h.entries && h'.tools == h.tools && h'.used == h.used
        && h'.attempts == h.attempts && h'.closed == h.closed
    requires h'.refreshing.Keys == h'.flights.Keys
    ensures Inv(h')
  {
    hide Lookup;
    forall n | n in h'.tools ensures Bound(h', n) { assert Bound(h, n); }
  }

  lemma {:induction false} UnregisterAllEmpties(h: Hub, n: nat)
    requires DistinctNames(h.entries) && AllBound(h) && n <= |h.entries|
    ensures var h' := UnregisterAll(h, n);
            && DistinctNames(h'.entries) && AllBound(h') && h'.closed == h.closed
            && h'.refreshing == h.refreshing && h'.flights == h.flights
            && (forall k :: 0 <= k < |h.entries| ==> h'.entries[k].name == h.entries[k].name)
            && (forall m, k :: m in h'.tools && 0 <= k < n ==> h'.tools[m].server != h.entries[k].name)
    decreases n
  {
    hide DistinctNames, AllBound, Names, Lookup;
    if n > 0 {
      UnregisterAllEmpties(h, n - 1);
      UnregisterKeeps(UnregisterAll(h, n - 1), n - 1);
    }
  }

  lemma Nobody(h: Hub)
    requires AllBound(h) && forall m, k :: m in h.tools && 0 <= k < |h.entries| ==>
        h.tools[m].server != h.entries[k].name
    ensures h.tools == map[]
  {
    EveryToolOwned(h);
  }

  lemma EveryToolOwned(h: Hub)
    requires AllBound(h)
    ensures forall m :: m in h.tools ==> exists k :: 0 <= k < |h.entries| && h.entries[k].name == h.tools[m].server
  {
    forall m | m in h.tools ensures exists k :: 0 <= k < |h.entries| && h.entries[k].name == h.tools[m].server {
      assert Bound(h, m);
      assert h.entries[IndexOf(h.entries, h.tools[m].server)].name == h.tools[m].server;
    }
  }

  /** From the moment close begins nothing is registered. */
  lemma CloseKeeps(h: Hub)
    requires Inv(h)
    ensures Inv(Close(h)) && Close(h).tools == map[] && Close(h).closed
  {
    var h1 := h.(closed := true);
    forall n | n in h1.tools ensures Bound(h1, n) { assert Bound(h, n); }
    UnregisterAllEmpties(h1, |h.entries|);
    var h' := UnregisterAll(h1, |h.entries|);
    Nobody(h');
  }

  lemma CoalesceQuiet(h: Hub, key: Key)
    requires Inv(h)
    ensures Inv(Trigger(h, key)) && Inv(Turn(h, key))
    ensures Trigger(h, key).closed == h.closed && Turn(h, key).closed == h.closed
  {
    hide Inv, Trigger, Turn;
    TriggerQuiet(h, key);
    TurnQuiet(h, key);
  }

  lemma TriggerQuiet(h: Hub, key: Key)
    requires Inv(h)
    ensures Inv(Trigger(h, key)) && Trigger(h, key).closed == h.closed
  {
    hide AllBound, AllDown, Lookup, DistinctNames, IndexOf;
    var a := Trigger(h, key);
    assert a.refreshing.Keys == a.flights.Keys;
    QuietKeeps(h, a);
  }

  lemma TurnQuiet(h: Hub, key: Key)
    requires Inv(h)
    ensures Inv(Turn(h, key)) && Turn(h, key).closed == h.closed
  {
    hide AllBound, AllDown, Lookup, DistinctNames, IndexOf;
    var b := Turn(h, key);
    assert b.refreshing.Keys == b.flights.Keys;
    QuietKeeps(h, b);
  }

  lemma StepKeeps(h: Hub, e: Event, maxAttempts: nat)
    requires Inv(h) && Enabled(h, e)
    ensures Inv(Step(h, e, maxAttempts))
    ensures h.closed ==> Step(h, e, maxAttempts).closed
  {
    hide Inv, Drop, Redial, Listed, Trigger, Turn, BootAll, Close;
    match e
    case Started(results) => if !h.closed { BootAllKeeps(h, results); }
    case Dropped(server) => DropKeeps(h, server, maxAttempts);
    case Redialed(server, dialed) => RedialKeeps(h, server, dialed, maxAttempts);
    case ListArrived(key, specs) => ListedKeeps(h, key, specs);
    case ListChanged(key) => CoalesceQuiet(h, key);
    case LoopTurns(key) => CoalesceQuiet(h, key);
    case CloseBegins => CloseKeeps(h);
    case CloseEnds => CloseEndsKeeps(h);
  }

  lemma CloseEndsKeeps(h: Hub)
    requires Inv(h)
    ensures Inv(if h.closed then h.(entries := []) else h)
  {
  }

  // ---------------------------------------------------------------- names

  /** Registering takes another tool's name only where the hashed name is taken too. */
  lemma OnlyHashedOverwrites(h: Hub, i: nat, specs: seq<string>, client: Client, n: string)
    requires Inv(h) && i < |h.entries| && n in h.tools
    ensures var h' := Register(h, i, specs, client);
            n in h'.tools && (h'.tools[n] != h.tools[n] ==>
                                exists k :: 0 <= k < |specs| && n == HashedName(h.entries[i].name, specs[k])
                                            && McpToolName(h.entries[i].name, specs[k]) in h'.used)
  {
    hide Expose, Names, AllBound, AllDown, DistinctNames;
    var x, server := Exposure(h.used, h.tools, []), h.entries[i].name;
    var y := Expose(x, server, specs, client);
    ExposeBinds(x, server, specs, client);
    MemberNames(y.names);
    if n in y.names {
      var k :| 0 <= k < |y.names| && y.names[k] == n;
      ExposeNames(x, server, specs, client, k);
      MemberNames(y.names[..k]);
      assert n == HashedName(server, specs[k]);
      assert McpToolName(server, specs[k]) in y.used;
    }
  }
}
