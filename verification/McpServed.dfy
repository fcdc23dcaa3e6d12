/**
  What connected servers are owed: each tool of the last list the hub accepted from a server
  is called by the name it was given. It is, exactly as long as no tool falls back to a hashed
  name that another tool uses, be it a tool of the same server.
  */
module McpServed {
  import opened Options
  import opened McpNames
  import opened McpSteps
  import opened McpLaws
  import opened McpRuns

  /** Name k calls tool k of the list. */
  ghost predicate Exposes(
    tools: map<string, Binding>, names: seq<string>, server: string, specs: seq<string>, client: Client) {
    && |names| == |specs|
    && forall k :: 0 <= k < |names| ==> names[k] in tools && tools[names[k]] == Binding(server, client, specs[k])
  }

  /** A connected server's names call its last accepted list; without a client there are none. */
  ghost predicate Serves(e: Entry, tools: map<string, Binding>, accepted: map<string, seq<string>>) {
    && (e.client.None? ==> e.toolNames == [])
    && (e.client.Some? ==>
          e.name in accepted && Exposes(tools, e.toolNames, e.name, accepted[e.name], e.client.value))
  }

  ghost predicate AllServed(h: Hub, accepted: map<string, seq<string>>) {
    forall i :: 0 <= i < |h.entries| ==> Serves(h.entries[i], h.tools, accepted)
  }

  // ---------------------------------------------------------------- no name is taken over

  /** Each tool in turn finds a name that no other tool uses. The readable name always is such
      a one when it is chosen, so this speaks of the hashed ones. */
  predicate Clean(tools: map<string, Binding>, server: string, specs: seq<string>, client: Client)
    decreases |specs|
  {
    specs == [] ||
    var name, binding := FreeName(tools.Keys, server, specs[0]), Binding(server, client, specs[0]);
    (name in tools ==> tools[name] == binding) && Clean(tools[name := binding], server, specs[1..], client)
  }

  predicate CleanAt(h: Hub, server: string, specs: seq<string>, client: Client) {
    Clean(h.tools, server, specs, client)
  }

  predicate CleanBoot(h: Hub, results: seq<(string, Option<Dialed>)>)
    decreases |results|
  {
    results == [] ||
    var (name, dialed) := results[|results| - 1];
    var h0 := BootAll(h, results[..|results| - 1]);
    CleanBoot(h, results[..|results| - 1]) &&
    (dialed.Some? ==> CleanAt(h0, name, dialed.value.specs, dialed.value.client))
  }

  /** The list arrives under the client it was asked of, in an open hub. */
  predicate Accepts(h: Hub, key: Key, specs: Option<seq<string>>) {
    var i := IndexOf(h.entries, key.server);
    && key in h.flights && h.flights[key].Listing? && key.kind == Tools && specs.Some? && !h.closed
    && i < |h.entries| && h.entries[i].client == Some(h.flights[key].client)
  }

  predicate Adopts(h: Hub, server: string, dialed: Option<Dialed>) {
    dialed.Some? && server in h.attempts && !h.closed && IndexOf(h.entries, server) < |h.entries|
  }

  predicate CleanStep(h: Hub, e: Event) {
    match e
    case Started(results) => h.closed || CleanBoot(h, results)
    case Redialed(server, dialed) =>
      Adopts(h, server, dialed) ==> CleanAt(h, server, dialed.value.specs, dialed.value.client)
    case ListArrived(key, specs) =>
      Accepts(h, key, specs) ==>
        CleanAt(Unregister(h, IndexOf(h.entries, key.server)), key.server, specs.value, h.flights[key].client)
    case _ => true
  }

  function Heard(accepted: map<string, seq<string>>, name: string, dialed: Option<Dialed>): map<string, seq<string>> {
    if dialed.Some? then accepted[name := dialed.value.specs] else accepted
  }

  function Booted(accepted: map<string, seq<string>>, results: seq<(string, Option<Dialed>)>): map<string, seq<string>>
    decreases |results|
  {
    if results == [] then accepted else
    var (name, dialed) := results[|results| - 1];
    Heard(Booted(accepted, results[..|results| - 1]), name, dialed)
  }

  /** The lists accepted so far, by server. */
  function Accepted(h: Hub, accepted: map<string, seq<string>>, e: Event): map<string, seq<string>> {
    match e
    case Started(results) => if h.closed then accepted else Booted(accepted, results)
    case Redialed(server, dialed) =>
      if Adopts(h, server, dialed) then accepted[server := dialed.value.specs] else accepted
    case ListArrived(key, specs) => if Accepts(h, key, specs) then accepted[key.server := specs.value] else accepted
    case _ => accepted
  }

  // ---------------------------------------------------------------- registration

  lemma {:induction false} ExposeFirst(x: Exposure, server: string, specs: seq<string>, client: Client)
    requires specs != []
    ensures Expose(x, server, specs, client)
         == Expose(ExposeOne(x, server, specs[0], client), server, specs[1..], client)
    decreases |specs|
  {
    hide ExposeOne;
    var m := |specs| - 1;
    if m == 0 {
      assert Expose(x, server, specs[..0], client) == x;
    } else {
      ExposeFirst(x, server, specs[..m], client);
      assert specs[..m][1..] == specs[1..][..m - 1];
    }
  }

  /** Every tool is called by its name and no binding is changed, if and only if `Clean`. */
  lemma {:induction false} CleanIff(x: Exposure, server: string, specs: seq<string>, client: Client)
    requires x.used == x.tools.Keys
    ensures var y := Expose(x, server, specs, client);
            && y.used == y.tools.Keys && x.tools.Keys <= y.tools.Keys
            && |y.names| == |x.names| + |specs| && y.names[..|x.names|] == x.names
            && (Clean(x.tools, server, specs, client) <==>
                  Kept(x.tools, y.tools) && Exposes(y.tools, y.names[|x.names|..], server, specs, client))
    decreases |specs|
  {
    hide Expose, FreeName, Exposes, Kept, Clean;
    var y := Expose(x, server, specs, client);
    if specs == [] {
      ExposeNone(x, server, client);
    } else {
      var name, binding := FreeName(x.used, server, specs[0]), Binding(server, client, specs[0]);
      var x1 := ExposeOne(x, server, specs[0], client);
      ExposeFirst(x, server, specs, client);
      CleanIff(x1, server, specs[1..], client);
      CleanFirst(x.tools, server, specs, client);
      KeptFirst(x.tools, name, binding, y.tools);
      assert y.names[|x.names|] == y.names[..|x1.names|][|x.names|] == name;
      ExposesFirst(y.tools, y.names[|x.names|..], server, specs, client);
      assert y.names[|x.names|..][1..] == y.names[|x1.names|..];
      assert y.names[..|x.names|] == y.names[..|x1.names|][..|x.names|];
    }
  }

  ghost predicate Kept(tools: map<string, Binding>, tools': map<string, Binding>) {
    forall n :: n in tools ==> n in tools' && tools'[n] == tools[n]
  }

  lemma ExposeNone(x: Exposure, server: string, client: Client)
    ensures Expose(x, server, [], client) == x && Clean(x.tools, server, [], client) && Kept(x.tools, x.tools)
    ensures forall tools :: Exposes(tools, x.names[|x.names|..], server, [], client)
  {
  }

  lemma CleanFirst(tools: map<string, Binding>, server: string, specs: seq<string>, client: Client)
    requires specs != []
    ensures var name, binding := FreeName(tools.Keys, server, specs[0]), Binding(server, client, specs[0]);
            Clean(tools, server, specs, client) <==>
            (name in tools ==> tools[name] == binding) && Clean(tools[name := binding], server, specs[1..], client)
  {
    hide FreeName;
  }

  lemma KeptFirst(tools: map<string, Binding>, name: string, binding: Binding, tools': map<string, Binding>)
    ensures (name in tools ==> tools[name] == binding) && Kept(tools[name := binding], tools')
       <==> Kept(tools, tools') && name in tools' && tools'[name] == binding
  {
    if (name in tools ==> tools[name] == binding) && Kept(tools[name := binding], tools') {
      forall n | n in tools ensures n in tools' && tools'[n] == tools[n] {
        assert n in tools[name := binding];
      }
      assert name in tools[name := binding];
    }
  }

  lemma ExposesFirst(
    tools: map<string, Binding>, names: seq<string>, server: string, specs: seq<string>, client: Client)
    requires specs != [] && |names| == |specs|
    ensures Exposes(tools, names, server, specs, client)
       <==> && names[0] in tools && tools[names[0]] == Binding(server, client, specs[0])
            && Exposes(tools, names[1..], server, specs[1..], client)
  {
    if Exposes(tools, names[1..], server, specs[1..], client) {
      forall k | 0 < k < |names|
        ensures names[k] in tools && tools[names[k]] == Binding(server, client, specs[k])
      {
        assert names[1..][k - 1] == names[k] && specs[1..][k - 1] == specs[k];
      }
    }
  }

  /** Served except for entry `i`, which has nothing registered. */
  ghost predicate OthersServed(h: Hub, i: nat, accepted: map<string, seq<string>>)
    requires i < |h.entries|
  {
    && (forall k :: 0 <= k < |h.entries| && k != i ==> Serves(h.entries[k], h.tools, accepted))
    && (forall n :: n in h.tools ==> h.tools[n].server != h.entries[i].name)
  }

  /** After registering a server's tools all servers are served if and only if no name was
      taken over. */
  lemma RegisterServesIff(
    h: Hub, i: nat, specs: seq<string>, client: Client, accepted: map<string, seq<string>>)
    requires i < |h.entries| && h.entries[i].client == Some(client) && h.used == h.tools.Keys
    requires DistinctNames(h.entries) && AllBound(h) && OthersServed(h, i, accepted)
    ensures AllServed(Register(h, i, specs, client), accepted[h.entries[i].name := specs])
       <==> Clean(h.tools, h.entries[i].name, specs, client)
  {
    hide Expose, Clean, Exposes, AllServed, Kept, AllBound, OthersServed, DistinctNames;
    var x, server := Exposure(h.used, h.tools, []), h.entries[i].name;
    var h' := Register(h, i, specs, client);
    CleanIff(x, server, specs, client);
    assert h'.entries[i].toolNames[0..] == h'.entries[i].toolNames;
    if Kept(h.tools, h'.tools) && Exposes(h'.tools, h'.entries[i].toolNames, server, specs, client) {
      KeptServes(h, i, h', accepted, specs);
    }
    if AllServed(h', accepted[server := specs]) {
      ServedKept(h, i, h', accepted, specs);
    }
  }

  ghost predicate OneChanged(h: Hub, i: nat, h': Hub, client: Client)
    requires i < |h.entries|
  {
    && |h'.entries| == |h.entries| && h'.entries[i].client == Some(client) && h'.entries[i].name == h.entries[i].name
    && forall k :: 0 <= k < |h.entries| && k != i ==> h'.entries[k] == h.entries[k]
  }

  lemma KeptServes(h: Hub, i: nat, h': Hub, accepted: map<string, seq<string>>, specs: seq<string>)
    requires i < |h.entries| && h.entries[i].client.Some? && OneChanged(h, i, h', h.entries[i].client.value)
    requires DistinctNames(h.entries) && OthersServed(h, i, accepted) && Kept(h.tools, h'.tools)
    requires var e := h'.entries[i]; Exposes(h'.tools, e.toolNames, e.name, specs, e.client.value)
    ensures AllServed(h', accepted[h.entries[i].name := specs])
  {
    hide Exposes, Kept;
    forall k | 0 <= k < |h.entries| ensures Serves(h'.entries[k], h'.tools, accepted[h.entries[i].name := specs]) {
      if k != i {
        StillServed(h.entries[k], h.tools, accepted, h'.tools, h.entries[i].name, specs);
      }
    }
  }

  lemma ServedKept(h: Hub, i: nat, h': Hub, accepted: map<string, seq<string>>, specs: seq<string>)
    requires i < |h.entries| && h.entries[i].client.Some? && OneChanged(h, i, h', h.entries[i].client.value)
    requires AllBound(h) && OthersServed(h, i, accepted) && AllServed(h', accepted[h.entries[i].name := specs])
    requires h.tools.Keys <= h'.tools.Keys
    ensures Kept(h.tools, h'.tools)
    ensures var e := h'.entries[i]; Exposes(h'.tools, e.toolNames, e.name, specs, e.client.value)
  {
    hide Exposes, NameOf, Serves;
    assert Serves(h'.entries[i], h'.tools, accepted[h.entries[i].name := specs]);
    forall n | n in h.tools ensures h'.tools[n] == h.tools[n] {
      assert Bound(h, n);
      var k := IndexOf(h.entries, h.tools[n].server);
      assert Serves(h.entries[k], h.tools, accepted);
      assert Serves(h'.entries[k], h'.tools, accepted[h.entries[i].name := specs]);
      SameBinding(h.entries[k], h.tools, h'.tools, accepted, h.entries[i].name, specs, n);
    }
    ServesExposes(h'.entries[i], h'.tools, accepted, specs);
  }

  lemma ServesExposes(
    e: Entry, tools: map<string, Binding>, accepted: map<string, seq<string>>, specs: seq<string>)
    requires e.client.Some? && Serves(e, tools, accepted[e.name := specs])
    ensures Exposes(tools, e.toolNames, e.name, specs, e.client.value)
  {
  }

  lemma StillServed(e: Entry, tools: map<string, Binding>, accepted: map<string, seq<string>>,
                    tools': map<string, Binding>, server: string, specs: seq<string>)
    requires Serves(e, tools, accepted) && Kept(tools, tools') && e.name != server
    ensures Serves(e, tools', accepted[server := specs])
  {
  }

  lemma SameBinding(e: Entry, tools: map<string, Binding>, tools': map<string, Binding>,
                    accepted: map<string, seq<string>>, server: string, specs: seq<string>, n: string)
    requires Serves(e, tools, accepted) && Serves(e, tools', accepted[server := specs]) && e.name != server
    requires n in e.toolNames && n in tools && n in tools'
    ensures tools'[n] == tools[n]
  {
    var k :| 0 <= k < |e.toolNames| && e.toolNames[k] == n;
  }

  lemma UnregisterServes(h: Hub, i: nat, accepted: map<string, seq<string>>)
    requires i < |h.entries| && DistinctNames(h.entries) && AllBound(h) && AllServed(h, accepted)
    ensures |Unregister(h, i).entries| == |h.entries| && OthersServed(Unregister(h, i), i, accepted)
  {
    hide Names, NameOf, Serves, AllBound, Lookup, IndexOf;
    MemberNames(h.entries[i].toolNames);
    var h' := Unregister(h, i);
    UnregisterKeeps(h, i);
    forall k | 0 <= k < |h'.entries| && k != i ensures Serves(h'.entries[k], h'.tools, accepted) {
      assert Serves(h.entries[k], h.tools, accepted) && Serves(h.entries[i], h.tools, accepted);
      assert h.entries[k].name != h.entries[i].name;
      ServedWithout(h.entries[k], h.entries[i], h.tools, accepted);
      assert h'.tools == h.tools - Names(h.entries[i].toolNames);
    }
  }

  /** Two servers that are served share no name. */
  lemma ServedWithout(e: Entry, other: Entry, tools: map<string, Binding>, accepted: map<string, seq<string>>)
    requires Serves(e, tools, accepted) && Serves(other, tools, accepted) && e.name != other.name
    ensures Serves(e, tools - Names(other.toolNames), accepted)
  {
    hide Names;
    MemberNames(other.toolNames);
    forall k | 0 <= k < |e.toolNames| && e.client.Some? ensures e.toolNames[k] !in other.toolNames {
      assert tools[e.toolNames[k]].server == e.name;
      assert forall j :: 0 <= j < |other.toolNames| ==> tools[other.toolNames[j]].server == other.name;
    }
  }

  // ---------------------------------------------------------------- steps

  /** What an open hub keeps, with the lists it accepts. */
  ghost predicate Good(h: Hub, accepted: map<string, seq<string>>) {
    h.closed || AllServed(h, accepted)
  }

  lemma BootServesIff(h: Hub, name: string, dialed: Option<Dialed>, accepted: map<string, seq<string>>)
    requires Inv(h) && !h.closed && AllServed(h, accepted) && Lookup(h.entries, name) == None
    ensures AllServed(Boot(h, name, dialed), Heard(accepted, name, dialed))
       <==> (dialed.Some? ==> CleanAt(h, name, dialed.value.specs, dialed.value.client))
  {
    hide AllDown, Register, Clean, Lookup, NameOf, Exposes;
    Unknown(h.entries, name);
    var client := if dialed.Some? then Some(dialed.value.client) else None;
    var h1 := h.(entries := h.entries + [Entry(name, client, [])]);
    NewEntry(h, name, client, accepted);
    if dialed.Some? {
      Grown(h.entries, Entry(name, client, []));
      RegisterServesIff(h1, |h.entries|, dialed.value.specs, dialed.value.client, accepted);
    }
  }

  lemma NewEntry(h: Hub, name: string, client: Option<Client>, accepted: map<string, seq<string>>)
    requires Inv(h) && AllServed(h, accepted) && Lookup(h.entries, name) == None
    ensures var h1 := h.(entries := h.entries + [Entry(name, client, [])]);
            && OthersServed(h1, |h.entries|, accepted) && AllBound(h1)
            && (client.None? ==> AllServed(h1, accepted))
  {
    hide Lookup, NameOf, Exposes;
    Grown(h.entries, Entry(name, client, []));
    var h1 := h.(entries := h.entries + [Entry(name, client, [])]);
    forall n | n in h1.tools ensures Bound(h1, n) && h1.tools[n].server != name { assert Bound(h, n); }
    forall k | 0 <= k < |h.entries| ensures Serves(h1.entries[k], h1.tools, accepted) {
      assert Serves(h.entries[k], h.tools, accepted);
    }
  }

  /** Connecting one more server does not give back a name that was lost. */
  lemma StillLost(h: Hub, name: string, dialed: Option<Dialed>, accepted: map<string, seq<string>>)
    requires !AllServed(h, accepted) && Lookup(h.entries, name) == None && h.used == h.tools.Keys
    ensures !AllServed(Boot(h, name, dialed), Heard(accepted, name, dialed))
  {
    hide Expose, Names, Lookup, NameOf;
    var h', accepted' := Boot(h, name, dialed), Heard(accepted, name, dialed);
    var k :| 0 <= k < |h.entries| && !Serves(h.entries[k], h.tools, accepted);
    Unknown(h.entries, name);
    assert h'.entries[k] == h.entries[k];
    if dialed.Some? {
      ExposeBinds(Exposure(h.used, h.tools, []), name, dialed.value.specs, dialed.value.client);
      var y := Expose(Exposure(h.used, h.tools, []), name, dialed.value.specs, dialed.value.client);
      MemberNames(y.names);
      assert forall n :: n in h'.tools && h'.tools[n].server != name ==> n in h.tools && h.tools[n] == h'.tools[n];
    }
    if Serves(h'.entries[k], h'.tools, accepted') {
      ServedBefore(h.entries[k], h.tools, accepted, h'.tools, accepted', name);
    }
  }

  lemma ServedBefore(e: Entry, tools: map<string, Binding>, accepted: map<string, seq<string>>,
                     tools': map<string, Binding>, accepted': map<string, seq<string>>, name: string)
    requires e.name != name && e.name in accepted' ==> e.name in accepted && accepted'[e.name] == accepted[e.name]
    requires forall n :: n in tools' && tools'[n].server != name ==> n in tools && tools[n] == tools'[n]
    requires e.name != name && Serves(e, tools', accepted')
    ensures Serves(e, tools, accepted)
  {
  }

  lemma {:induction false} BootAllServesIff(
    h: Hub, results: seq<(string, Option<Dialed>)>, accepted: map<string, seq<string>>)
    requires Inv(h) && !h.closed && AllServed(h, accepted) && Enabled(h, Started(results))
    ensures AllServed(BootAll(h, results), Booted(accepted, results)) <==> CleanBoot(h, results)
    decreases |results|
  {
    hide Inv, AllServed, Boot, Lookup, CleanAt;
    if results != [] {
      var n := |results| - 1;
      var front := results[..n];
      var (name, dialed) := results[n];
      var h0, accepted0 := BootAll(h, front), Booted(accepted, front);
      BootAllServesIff(h, front, accepted);
      BootAllKeeps(h, front);
      if AllServed(h0, accepted0) {
        BootServesIff(h0, name, dialed, accepted0);
      } else {
        InvUsed(h0);
        StillLost(h0, name, dialed, accepted0);
      }
    }
  }

  lemma InvUsed(h: Hub)
    requires Inv(h)
    ensures h.used == h.tools.Keys
  {
  }

  lemma DropServes(h: Hub, name: string, maxAttempts: nat, accepted: map<string, seq<string>>)
    requires Inv(h) && Good(h, accepted)
    ensures Good(Drop(h, name, maxAttempts), accepted)
  {
    hide AllDown, Exposes, Unregister, NameOf;
    var i := IndexOf(h.entries, name);
    if i < |h.entries| && !h.closed && name !in h.attempts {
      UnregisterServes(h, i, accepted);
      UnregisterRest(h, i);
      var h1, h' := Unregister(h, i), Drop(h, name, maxAttempts);
      forall k | 0 <= k < |h'.entries| ensures Serves(h'.entries[k], h'.tools, accepted) {
        assert k != i ==> Serves(h1.entries[k], h1.tools, accepted);
      }
    }
  }

  lemma RedialServesIff(
    h: Hub, name: string, dialed: Option<Dialed>, maxAttempts: nat, accepted: map<string, seq<string>>)
    requires Inv(h) && Good(h, accepted)
    ensures Good(Redial(h, name, dialed, maxAttempts), Accepted(h, accepted, Redialed(name, dialed)))
       <==> CleanStep(h, Redialed(name, dialed))
  {
    hide AllBound, AllDown, AllServed, Register, Clean, IndexOf, Lookup;
    if Adopts(h, name, dialed) {
      var i, d := IndexOf(h.entries, name), dialed.value;
      var h1 := h.(attempts := h.attempts - {name}, entries := h.entries[i := h.entries[i].(client := Some(d.client))]);
      Adopted(h, i, name, d.client);
      AdoptedOthers(h, h1, i, d.client, accepted);
      RegisterServesIff(h1, i, d.specs, d.client, accepted);
      RegisterRest(h1, i, d.specs, d.client);
    } else {
      var h' := Redial(h, name, dialed, maxAttempts);
      assert h'.entries == h.entries && h'.tools == h.tools && h'.closed == h.closed;
      SameServed(h, h', accepted);
    }
  }

  lemma AdoptedOthers(h: Hub, h1: Hub, i: nat, client: Client, accepted: map<string, seq<string>>)
    requires i < |h.entries| && AllServed(h, accepted) && h1.tools == h.tools
    requires h1.entries == h.entries[i := h.entries[i].(client := Some(client))]
    requires forall n :: n in h1.tools ==> h1.tools[n].server != h.entries[i].name
    ensures OthersServed(h1, i, accepted)
  {
    forall k | 0 <= k < |h1.entries| && k != i ensures Serves(h1.entries[k], h1.tools, accepted) {
      assert Serves(h.entries[k], h.tools, accepted);
    }
  }

  lemma SameServed(h: Hub, h': Hub, accepted: map<string, seq<string>>)
    requires h'.entries == h.entries && h'.tools == h.tools
    ensures AllServed(h', accepted) <==> AllServed(h, accepted)
  {
  }

  lemma ListedServesIff(h: Hub, key: Key, specs: Option<seq<string>>, accepted: map<string, seq<string>>)
    requires Inv(h) && Good(h, accepted)
    ensures Good(Listed(h, key, specs), Accepted(h, accepted, ListArrived(key, specs)))
       <==> CleanStep(h, ListArrived(key, specs))
  {
    hide AllBound, AllDown, AllServed, Register, Unregister, Clean, Lookup, DistinctNames, OthersServed;
    if Accepts(h, key, specs) {
      var i, client := IndexOf(h.entries, key.server), h.flights[key].client;
      var h1 := h.(flights := h.flights[key := Returned]);
      SameBound(h, h1);
      SameServed(h, h1, accepted);
      UnregisterServes(h1, i, accepted);
      UnregisterKeeps(h1, i);
      UnregisterRest(h1, i);
      SameUnregister(h, h1, i);
      RegisterServesIff(Unregister(h1, i), i, specs.value, client, accepted);
      RegisterRest(Unregister(h1, i), i, specs.value, client);
    } else {
      var h' := Listed(h, key, specs);
      assert h'.entries == h.entries && h'.tools == h.tools && h'.closed == h.closed;
      SameServed(h, h', accepted);
    }
  }

  lemma SameBound(h: Hub, h1: Hub)
    requires AllBound(h) && h1.entries == h.entries && h1.tools == h.tools
    ensures AllBound(h1)
  {
    forall n | n in h1.tools ensures Bound(h1, n) { assert Bound(h, n); }
  }

  lemma SameUnregister(h: Hub, h1: Hub, i: nat)
    requires i < |h.entries| && h1.entries == h.entries && h1.used == h.used && h1.tools == h.tools
    ensures Unregister(h1, i).used == Unregister(h, i).used && Unregister(h1, i).tools == Unregister(h, i).tools
  {
  }

  lemma QuietServes(h: Hub, key: Key, accepted: map<string, seq<string>>)
    requires Good(h, accepted)
    ensures Good(Trigger(h, key), accepted) && Good(Turn(h, key), accepted)
    ensures Good(if h.closed then h.(entries := []) else h, accepted)
  {
    hide Exposes;
  }

  /** From a state in which all servers are served, a step leads to such a state if and only if
      it takes over no name. */
  lemma StepServesIff(h: Hub, e: Event, maxAttempts: nat, accepted: map<string, seq<string>>)
    requires Inv(h) && Enabled(h, e) && Good(h, accepted)
    ensures Good(Step(h, e, maxAttempts), Accepted(h, accepted, e)) <==> CleanStep(h, e)
  {
    hide Inv, Drop, Redial, Listed, Trigger, Turn, BootAll, Close, Accepts, Adopts, CleanAt, AllServed;
    match e
    case Started(results) =>
      if !h.closed {
        BootAllServesIff(h, results, accepted);
        BootAllKeeps(h, results);
      }
    case Dropped(server) => DropServes(h, server, maxAttempts, accepted);
    case Redialed(server, dialed) => RedialServesIff(h, server, dialed, maxAttempts, accepted);
    case ListArrived(key, specs) => ListedServesIff(h, key, specs, accepted);
    case ListChanged(key) => QuietServes(h, key, accepted);
    case LoopTurns(key) => QuietServes(h, key, accepted);
    case CloseBegins => CloseKeeps(h);
    case CloseEnds => QuietServes(h, Key("", Tools), accepted);
  }

  // ---------------------------------------------------------------- runs

  predicate CleanRun(h: Hub, events: seq<Event>, maxAttempts: nat)
    decreases |events|
  {
    events == [] || (CleanStep(h, events[0]) && CleanRun(Step(h, events[0], maxAttempts), events[1..], maxAttempts))
  }

  /** All servers are served at every moment of the run. */
  ghost predicate ServedThroughout(
    h: Hub, accepted: map<string, seq<string>>, events: seq<Event>, maxAttempts: nat)
    decreases |events|
  {
    Good(h, accepted) &&
    (events == [] || ServedThroughout(Step(h, events[0], maxAttempts), Accepted(h, accepted, events[0]), events[1..],
                                      maxAttempts))
  }

  /** Every interleaving serves every connected server at every moment, if and only if no
      registration in it takes over a name. */
  lemma {:induction false} EveryRunServesIff(
    h: Hub, accepted: map<string, seq<string>>, events: seq<Event>, maxAttempts: nat)
    requires Inv(h) && Good(h, accepted) && Possible(h, events, maxAttempts)
    ensures ServedThroughout(h, accepted, events, maxAttempts) <==> CleanRun(h, events, maxAttempts)
    decreases |events|
  {
    hide Inv, Good, Step, Enabled, CleanStep, Accepted;
    if events != [] {
      var h', accepted' := Step(h, events[0], maxAttempts), Accepted(h, accepted, events[0]);
      StepKeeps(h, events[0], maxAttempts);
      StepServesIff(h, events[0], maxAttempts, accepted);
      if Good(h', accepted') {
        EveryRunServesIff(h', accepted', events[1..], maxAttempts);
      }
    }
  }

  lemma StartServes()
    ensures Good(START, map[])
  {
  }

  // ---------------------------------------------------------------- lost tools

  lemma Apart(s: string)
    ensures s + BARS != s + DOT && s + DOT != s + SLASH && s + BARS != s + SLASH
  {
    assert (s + BARS)[|s|] == '_' && (s + DOT)[|s|] == '.' && (s + SLASH)[|s|] == '/';
  }

  lemma BootOne(h: Hub, name: string, dialed: Option<Dialed>)
    ensures BootAll(h, [(name, dialed)]) == Boot(h, name, dialed)
    ensures CleanBoot(h, [(name, dialed)])
        ==> (dialed.Some? ==> CleanAt(h, name, dialed.value.specs, dialed.value.client))
  {
    hide Boot, CleanAt;
    var front := [(name, dialed)][..0];
    assert BootAll(h, front) == h && CleanBoot(h, front);
  }

  lemma BootMore(h: Hub, front: seq<(string, Option<Dialed>)>, name: string, dialed: Option<Dialed>)
    ensures BootAll(h, front + [(name, dialed)]) == Boot(BootAll(h, front), name, dialed)
    ensures CleanBoot(h, front + [(name, dialed)])
        ==> (dialed.Some? ==> CleanAt(BootAll(h, front), name, dialed.value.specs, dialed.value.client))
  {
    hide Boot, CleanAt;
    assert (front + [(name, dialed)])[..|front|] == front;
  }

  lemma ExposeThree(server: string, a: string, b: string, c: string, client: Client)
    requires Rivals((server, a), (server, b), (server, c))
    ensures var x, y := McpToolName(server, a), HashedName(server, b);
            var done := Expose(Exposure({}, map[], []), server, [a, b, c], client);
            && done.names == [x, y, y]
            && done.tools == map[x := Binding(server, client, a), y := Binding(server, client, c)]
  {
    hide McpToolName, HashedName;
    var x0 := Exposure({}, map[], []);
    assert [a, b, c][..2] == [a, b] && [a, b][..1] == [a] && [a][..0] == [];
    assert Expose(x0, server, [], client) == x0;
    assert Expose(x0, server, [a], client) == ExposeOne(x0, server, a, client);
    assert Expose(x0, server, [a, b], client) == ExposeOne(ExposeOne(x0, server, a, client), server, b, client);
  }

  /** Within one server: of the tools `stem__`, `stem.[` and `stem/:` the second is called by
      no name. */
  lemma LostWithinServer(server: string, stem: string, client: Client)
    requires |server| + |stem| <= 19
    ensures var specs := [stem + BARS, stem + DOT, stem + SLASH];
            var start := Started([(server, Some(Dialed(client, specs)))]);
            var h := Step(START, start, 0);
            && Enabled(START, start) && !CleanStep(START, start)
            && |h.entries| == 1 && h.entries[0].client == Some(client)
            && forall n :: n in h.tools ==> h.tools[n].tool != stem + DOT
  {
    hide McpToolName, HashedName, Expose, Clean;
    var a, b, c := stem + BARS, stem + DOT, stem + SLASH;
    RivalTools(server, stem);
    Apart(stem);
    ExposeThree(server, a, b, c, client);
    BootOne(START, server, Some(Dialed(client, [a, b, c])));
    var x0 := Exposure({}, map[], []);
    CleanIff(x0, server, [a, b, c], client);
    var y := Expose(x0, server, [a, b, c], client);
    assert y.names[0..] == y.names && [a, b, c][1] == b;
    assert y.tools[y.names[1]].tool == c;
  }

  lemma OneTool(h: Hub, server: string, tool: string, client: Client)
    requires h.used == h.tools.Keys
    ensures var h', name := Boot(h, server, Some(Dialed(client, [tool]))), FreeName(h.used, server, tool);
            var binding := Binding(server, client, tool);
            && h'.entries == h.entries + [Entry(server, Some(client), [name])]
            && h'.used == h.used + {name} == h'.tools.Keys && h'.tools == h.tools[name := binding]
            && (CleanAt(h, server, [tool], client) ==> (name in h.tools ==> h.tools[name] == binding))
  {
    hide FreeName;
    var x := Exposure(h.used, h.tools, []);
    assert [tool][..0] == [];
    assert Expose(x, server, [], client) == x;
    assert Expose(x, server, [tool], client) == ExposeOne(x, server, tool, client);
    assert Expose(x, server, [tool], client).names == [FreeName(h.used, server, tool)];
  }

  /** Across servers: of `stem__`, `stem.[` and `stem/:`, all connected and offering the same
      tool, the second has none that can be called. */
  lemma LostAcrossServers(stem: string, tool: string, client: Client)
    requires |stem| + |tool| <= 19
    ensures var dialed := Some(Dialed(client, [tool]));
            var start := Started([(stem + BARS, dialed), (stem + DOT, dialed), (stem + SLASH, dialed)]);
            var h := Step(START, start, 0);
            && Enabled(START, start) && !CleanStep(START, start)
            && |h.entries| == 3 && h.entries[1].client == Some(client)
            && forall n :: n in h.tools ==> h.tools[n].server != stem + DOT
  {
    hide McpToolName, HashedName, Boot, CleanBoot, CleanAt, BootAll;
    var a, b, c, dialed := stem + BARS, stem + DOT, stem + SLASH, Some(Dialed(client, [tool]));
    RivalServers(stem, tool);
    Apart(stem);
    BootOne(START, a, dialed);
    BootMore(START, [(a, dialed)], b, dialed);
    BootMore(START, [(a, dialed), (b, dialed)], c, dialed);
    assert [(a, dialed)] + [(b, dialed)] == [(a, dialed), (b, dialed)];
    assert [(a, dialed), (b, dialed)] + [(c, dialed)] == [(a, dialed), (b, dialed), (c, dialed)];
    var h1 := Boot(START, a, dialed);
    var h2 := Boot(h1, b, dialed);
    OneTool(START, a, tool, client);
    OneTool(h1, b, tool, client);
    OneTool(h2, c, tool, client);
  }
}
