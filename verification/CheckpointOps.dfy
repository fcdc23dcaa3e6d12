/** Every operation keeps the invariants of CheckpointInvariant, so every run does. */
module CheckpointOps {
  import opened Options
  import opened CheckpointSteps
  import opened CheckpointInvariant

  /** A timeline only ever gains a checkpoint taken now, by this session, with a fresh id. */
  ghost predicate Grown(s: State, s': State, session: Option<nat>, now: int) {
    && s'.repo.nextId >= s.repo.nextId
    && forall c :: c in Line(s') ==>
         c in Line(s) || (c.id >= s.repo.nextId && c.createdAt == now && c.sessionId == session)
  }

  /** What one operation keeps. */
  ghost predicate Kept(s: State, s': State, session: Option<nat>, now: int) {
    && Inv(s') && Shrinks(s.repo, s'.repo) && Grown(s, s', session, now)
    && (Pinned(s) ==> Pinned(s')) && Leaked(s') == Leaked(s)
  }

  lemma RedoRefsPush(redo: seq<RedoStep>, e: RedoStep)
    ensures RedoRefs(redo + [e]) == RedoRefs(redo) + Refs(e)
  {
    var all := redo + [e];
    assert forall x :: x in all <==> x in redo || x == e;
  }

  lemma NoRefs()
    ensures RedoRefs([]) == {}
  {
  }

  lemma RedoRefsPop(redo: seq<RedoStep>)
    requires redo != []
    ensures RedoRefs(redo) == RedoRefs(redo[..|redo| - 1]) + Refs(redo[|redo| - 1])
  {
    var top := |redo| - 1;
    assert redo == redo[..top] + [redo[top]];
    RedoRefsPush(redo[..top], redo[top]);
  }

  lemma ApartRefs(s: State)
    requires Inv(s)
    ensures RedoRefs(s.redo) !! Ids(s.list)
    ensures forall id :: id in RedoRefs(s.redo) ==> id < s.repo.nextId
    ensures forall id :: id in Ids(s.list) ==> id < s.repo.nextId
  {
    forall id | id in RedoRefs(s.redo) ensures id !in Ids(s.list) && id < s.repo.nextId {
      var e :| e in s.redo && id in e.ownedRefs;
      var i :| 0 <= i < |s.redo| && s.redo[i] == e;
      assert StepOk(e, s.repo) && id in Refs(s.redo[i]);
    }
  }

  lemma IdsSplit(a: seq<Checkpoint>, b: seq<Checkpoint>)
    ensures Ids(a + b) == Ids(a) + Ids(b)
  {
    assert forall c :: c in a + b <==> c in a || c in b;
  }

  /** Within one timeline an id names one position. */
  lemma LineDistinct(s: State, i: nat, j: nat)
    requires Ordered(Line(s)) && i < |s.list| && j < |s.list| && i != j
    ensures s.list[i].id != s.list[j].id
  {
    assert Line(s)[i] == s.list[i] && Line(s)[j] == s.list[j];
  }

  lemma PrefixApart(s: State, k: nat)
    requires Ordered(Line(s)) && k <= |s.list|
    ensures Ids(s.list[..k]) !! Ids(s.list[k..])
  {
    forall a, b | a in s.list[..k] && b in s.list[k..] ensures a.id != b.id {
      var i :| 0 <= i < k && s.list[..k][i] == a;
      var j :| 0 <= j < |s.list| - k && s.list[k..][j] == b;
      LineDistinct(s, i, j + k);
    }
  }

  // ---------------------------------------------------------------- undo

  /** The list split at the checkpoint an undo landed on. */
  lemma SplitAt(s: State, k: nat)
    requires Inv(s) && k < |s.list|
    ensures Ids(s.list) == Ids(s.list[..k]) + {s.list[k].id} + Ids(s.list[k + 1..])
    ensures s.list[k].id !in Ids(s.list[..k]) && s.list[k].id !in Ids(s.list[k + 1..])
    ensures Ids(s.list[..k]) !! Ids(s.list[k + 1..])
    ensures Line(s) == s.list[..k + 1] + s.list[k + 1..] + Forward(s.redo)
    ensures s.list[..k + 1] == s.list[..k] + [s.list[k]]
  {
    PrefixApart(s, k);
    PrefixApart(s, k + 1);
    assert s.list == s.list[..k + 1] + s.list[k + 1..];
    IdsSplit(s.list[..k + 1], s.list[k + 1..]);
    IdsSplit(s.list[..k], [s.list[k]]);
    assert s.list[k] in s.list[k..] && s.list[k] in s.list[..k + 1];
  }

  lemma UndoUncaptured(s: State, env: Env, session: Option<nat>)
    requires Inv(s) && !env.captures && Undo(s, env).value.Some?
    ensures Kept(s, Undo(s, env).state, session, env.now)
  {
    hide Inv, PopRestorable, RepoOk, Shrinks, Line, Pinned, Exact, Checkout;
    InvParts(s);
    CommitTreeOk(s.repo, env);
    var r1 := CommitTree(s.repo, env).0;
    PopMeetsSpec(s.list, r1, env.junk);
    var p := PopRestorable(s.list, r1, env.junk);
    var k := |p.list|;
    var s' := Undo(s, env).state;
    DeleteRefsOk(p.repo, {s.list[k].id});
    assert s'.repo == DeleteRefs(p.repo, {s.list[k].id});
    assert s.list[k..] == [s.list[k]] + s.list[k + 1..];
    IdsSplit([s.list[k]], s.list[k + 1..]);
    CutAt(s, s', k);
  }

  /** The list lost everything from `k` on, refs included, and nothing was stacked. */
  lemma CutAt(s: State, s': State, k: nat)
    requires Inv(s) && RepoOk(s'.repo) && k <= |s.list|
    requires s'.list == s.list[..k] && s'.redo == s.redo && s'.last == None
    requires s'.repo.nextId == s.repo.nextId + 1 && s'.repo.refs == s.repo.refs - Ids(s.list[k..])
    ensures Inv(s') && Shrinks(s.repo, s'.repo) && (Pinned(s) ==> Pinned(s')) && Leaked(s') == Leaked(s)
    ensures forall c :: c in Line(s') ==> c in Line(s)
  {
    hide Inv, Ordered, StackOk, Ids, RedoRefs, RepoOk;
    InvParts(s);
    ShrinkKeeps(s.list, s.redo, s.repo, s'.repo);
    ApartRefs(s);
    PrefixApart(s, k);
    IdsSplit(s.list[..k], s.list[k..]);
    assert s.list == s.list[..k] + s.list[k..];
    assert Line(s) == s.list[..k] + s.list[k..] + Forward(s.redo);
    OrderedDrop(s.list[..k], s.list[k..], Forward(s.redo));
    ApartByRefs(s'.list, s'.redo);
    PartsInv(s');
  }

  /** The step an undo stacks: it restores the tree captured before the undo. */
  function UndoneStep(s: State, env: Env, cp: Checkpoint): RedoStep {
    RedoStep(Commit(Staged(s.repo, env.seeded), env.meta), cp.title, [cp], [s.repo.nextId, cp.id], None)
  }

  /** Undo landed at position `k`: everything above it is gone with its ref, and `k` itself
      moved to the redo stack, where its ref and the fresh capture stay pinned. */
  ghost predicate Landed(s: State, env: Env, o: Outcome<Checkpoint>, k: nat) {
    && k < |s.list| && o.value == Some(s.list[k]) && !s.list[k].green
    && o.state.list == s.list[..k]
    && o.state.redo == s.redo + [UndoneStep(s, env, s.list[k])]
    && o.state.last == Some(|s.redo|)
    && RepoOk(o.state.repo) && Shrinks(s.repo, o.state.repo)
    && o.state.repo.nextId == s.repo.nextId + 1
    && o.state.repo.refs == s.repo.refs[s.repo.nextId := UndoneStep(s, env, s.list[k]).commit] - Ids(s.list[k + 1..])
    && o.state.repo.work == Checkout(s.repo, s.list[k].commit.tree)
    && o.state.repo.tracked == s.repo.tracked && o.state.repo.ignored == s.repo.ignored
    && (forall c :: c in s.list[k + 1..] ==> c.green || c.commit !in o.state.repo.objects)
  }

  lemma UndoLands(s: State, env: Env)
    requires RepoOk(s.repo) && env.captures && Undo(s, env).value.Some?
    ensures Landed(s, env, Undo(s, env), |Undo(s, env).state.list|)
  {
    CommitTreeOk(s.repo, env);
    var r1 := CommitTree(s.repo, env).0;
    PopMeetsSpec(s.list, r1, env.junk);
  }

  lemma LandedStack(s: State, env: Env, o: Outcome<Checkpoint>, k: nat)
    requires Inv(s) && Landed(s, env, o, k)
    ensures StackOk(o.state.redo, o.state.repo) && Apart(o.state.list, o.state.redo)
  {
    hide Inv, Ordered, RepoOk, Shrinks, RedoRefs, Staged, Checkout;
    InvParts(s);
    var e := UndoneStep(s, env, s.list[k]);
    ShrinkKeeps(s.list, s.redo, s.repo, o.state.repo);
    ApartRefs(s);
    SplitAt(s, k);
    assert s.list[k].id in Ids(s.list) && s.list[k] in s.list;
    assert s.repo.nextId !in Ids(s.list[k + 1..]);
    assert StepOk(e, o.state.repo);
    assert Refs(e) == {s.repo.nextId, s.list[k].id};
    StackOne(e, o.state.repo);
    assert RedoRefs(s.redo) !! Refs(e);
    StackAppend(s.redo, [e], o.state.repo);
    ApartByRefs(o.state.list, o.state.redo);
  }

  lemma StackOne(e: RedoStep, r: Repo)
    requires StepOk(e, r)
    ensures StackOk([e], r) && RedoRefs([e]) == Refs(e)
  {
    RedoRefsPush([], e);
    assert [] + [e] == [e];
  }

  lemma LandedInv(s: State, env: Env, o: Outcome<Checkpoint>, k: nat)
    requires Inv(s) && Landed(s, env, o, k)
    ensures Inv(o.state) && Line(o.state) == s.list[..k + 1] + Forward(s.redo)
  {
    hide Inv, Ordered, RepoOk, Shrinks, RedoRefs, Staged, Checkout, StackOk, Apart, Ids;
    InvParts(s);
    LandedStack(s, env, o, k);
    ShrinkKeeps(s.list, s.redo, s.repo, o.state.repo);
    SplitAt(s, k);
    ForwardPush(s.redo, UndoneStep(s, env, s.list[k]));
    assert Line(o.state) == s.list[..k + 1] + Forward(s.redo);
    OrderedDrop(s.list[..k + 1], s.list[k + 1..], Forward(s.redo));
    PartsInv(o.state);
  }

  lemma LandedOwned(s: State, env: Env, o: Outcome<Checkpoint>, k: nat)
    requires Inv(s) && Landed(s, env, o, k)
    ensures Pinned(s) ==> Pinned(o.state)
    ensures Leaked(o.state) == Leaked(s)
  {
    var e := UndoneStep(s, env, s.list[k]);
    ApartRefs(s);
    SplitAt(s, k);
    assert Refs(e) == {s.repo.nextId, s.list[k].id};
    RedoRefsPush(s.redo, e);
    var above := Ids(s.list[k + 1..]);
    assert Owned(o.state) == (Owned(s) - above) + {s.repo.nextId};
    assert o.state.repo.refs.Keys == (s.repo.refs.Keys + {s.repo.nextId}) - above;
  }

  lemma UndoCaptured(s: State, env: Env, session: Option<nat>)
    requires Inv(s) && env.captures && Undo(s, env).value.Some?
    ensures Kept(s, Undo(s, env).state, session, env.now)
  {
    var o := Undo(s, env);
    UndoLands(s, env);
    var k := |o.state.list|;
    LandedInv(s, env, o, k);
    LandedOwned(s, env, o, k);
    assert forall c :: c in Line(o.state) ==> c in Line(s);
  }

  lemma UndoEmpty(s: State, env: Env, session: Option<nat>)
    requires Inv(s) && Undo(s, env).value.None?
    ensures Kept(s, Undo(s, env).state, session, env.now)
  {
    CommitTreeOk(s.repo, env);
    var (r1, pre) := CommitTree(s.repo, env);
    PopMeetsSpec(s.list, r1, env.junk);
    var p := PopRestorable(s.list, r1, env.junk);
    var s' := Undo(s, env).state;
    var extra := if pre.Some? then {pre.value.id} else {};
    DeleteRefsOk(p.repo, extra);
    assert s'.repo.refs == p.repo.refs - extra;
    assert s'.repo == DeleteRefs(p.repo, extra);
    assert s.list[0..] == s.list && s.list[..0] == [];
    CutAt(s, s', 0);
  }

  lemma UndoKeeps(s: State, env: Env, session: Option<nat>)
    requires Inv(s)
    ensures Kept(s, Undo(s, env).state, session, env.now)
  {
    hide Inv, Undo, Kept;
    if Undo(s, env).value.None? {
      UndoEmpty(s, env, session);
    } else if env.captures {
      UndoCaptured(s, env, session);
    } else {
      UndoUncaptured(s, env, session);
    }
  }

  // ---------------------------------------------------------------- restoreTo

  /** The phantom step: it restores the tree that was there before the rewind. */
  function PhantomStep(s: State, env: Env): RedoStep
    requires s.list != []
  {
    RedoStep(Commit(Staged(s.repo, env.seeded), env.meta), s.list[|s.list| - 1].title, [], [s.repo.nextId], None)
  }

  function Bottom(s: State, env: Env, phantom: bool): seq<RedoStep>
    requires s.list != []
  {
    if phantom then [PhantomStep(s, env)] else []
  }

  /** The manager rewound to position `k`: all newer checkpoints moved to the redo stack,
      over a phantom step unless the newest of them already holds the pre-rewind tree. */
  ghost predicate Rewound(s: State, env: Env, o: Outcome<Checkpoint>, k: nat, phantom: bool) {
    && k < |s.list| && o.value == Some(s.list[k])
    && o.state.list == s.list[..k + 1]
    && o.state.redo == s.redo + Bottom(s, env, phantom) + OwnSteps(s.list[k + 1..])
    && o.state.last == (if phantom || k + 1 < |s.list| then Some(|s.redo|) else None)
    && RepoOk(o.state.repo) && Shrinks(s.repo, o.state.repo)
    && o.state.repo.nextId == s.repo.nextId + 1
    && o.state.repo.refs == (
         if phantom then s.repo.refs[s.repo.nextId := PhantomStep(s, env).commit] else s.repo.refs)
    && o.state.repo.work == Checkout(s.repo, s.list[k].commit.tree)
    && o.state.repo.tracked == s.repo.tracked && o.state.repo.ignored == s.repo.ignored
    && (phantom ==> env.captures)
    && (phantom && k + 1 < |s.list| && s.list[|s.list| - 1].commit in o.state.repo.objects ==>
          s.list[|s.list| - 1].commit.tree != Staged(s.repo, env.seeded))
    && (env.captures && !phantom ==>
          && k + 1 < |s.list| && s.list[|s.list| - 1].commit in o.state.repo.objects
          && s.list[|s.list| - 1].commit.tree == Staged(s.repo, env.seeded))
  }

  lemma RewindShape(s: State, env: Env, k: nat, r2: Repo, pre: Option<Capture>) returns (phantom: bool)
    requires k < |s.list| && RepoOk(r2) && Shrinks(s.repo, r2) && r2.nextId == s.repo.nextId + 1
    requires s.repo.nextId !in s.repo.refs
    requires r2.tracked == s.repo.tracked && r2.ignored == s.repo.ignored
    requires r2.work == Checkout(s.repo, s.list[k].commit.tree)
    requires if env.captures
             then var c := Commit(Staged(s.repo, env.seeded), env.meta);
                  pre == Some(Capture(s.repo.nextId, c)) && r2.refs == s.repo.refs[s.repo.nextId := c]
             else pre == None && r2.refs == s.repo.refs
    ensures Rewound(s, env, Outcome(Rewind(s.(repo := r2, last := None), k, pre), Some(s.list[k])), k, phantom)
  {
    hide RepoOk, Checkout, Staged, OwnSteps;
    var newer := s.list[k + 1..];
    if pre.Some? { HasObject(r2, s.repo.nextId); }
    phantom := pre.Some? && (newer == [] || !SameTree(r2, pre.value.commit, newer[|newer| - 1].commit));
    if pre.Some? && !phantom {
      DeleteRefsOk(r2, {pre.value.id});
      assert DeleteRef(r2, pre.value.id) == DeleteRefs(r2, {pre.value.id});
      assert s.repo.refs[pre.value.id := pre.value.commit] - {pre.value.id} == s.repo.refs;
    }
    assert newer != [] ==> newer[|newer| - 1] == s.list[|s.list| - 1];
  }

  lemma HasObject(r: Repo, id: nat)
    requires RepoOk(r) && id in r.refs
    ensures r.refs[id] in r.objects
  {
  }

  lemma RestoreRewinds(s: State, id: nat, env: Env) returns (k: nat, phantom: bool)
    requires RepoOk(s.repo) && RestoreTo(s, id, env).value.Some?
    ensures Rewound(s, env, RestoreTo(s, id, env), k, phantom)
    ensures k == IndexOf(s.list, id)
  {
    hide TryRestore, Rewind, Checkout, Staged, Rewound;
    k := IndexOf(s.list, id);
    CommitTreeOk(s.repo, env);
    var (r1, pre) := CommitTree(s.repo, env);
    TryRestoreOk(r1, s.list[k].commit, env.junk);
    var r2 := TryRestore(r1, s.list[k].commit, env.junk).0;
    SameCheckout(s.repo, r1, s.list[k].commit.tree);
    phantom := RewindShape(s, env, k, r2, pre);
  }

  lemma {:induction false} OwnStepsRefs(newer: seq<Checkpoint>)
    ensures RedoRefs(OwnSteps(newer)) == Ids(newer)
    decreases |newer|
  {
    if newer != [] {
      var c, rest := newer[0], newer[1..];
      OwnStepsRefs(rest);
      assert OwnSteps(newer) == OwnSteps(rest) + [OwnStep(c)];
      RedoRefsPush(OwnSteps(rest), OwnStep(c));
      IdsSplit([c], rest);
      assert newer == [c] + rest;
    }
  }

  lemma OwnStepsOk(newer: seq<Checkpoint>, r: Repo)
    requires ListOk(newer, r)
    requires forall i, j :: 0 <= i < j < |newer| ==> newer[i].id != newer[j].id
    ensures StackOk(OwnSteps(newer), r)
  {
    var es := OwnSteps(newer);
    forall i | 0 <= i < |newer| ensures StepOk(es[i], r) && Refs(es[i]) == {newer[|newer| - 1 - i].id} {
      assert newer[|newer| - 1 - i] in newer;
    }
  }

  lemma StackAppend(a: seq<RedoStep>, b: seq<RedoStep>, r: Repo)
    requires StackOk(a, r) && StackOk(b, r) && RedoRefs(a) !! RedoRefs(b)
    ensures StackOk(a + b, r) && RedoRefs(a + b) == RedoRefs(a) + RedoRefs(b)
  {
    forall i, j | 0 <= i < |a| && 0 <= j < |b| ensures Refs(a[i]) !! Refs(b[j]) {
      forall x | x in Refs(a[i]) ensures x in RedoRefs(a) {}
      forall x | x in Refs(b[j]) ensures x in RedoRefs(b) {}
    }
    assert forall e :: e in a + b <==> e in a || e in b;
  }

  lemma ApartByRefs(list: seq<Checkpoint>, redo: seq<RedoStep>)
    requires RedoRefs(redo) !! Ids(list)
    ensures Apart(list, redo)
  {
    forall i | 0 <= i < |redo| ensures Refs(redo[i]) !! Ids(list) {
      forall x | x in Refs(redo[i]) ensures x in RedoRefs(redo) {}
    }
  }

  lemma RewoundStack(s: State, env: Env, o: Outcome<Checkpoint>, k: nat, phantom: bool)
    requires Inv(s) && Rewound(s, env, o, k, phantom)
    ensures StackOk(o.state.redo, o.state.repo)
    ensures RedoRefs(o.state.redo)
         == RedoRefs(s.redo) + (if phantom then {s.repo.nextId} else {}) + Ids(s.list[k + 1..])
  {
    hide Inv, RepoOk, StackOk, Apart, Ordered, Shrinks, RedoRefs, Line, Ids, OwnSteps, Bottom, Agrees;
    var newer, r := s.list[k + 1..], o.state.repo;
    InvParts(s);
    ShrinkKeeps(s.list, s.redo, s.repo, r);
    ApartRefs(s);
    SplitAt(s, k);
    forall i, j | 0 <= i < j < |newer| ensures newer[i].id != newer[j].id {
      LineDistinct(s, i + k + 1, j + k + 1);
    }
    assert ListOk(newer, r);
    OwnStepsOk(newer, r);
    OwnStepsRefs(newer);
    var bottom := Bottom(s, env, phantom);
    BottomOk(s, env, o, k, phantom);
    StackAppend(s.redo, bottom, r);
    StackAppend(s.redo + bottom, OwnSteps(newer), r);
  }

  lemma BottomOk(s: State, env: Env, o: Outcome<Checkpoint>, k: nat, phantom: bool)
    requires Rewound(s, env, o, k, phantom)
    ensures StackOk(Bottom(s, env, phantom), o.state.repo)
    ensures RedoRefs(Bottom(s, env, phantom)) == (if phantom then {s.repo.nextId} else {})
  {
    var bottom := Bottom(s, env, phantom);
    if phantom {
      RedoRefsPush([], bottom[0]);
      assert bottom == [] + [bottom[0]];
    }
  }

  lemma RewoundLine(s: State, env: Env, o: Outcome<Checkpoint>, k: nat, phantom: bool)
    requires Rewound(s, env, o, k, phantom)
    ensures Line(o.state) == Line(s)
  {
    hide OwnSteps, RepoOk, Shrinks, Checkout, Forward, Staged;
    var bottom := Bottom(s, env, phantom);
    ForwardOwnSteps(s.redo + bottom, s.list[k + 1..]);
    if phantom { ForwardPush(s.redo, bottom[0]); } else { assert s.redo + bottom == s.redo; }
    assert s.list == s.list[..k + 1] + s.list[k + 1..];
  }

  lemma RewoundLast(s: State, env: Env, o: Outcome<Checkpoint>, k: nat, phantom: bool)
    requires Rewound(s, env, o, k, phantom)
    ensures o.state.last.Some? ==> o.state.last.value < |o.state.redo|
  {
    hide RepoOk, Shrinks, Staged, Checkout;
  }

  lemma RewoundInv(s: State, env: Env, o: Outcome<Checkpoint>, k: nat, phantom: bool)
    requires Inv(s) && Rewound(s, env, o, k, phantom)
    ensures Inv(o.state)
    ensures Owned(o.state) == Owned(s) + (if phantom then {s.repo.nextId} else {})
  {
    hide Inv, RepoOk, StackOk, Apart, Ordered, Shrinks, RedoRefs, Line, Ids, OwnSteps, Agrees, Staged, Checkout;
    InvParts(s);
    RewoundStack(s, env, o, k, phantom);
    RewoundLine(s, env, o, k, phantom);
    ShrinkKeeps(s.list, s.redo, s.repo, o.state.repo);
    ApartRefs(s);
    PrefixApart(s, k + 1);
    IdsSplit(s.list[..k + 1], s.list[k + 1..]);
    assert s.list == s.list[..k + 1] + s.list[k + 1..];
    assert s.repo.nextId !in Ids(s.list);
    ApartByRefs(o.state.list, o.state.redo);
    RewoundLast(s, env, o, k, phantom);
    PartsInv(o.state);
  }

  lemma RestoreRefused(s: State, id: nat, env: Env)
    requires Inv(s) && RestoreTo(s, id, env).value.None?
    ensures var s' := RestoreTo(s, id, env).state;
            && s' == s.(repo := s'.repo, last := None)
            && RepoOk(s'.repo) && Shrinks(s.repo, s'.repo) && s'.repo.refs == s.repo.refs
            && s'.repo.work == s.repo.work && s'.repo.tracked == s.repo.tracked && s'.repo.ignored == s.repo.ignored
  {
    var idx := IndexOf(s.list, id);
    if idx < |s.list| {
      CommitTreeOk(s.repo, env);
      var (r1, pre) := CommitTree(s.repo, env);
      TryRestoreOk(r1, s.list[idx].commit, env.junk);
      var r2 := TryRestore(r1, s.list[idx].commit, env.junk).0;
      DeleteRefsOk(r2, {s.repo.nextId});
      assert DeleteRef(r2, s.repo.nextId) == DeleteRefs(r2, {s.repo.nextId});
    }
  }

  lemma FreshRef(s: State)
    requires Inv(s)
    ensures s.repo.nextId !in s.repo.refs
  {
  }

  lemma RestoreToKeeps(s: State, id: nat, env: Env, session: Option<nat>)
    requires Inv(s)
    ensures Kept(s, RestoreTo(s, id, env).state, session, env.now)
  {
    hide RestoreTo, StackOk, Apart, Ordered, ListOk, RepoOk, OwnSteps, Forward;
    var o := RestoreTo(s, id, env);
    if o.value.Some? {
      var k, phantom := RestoreRewinds(s, id, env);
      FreshRef(s);
      RewoundInv(s, env, o, k, phantom);
      RewoundLine(s, env, o, k, phantom);
    } else {
      RestoreRefused(s, id, env);
      ShrinkKeeps(s.list, s.redo, s.repo, o.state.repo);
    }
  }

  // ---------------------------------------------------------------- redo

  /** What applying the top step does when its commit is alive. */
  ghost predicate Reapplied(s: State, o: Outcome<RedoResult>) {
    && s.redo != []
    && var top := |s.redo| - 1;
       var e := s.redo[top];
       && o.value == Some(RedoResult(NameOf(e), e.title, e.payload))
       && o.state.list == s.list + e.reAdd
       && o.state.redo == s.redo[..top]
       && o.state.last == (if s.last == Some(top) then None else s.last)
       && RepoOk(o.state.repo) && Shrinks(s.repo, o.state.repo)
       && o.state.repo.nextId == s.repo.nextId
       && o.state.repo.refs == s.repo.refs - (Refs(e) - Ids(e.reAdd))
       && o.state.repo.work == Checkout(s.repo, e.commit.tree)
       && o.state.repo.tracked == s.repo.tracked && o.state.repo.ignored == s.repo.ignored
  }

  lemma RedoReapplies(s: State, junk: set<Commit>)
    requires RepoOk(s.repo) && s.redo != []
    requires TryRestore(s.repo, s.redo[|s.redo| - 1].commit, junk).1
    ensures Reapplied(s, Redo(s, junk))
  {
    var e := s.redo[|s.redo| - 1];
    TryRestoreOk(s.repo, e.commit, junk);
    DeleteRefsOk(TryRestore(s.repo, e.commit, junk).0, Refs(e) - Ids(e.reAdd));
  }

  /** The state after the top step has been given up as dead. */
  function SkipTop(s: State, junk: set<Commit>): State
    requires s.redo != []
  {
    var top := |s.redo| - 1;
    var e := s.redo[top];
    State(DeleteRefs(TryRestore(s.repo, e.commit, junk).0, Refs(e)), s.list, s.redo[..top],
          if s.last == Some(top) then None else s.last)
  }

  /** The state after the top step has been applied. */
  function ApplyTop(s: State, junk: set<Commit>): State
    requires s.redo != []
  {
    var top := |s.redo| - 1;
    var e := s.redo[top];
    State(DeleteRefs(TryRestore(s.repo, e.commit, junk).0, Refs(e) - Ids(e.reAdd)), s.list + e.reAdd, s.redo[..top],
          if s.last == Some(top) then None else s.last)
  }

  lemma RedoUnfolds(s: State, junk: set<Commit>)
    requires s.redo != []
    ensures var e := s.redo[|s.redo| - 1];
            Redo(s, junk) == if TryRestore(s.repo, e.commit, junk).1
                             then Outcome(ApplyTop(s, junk), Some(RedoResult(NameOf(e), e.title, e.payload)))
                             else Redo(SkipTop(s, junk), junk)
  {
  }

  /** Every step was dead and went with its refs. */
  ghost predicate AllDead(s: State, o: Outcome<RedoResult>) {
    && o.value == None && o.state.list == s.list && o.state.redo == []
    && o.state.repo.work == s.repo.work
    && o.state.repo.refs == s.repo.refs - RedoRefs(s.redo)
  }

  /** The step at `at` was applied with its tree, its entries and its payload. */
  ghost predicate AppliedAt(s: State, o: Outcome<RedoResult>, at: nat)
    requires at < |s.redo|
  {
    var e := s.redo[at];
    && o.value == Some(RedoResult(NameOf(e), e.title, e.payload))
    && e.commit in o.state.repo.objects
    && o.state.list == s.list + e.reAdd && o.state.redo == s.redo[..at]
    && o.state.repo.work == Checkout(s.repo, e.commit.tree)
    && o.state.repo.refs == s.repo.refs - RedoRefs(s.redo[at + 1..]) - (Refs(e) - Ids(e.reAdd))
  }

  /** What a redo did: the top `k` steps were dead and went with their refs; the next one, if
      there is one, was applied. */
  ghost predicate RedoSpec(s: State, o: Outcome<RedoResult>, k: nat) {
    && k <= |s.redo| && |o.state.redo| <= |s.redo|
    && o.state.last == (if s.last.Some? && s.last.value >= |o.state.redo| then None else s.last)
    && o.state.repo.objects <= s.repo.objects && o.state.repo.nextId == s.repo.nextId
    && o.state.repo.tracked == s.repo.tracked && o.state.repo.ignored == s.repo.ignored
    && (forall e :: e in s.redo[|s.redo| - k..] ==> e.commit !in o.state.repo.objects)
    && if k == |s.redo| then AllDead(s, o) else AppliedAt(s, o, |s.redo| - k - 1)
  }

  /** Redo applies the topmost live step and releases exactly the dead ones above it. */
  lemma {:induction false} RedoMeetsSpec(s: State, junk: set<Commit>) returns (k: nat)
    requires RepoOk(s.repo) && (s.last.Some? ==> s.last.value < |s.redo|)
    ensures RedoSpec(s, Redo(s, junk), k)
    decreases |s.redo|
  {
    hide Redo, RepoOk, Checkout, RedoRefs;
    k := 0;
    if s.redo == [] {
      NoRefs();
      RedoNothing(s, junk);
    } else {
      var e := s.redo[|s.redo| - 1];
      TryRestoreOk(s.repo, e.commit, junk);
      RedoUnfolds(s, junk);
      if TryRestore(s.repo, e.commit, junk).1 {
        NoRefs();
        AppliedTop(s, junk);
      } else {
        SkippedTop(s, junk);
        var m := RedoMeetsSpec(SkipTop(s, junk), junk);
        k := m + 1;
        SpecAfterSkip(s, junk, Redo(SkipTop(s, junk), junk), m);
      }
    }
  }

  lemma RedoNothing(s: State, junk: set<Commit>)
    requires s.redo == []
    ensures Redo(s, junk) == Outcome(s, None)
  {
  }

  lemma AppliedTop(s: State, junk: set<Commit>)
    requires RepoOk(s.repo) && s.redo != [] && (s.last.Some? ==> s.last.value < |s.redo|)
    requires TryRestore(s.repo, s.redo[|s.redo| - 1].commit, junk).1 && RedoRefs([]) == {}
    ensures var e := s.redo[|s.redo| - 1];
            RedoSpec(s, Outcome(ApplyTop(s, junk), Some(RedoResult(NameOf(e), e.title, e.payload))), 0)
  {
    hide RepoOk, Checkout, RedoRefs;
    TryRestoreOk(s.repo, s.redo[|s.redo| - 1].commit, junk);
    assert s.redo[..|s.redo|] == s.redo && s.redo[|s.redo|..] == [];
  }

  lemma SkippedTop(s: State, junk: set<Commit>)
    requires RepoOk(s.repo) && s.redo != [] && !TryRestore(s.repo, s.redo[|s.redo| - 1].commit, junk).1
    ensures var e, s1 := s.redo[|s.redo| - 1], SkipTop(s, junk);
            && RepoOk(s1.repo) && e.commit !in s1.repo.objects && s1.repo.objects <= s.repo.objects
            && s1.repo.refs == s.repo.refs - Refs(e) && s1.repo.work == s.repo.work
            && s1.repo.nextId == s.repo.nextId
            && s1.repo.tracked == s.repo.tracked && s1.repo.ignored == s.repo.ignored
  {
    var e := s.redo[|s.redo| - 1];
    TryRestoreOk(s.repo, e.commit, junk);
    DeleteRefsOk(TryRestore(s.repo, e.commit, junk).0, Refs(e));
  }

  lemma SpecAfterSkip(s: State, junk: set<Commit>, o: Outcome<RedoResult>, m: nat)
    requires s.redo != [] && (s.last.Some? ==> s.last.value < |s.redo|) && RedoSpec(SkipTop(s, junk), o, m)
    requires var e, s1 := s.redo[|s.redo| - 1], SkipTop(s, junk);
             && e.commit !in s1.repo.objects && s1.repo.objects <= s.repo.objects
             && s1.repo.refs == s.repo.refs - Refs(e) && s1.repo.work == s.repo.work
             && s1.repo.nextId == s.repo.nextId
             && s1.repo.tracked == s.repo.tracked && s1.repo.ignored == s.repo.ignored
    ensures RedoSpec(s, o, m + 1)
  {
    hide AllDead, AppliedAt;
    var top := |s.redo| - 1;
    var s1 := SkipTop(s, junk);
    assert s.redo[top - m..] == s1.redo[top - m..] + [s.redo[top]];
    if m == top {
      DeadAfterSkip(s, s1, o);
    } else {
      AppliedAfterSkip(s, s1, o, top - m - 1);
    }
  }

  lemma DeadAfterSkip(s: State, s1: State, o: Outcome<RedoResult>)
    requires s.redo != [] && s1.redo == s.redo[..|s.redo| - 1] && s1.list == s.list && s1.repo.work == s.repo.work
    requires s1.repo.refs == s.repo.refs - Refs(s.redo[|s.redo| - 1]) && AllDead(s1, o)
    ensures AllDead(s, o)
  {
    hide RedoRefs, Refs;
    var e := s.redo[|s.redo| - 1];
    assert s.redo == s1.redo + [e];
    RedoRefsPush(s1.redo, e);
  }

  lemma AppliedAfterSkip(s: State, s1: State, o: Outcome<RedoResult>, at: nat)
    requires at < |s.redo| - 1 && s1.redo == s.redo[..|s.redo| - 1] && s1.list == s.list && s1.repo.work == s.repo.work
    requires s1.repo.tracked == s.repo.tracked && s1.repo.ignored == s.repo.ignored
    requires s1.repo.refs == s.repo.refs - Refs(s.redo[|s.redo| - 1]) && AppliedAt(s1, o, at)
    ensures AppliedAt(s, o, at)
  {
    hide RedoRefs, Refs, Checkout;
    var top := |s.redo| - 1;
    assert s.redo[at + 1..] == s1.redo[at + 1..] + [s.redo[top]];
    RedoRefsPush(s1.redo[at + 1..], s.redo[top]);
    assert s.redo[..at] == s1.redo[..at];
    SameCheckout(s.repo, s1.repo, s.redo[at].commit.tree);
  }

  lemma TopApart(s: State)
    requires Inv(s) && s.redo != []
    ensures var top := |s.redo| - 1;
            && RedoRefs(s.redo) == RedoRefs(s.redo[..top]) + Refs(s.redo[top])
            && RedoRefs(s.redo[..top]) !! Refs(s.redo[top])
            && Line(s) == s.list + s.redo[top].reAdd + Forward(s.redo[..top])
  {
    var top := |s.redo| - 1;
    RedoRefsPop(s.redo);
    forall x | x in RedoRefs(s.redo[..top]) ensures x !in Refs(s.redo[top]) {
      var e :| e in s.redo[..top] && x in e.ownedRefs;
      var i :| 0 <= i < top && s.redo[i] == e;
      assert Refs(s.redo[i]) !! Refs(s.redo[top]) && x in Refs(s.redo[i]);
    }
  }

  lemma ReappliedKeeps(s: State, o: Outcome<RedoResult>, session: Option<nat>, now: int)
    requires Inv(s) && Reapplied(s, o)
    ensures Kept(s, o.state, session, now)
  {
    var top := |s.redo| - 1;
    var e := s.redo[top];
    ShrinkKeeps(s.list, s.redo, s.repo, o.state.repo);
    ApartRefs(s);
    TopApart(s);
    IdsSplit(s.list, e.reAdd);
    assert StepOk(e, o.state.repo);
    assert Ids(e.reAdd) <= Refs(e);
    ApartByRefs(o.state.list, o.state.redo);
    assert Line(o.state) == Line(s);
    assert Owned(o.state) == Owned(s) - (Refs(e) - Ids(e.reAdd));
  }

  lemma ReAddsOwned(s: State)
    requires Inv(s) && s.redo != []
    ensures Ids(s.list) !! Refs(s.redo[|s.redo| - 1])
  {
    InvParts(s);
  }

  lemma SkipTopKeeps(s: State, junk: set<Commit>, session: Option<nat>, now: int)
    requires Inv(s) && s.redo != []
    ensures Kept(s, SkipTop(s, junk), session, now)
  {
    var top := |s.redo| - 1;
    hide Inv, RepoOk, Ordered, ListOk, Agrees, RedoRefs, Refs, Ids;
    InvParts(s);
    var e, s' := s.redo[top], SkipTop(s, junk);
    TryRestoreOk(s.repo, e.commit, junk);
    DeleteRefsOk(TryRestore(s.repo, e.commit, junk).0, Refs(e));
    ShrinkKeeps(s.list, s.redo, s.repo, s'.repo);
    ApartRefs(s);
    TopApart(s);
    ApartByRefs(s'.list, s'.redo);
    OrderedDrop(s.list, e.reAdd, Forward(s'.redo));
    assert Owned(s') == Owned(s) - Refs(e) by { ReAddsOwned(s); }
    assert StackOk(s'.redo, s'.repo);
    assert |Line(s')| <= |Line(s)|;
    PartsInv(s');
  }

  lemma {:induction false} RedoKeeps(s: State, junk: set<Commit>, session: Option<nat>, now: int)
    requires Inv(s)
    ensures Kept(s, Redo(s, junk).state, session, now)
    decreases |s.redo|
  {
    if s.redo == [] {
    } else if TryRestore(s.repo, s.redo[|s.redo| - 1].commit, junk).1 {
      RedoReapplies(s, junk);
      ReappliedKeeps(s, Redo(s, junk), session, now);
    } else {
      SkipTopKeeps(s, junk, session, now);
      RedoKeeps(SkipTop(s, junk), junk, session, now);
    }
  }

  // ---------------------------------------------------------------- snapshot

  lemma SnapshotKeeps(s: State, title: string, green: bool, session: Option<nat>, env: Env)
    requires Inv(s)
    ensures Kept(s, Snapshot(s, title, green, session, env).state, session, env.now)
  {
    hide Inv, Snapshot, Kept, Ordered;
    InvParts(s);
    assert Line(s) == s.list + Forward(s.redo) + [] && s.list + [] == s.list;
    OrderedDrop(s.list, Forward(s.redo), []);
    if env.captures {
      SnapshotPushes(s, title, green, session, env);
    } else {
      SnapshotFails(s, title, green, session, env);
    }
  }

  lemma SnapshotFails(s: State, title: string, green: bool, session: Option<nat>, env: Env)
    requires Inv(s) && !env.captures && Ordered(s.list)
    ensures Kept(s, Snapshot(s, title, green, session, env).state, session, env.now)
  {
    hide Inv, Ordered;
    InvParts(s);
    var s' := Snapshot(s, title, green, session, env).state;
    DeleteRefsOk(s.repo, RedoRefs(s.redo));
    ShrinkKeeps(s.list, s.redo, s.repo, s'.repo);
    ApartRefs(s);
    assert Line(s') == s.list;
    assert |s.list| <= |Line(s)|;
    PartsInv(s');
  }

  /** The repository and list just before pruning. */
  lemma SnapshotGrows(s: State, cp: Checkpoint, r1: Repo)
    requires Inv(s) && Ordered(s.list)
    requires cp.id == s.repo.nextId && RepoOk(r1) && Shrinks(s.repo, r1) && r1.nextId == cp.id + 1
    requires Agrees(cp.id, cp.commit, r1)
    ensures ListOk(s.list + [cp], r1) && Ordered(s.list + [cp])
  {
    ShrinkKeeps(s.list, s.redo, s.repo, r1);
    assert forall c :: c in s.list ==> c in Line(s);
  }

  lemma CutKeeps(grown: seq<Checkpoint>, r1: Repo, cut: nat)
    requires RepoOk(r1) && ListOk(grown, r1) && Ordered(grown)
    requires cut <= |grown| <= cut + MAX_CHECKPOINTS
    ensures Inv(State(DeleteRefs(r1, Ids(grown[..cut])), grown[cut..], [], None))
  {
    var kept := grown[cut..];
    DeleteRefsOk(r1, Ids(grown[..cut]));
    ShrinkKeeps(grown, [], r1, DeleteRefs(r1, Ids(grown[..cut])));
    var s' := State(DeleteRefs(r1, Ids(grown[..cut])), kept, [], None);
    assert Line(s') == kept;
    forall i, j | 0 <= i < j < |kept| ensures kept[i].id < kept[j].id {
      assert kept[i] == grown[i + cut] && kept[j] == grown[j + cut];
    }
    assert forall c :: c in kept ==> c in grown;
  }

  lemma CutIds(grown: seq<Checkpoint>, r1: Repo, cut: nat)
    requires Ordered(grown) && cut <= |grown|
    ensures Ids(grown[cut..]) == Ids(grown) - Ids(grown[..cut])
  {
    var mid := State(r1, grown, [], None);
    assert Line(mid) == grown;
    PrefixApart(mid, cut);
    IdsSplit(grown[..cut], grown[cut..]);
    assert grown == grown[..cut] + grown[cut..];
  }

  lemma SnapshotShape(s: State, title: string, green: bool, session: Option<nat>, env: Env)
    returns (r1: Repo, cp: Checkpoint, cut: nat)
    requires RepoOk(s.repo) && env.captures
    ensures RepoOk(r1) && Shrinks(s.repo, r1) && r1.nextId == s.repo.nextId + 1
    ensures r1.refs == (s.repo.refs - RedoRefs(s.redo))[cp.id := cp.commit]
    ensures cp.id == s.repo.nextId && cp.createdAt == env.now && cp.sessionId == session
    ensures cut == |s.list| + 1 - |Prune(s.list + [cp])|
    ensures Prune(s.list + [cp]) == (s.list + [cp])[cut..]
    ensures Snapshot(s, title, green, session, env)
         == Outcome(State(DeleteRefs(r1, Ids((s.list + [cp])[..cut])), (s.list + [cp])[cut..], [], None), Some(cp))
  {
    hide RepoOk, Ids, RedoRefs, Staged;
    var r := DeleteRefs(s.repo, RedoRefs(s.redo));
    DeleteRefsOk(s.repo, RedoRefs(s.redo));
    CommitTreeOk(r, env);
    r1 := CommitTree(r, env).0;
    var made := CommitTree(r, env).1;
    cp := Checkpoint(made.value.id, title, made.value.commit, env.now, green, session);
    cut := |s.list| + 1 - |Prune(s.list + [cp])|;
  }

  lemma SnapshotPushes(s: State, title: string, green: bool, session: Option<nat>, env: Env)
    requires Inv(s) && env.captures && Ordered(s.list)
    ensures Kept(s, Snapshot(s, title, green, session, env).state, session, env.now)
  {
    var r1, cp, cut := SnapshotShape(s, title, green, session, env);
    var grown := s.list + [cp];
    var s' := State(DeleteRefs(r1, Ids(grown[..cut])), grown[cut..], [], None);
    SnapshotGrows(s, cp, r1);
    assert |s.list| <= |Line(s)|;
    CutKeeps(grown, r1, cut);
    SnapshotOwns(s, cp, r1, cut);
    assert Line(s') == grown[cut..];
    forall c | c in Line(s') ensures c in Line(s) || c == cp { assert c in grown; }
  }

  lemma SnapshotOwns(s: State, cp: Checkpoint, r1: Repo, cut: nat)
    requires Inv(s) && cp.id == s.repo.nextId && cut <= |s.list| + 1 && Ordered(s.list + [cp])
    requires r1.refs == (s.repo.refs - RedoRefs(s.redo))[cp.id := cp.commit]
    ensures var grown := s.list + [cp];
            var s' := State(DeleteRefs(r1, Ids(grown[..cut])), grown[cut..], [], None);
            (Pinned(s) ==> Pinned(s')) && Leaked(s') == Leaked(s)
  {
    var grown := s.list + [cp];
    ApartRefs(s);
    IdsSplit(s.list, [cp]);
    CutIds(grown, r1, cut);
    assert Ids([cp]) == {cp.id};
    assert RedoRefs([]) == {};
    var s' := State(DeleteRefs(r1, Ids(grown[..cut])), grown[cut..], [], None);
    assert Owned(s') == (Ids(s.list) + {cp.id}) - Ids(grown[..cut]);
    assert s'.repo.refs.Keys == ((s.repo.refs.Keys - RedoRefs(s.redo)) + {cp.id}) - Ids(grown[..cut]);
  }

  // ---------------------------------------------------------------- every operation, every run

  lemma {:induction false} SameRefs(a: seq<RedoStep>, b: seq<RedoStep>)
    requires |a| == |b| && forall i :: 0 <= i < |a| ==> a[i].ownedRefs == b[i].ownedRefs
    ensures RedoRefs(a) == RedoRefs(b)
    decreases |a|
  {
    if a != [] {
      RedoRefsPop(a);
      RedoRefsPop(b);
      SameRefs(a[..|a| - 1], b[..|b| - 1]);
    }
  }

  lemma PayloadsKeep(s: State, s': State, session: Option<nat>, now: int)
    requires Inv(s) && s'.repo == s.repo && s'.list == s.list && s'.last == s.last && |s'.redo| == |s.redo|
    requires forall i :: 0 <= i < |s.redo| ==> s'.redo[i] == s.redo[i].(payload := s'.redo[i].payload)
    ensures Kept(s, s', session, now)
  {
    ForwardIgnoresPayload(s.redo, s'.redo);
    SameRefs(s.redo, s'.redo);
    forall i | 0 <= i < |s.redo| ensures StepOk(s'.redo[i], s'.repo) && Refs(s'.redo[i]) == Refs(s.redo[i]) {
      assert StepOk(s.redo[i], s.repo);
    }
    assert StackOk(s'.redo, s'.repo);
  }

  lemma ApplyKeeps(s: State, op: Op, session: Option<nat>, env: Env)
    requires Inv(s)
    ensures Kept(s, Apply(s, op, session, env), session, env.now)
  {
    match op
    case DoSnapshot(title, green) => SnapshotKeeps(s, title, green, session, env);
    case DoUndo => UndoKeeps(s, env, session);
    case DoRestoreTo(id) => RestoreToKeeps(s, id, env, session);
    case DoRedo => RedoKeeps(s, env.junk, session, env.now);
    case DoStash(payload) => PayloadsKeep(s, StashPayload(s, payload), session, env.now);
    case DoDropPayloads => PayloadsKeep(s, DropPayloads(s), session, env.now);
    case Edit(work) => ShrinkKeeps(s.list, s.redo, s.repo, Apply(s, op, session, env).repo);
    case Collect => ShrinkKeeps(s.list, s.redo, s.repo, Apply(s, op, session, env).repo);
  }

  function Run(s: State, ops: seq<(Op, Env)>, session: Option<nat>): State
    decreases |ops|
  {
    if ops == [] then s else
    var last := |ops| - 1;
    Apply(Run(s, ops[..last], session), ops[last].0, session, ops[last].1)
  }

  function Empty(work: Tree, tracked: set<Path>, ignored: set<Path>): State {
    State(Repo(work, tracked, ignored, {}, map[], 0), [], [], None)
  }

  lemma EmptyOk(work: Tree, tracked: set<Path>, ignored: set<Path>)
    ensures Inv(Empty(work, tracked, ignored)) && Exact(Empty(work, tracked, ignored))
    ensures Line(Empty(work, tracked, ignored)) == []
  {
  }

  /** From an empty manager, whatever is done, whatever the clock shows and whatever the
      collector takes in between:
      owned ids are disjoint, are exactly the refs held, and each pins its commit; and the
      list followed by the stack is one timeline in creation order, never above the cap. */
  lemma {:induction false} EveryRun(
    work: Tree, tracked: set<Path>, ignored: set<Path>, ops: seq<(Op, Env)>, session: Option<nat>)
    ensures var s := Run(Empty(work, tracked, ignored), ops, session);
            Inv(s) && Exact(s)
    decreases |ops|
  {
    hide Inv, Exact, Pinned, Leaked, Apply, Grown;
    if ops == [] {
      EmptyOk(work, tracked, ignored);
    } else {
      var last := |ops| - 1;
      EveryRun(work, tracked, ignored, ops[..last], session);
      var s := Run(Empty(work, tracked, ignored), ops[..last], session);
      ApplyKeeps(s, ops[last].0, session, ops[last].1);
      ExactIs(s);
      ExactIs(Run(Empty(work, tracked, ignored), ops, session));
    }
  }

  lemma ExactIs(s: State)
    ensures Exact(s) <==> Pinned(s) && Leaked(s) == {}
  {
    assert Leaked(s) == {} ==> s.repo.refs.Keys <= Owned(s) by {
      forall r | r in s.repo.refs && r !in Owned(s) ensures r in Leaked(s) {}
    }
  }

  /** With every ref in place no operation ever meets a dead commit: undo loses only green
      markers, jumping to a listed checkpoint succeeds, and redo always applies the top step. */
  lemma NoDeadCommit(s: State, env: Env)
    requires Inv(s) && Pinned(s)
    ensures forall c :: c in s.list ==> TryRestore(CommitTree(s.repo, env).0, c.commit, env.junk).1
    ensures forall id :: RestoreTo(s, id, env).value.Some? <==> id in Ids(s.list)
    ensures Redo(s, env.junk).value.Some? <==> s.redo != []
    ensures s.redo != [] ==> Reapplied(s, Redo(s, env.junk))
    ensures Undo(s, env).value.None? <==> forall c :: c in s.list ==> c.green
  {
    hide Inv, RestoreTo, Redo, Undo, TryRestore, CommitTree, Reapplied;
    ListAlive(s, env);
    RestoreReaches(s, env);
    RedoReaches(s, env);
    UndoReaches(s, env);
  }

  lemma ListAlive(s: State, env: Env)
    requires Inv(s) && Pinned(s)
    ensures var r1 := CommitTree(s.repo, env).0;
            forall c :: c in s.list ==>
              c.id in r1.refs && r1.refs[c.id] == c.commit && TryRestore(r1, c.commit, env.junk).1
  {
    CommitTreeOk(s.repo, env);
    var r1 := CommitTree(s.repo, env).0;
    ApartRefs(s);
    forall c | c in s.list
      ensures c.id in r1.refs && r1.refs[c.id] == c.commit && TryRestore(r1, c.commit, env.junk).1
    {
      assert c.id in Ids(s.list) && c.id in s.repo.refs && Agrees(c.id, c.commit, s.repo);
      TryRestoreOk(r1, c.commit, env.junk);
    }
  }

  lemma RestoreReaches(s: State, env: Env)
    requires Inv(s) && Pinned(s)
    ensures forall id :: RestoreTo(s, id, env).value.Some? <==> id in Ids(s.list)
  {
    hide Inv, TryRestore, CommitTree, Rewind;
    ListAlive(s, env);
    forall id ensures RestoreTo(s, id, env).value.Some? <==> id in Ids(s.list) {
      var k := IndexOf(s.list, id);
      if k < |s.list| { assert s.list[k] in s.list; }
    }
  }

  lemma RedoReaches(s: State, env: Env)
    requires Inv(s) && Pinned(s)
    ensures Redo(s, env.junk).value.Some? <==> s.redo != []
    ensures s.redo != [] ==> Reapplied(s, Redo(s, env.junk))
  {
    if s.redo != [] {
      var e := s.redo[|s.redo| - 1];
      StepPinned(s, |s.redo| - 1);
      TryRestoreOk(s.repo, e.commit, env.junk);
      hide TryRestore;
      RedoReapplies(s, env.junk);
    }
  }

  lemma UndoReaches(s: State, env: Env)
    requires Inv(s) && Pinned(s)
    ensures Undo(s, env).value.None? <==> forall c :: c in s.list ==> c.green
  {
    hide CommitTree, TryRestore, PopRestorable;
    CommitTreeOk(s.repo, env);
    ListAlive(s, env);
    forall i, j | 0 <= i < j < |s.list| ensures s.list[i].id != s.list[j].id { LineDistinct(s, i, j); }
    PopOnlyGreen(s.list, CommitTree(s.repo, env).0, env.junk);
  }

  lemma StepPinned(s: State, i: nat)
    requires Inv(s) && i < |s.redo|
    requires s.redo[i].ownedRefs[0] in s.repo.refs || Pinned(s)
    ensures s.redo[i].commit in s.repo.refs.Values
  {
    var e := s.redo[i];
    assert StepOk(e, s.repo) && e.ownedRefs[0] in e.ownedRefs;
    assert e in s.redo;
    assert e.ownedRefs[0] in RedoRefs(s.redo);
  }

  /** When every entry is pinned, what undo drops is green. */
  lemma {:induction false} PopOnlyGreen(list: seq<Checkpoint>, r: Repo, junk: set<Commit>)
    requires RepoOk(r)
    requires forall c :: c in list ==> c.id in r.refs && r.refs[c.id] == c.commit
    requires forall i, j :: 0 <= i < j < |list| ==> list[i].id != list[j].id
    ensures var p := PopRestorable(list, r, junk);
            var keep := if p.found.Some? then |p.list| + 1 else 0;
            && (p.found.Some? ==> keep <= |list| && p.found.value == list[|p.list|] && !p.found.value.green)
            && (forall i :: keep <= i < |list| ==> list[i].green)
    decreases |list|
  {
    hide RepoOk, Shrinks, Checkout;
    if list != [] {
      var top := |list| - 1;
      var cp, rest := list[top], list[..top];
      if cp.green {
        PopDropped(r, DeleteRef(r, cp.id), cp.id);
        PinnedRest(list, r);
        PopOnlyGreen(rest, DeleteRef(r, cp.id), junk);
      } else {
        assert cp in list;
        TryRestoreOk(r, cp.commit, junk);
      }
    }
  }

  lemma PinnedRest(list: seq<Checkpoint>, r: Repo)
    requires list != [] && forall c :: c in list ==> c.id in r.refs && r.refs[c.id] == c.commit
    requires forall i, j :: 0 <= i < j < |list| ==> list[i].id != list[j].id
    ensures var top := |list| - 1;
            var rest, r1 := list[..top], DeleteRef(r, list[top].id);
            && (forall c :: c in rest ==> c.id in r1.refs && r1.refs[c.id] == c.commit)
            && forall i, j :: 0 <= i < j < |rest| ==> rest[i].id != rest[j].id
  {
    var top := |list| - 1;
    forall c | c in list[..top] ensures c in list && c.id != list[top].id {
      var i :| 0 <= i < top && list[..top][i] == c;
      assert list[i].id != list[top].id;
    }
  }
}
