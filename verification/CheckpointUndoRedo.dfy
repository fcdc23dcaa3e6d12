/** Undoing n times and redoing n times is the identity, up to what undo had to drop. */
module CheckpointUndoRedo {
  import opened Options
  import opened CheckpointSteps
  import opened CheckpointInvariant
  import opened CheckpointOps
  import opened CheckpointRoundTrip

  function UndoAll(s: State, envs: seq<Env>): State
    decreases |envs|
  {
    if envs == [] then s else UndoAll(Undo(s, envs[0]).state, envs[1..])
  }

  /** Every undo captures the tree it leaves and finds a checkpoint to restore. */
  predicate AllLand(s: State, envs: seq<Env>)
    decreases |envs|
  {
    envs == [] ||
    (envs[0].captures && Undo(s, envs[0]).value.Some? && AllLand(Undo(s, envs[0]).state, envs[1..]))
  }

  /** Ids of the entries the undos drop on the way to the checkpoints they restore. */
  function Gone(s: State, envs: seq<Env>): set<nat>
    decreases |envs|
  {
    if envs == [] then {} else
    var s1 := Undo(s, envs[0]).state;
    (if |s1.list| < |s.list| then Ids(s.list[|s1.list| + 1..]) else {}) + Gone(s1, envs[1..])
  }

  /** Some undo found this commit gone from the object store. */
  predicate DeadWhenTried(s: State, envs: seq<Env>, c: Commit)
    decreases |envs|
  {
    envs != [] &&
    (c !in Undo(s, envs[0]).state.repo.objects || DeadWhenTried(Undo(s, envs[0]).state, envs[1..], c))
  }

  /** One of the undos restored a snapshot that has path `p`. */
  predicate UndoneThrough(s: State, envs: seq<Env>, p: Path)
    decreases |envs|
  {
    envs != [] &&
    ((Undo(s, envs[0]).value.Some? && p in Undo(s, envs[0]).value.value.commit.tree)
     || UndoneThrough(Undo(s, envs[0]).state, envs[1..], p))
  }

  function Without(list: seq<Checkpoint>, gone: set<nat>): seq<Checkpoint> {
    if list == [] then [] else
    Without(list[..|list| - 1], gone) + (if list[|list| - 1].id in gone then [] else [list[|list| - 1]])
  }

  lemma {:induction false} WithoutCut(a: seq<Checkpoint>, b: seq<Checkpoint>, gone: set<nat>)
    requires Ids(b) <= gone
    ensures Without(a + b, gone) == Without(a, gone)
    decreases |b|
  {
    if b == [] {
      assert a + b == a;
    } else {
      var top := |b| - 1;
      assert (a + b)[..|a + b| - 1] == a + b[..top];
      assert b[top] in b && forall c :: c in b[..top] ==> c in b;
      WithoutCut(a, b[..top], gone);
    }
  }

  lemma {:induction false} WithoutOther(a: seq<Checkpoint>, gone: set<nat>, more: set<nat>)
    requires Ids(a) !! more
    ensures Without(a, gone + more) == Without(a, gone)
    decreases |a|
  {
    if a != [] {
      var top := |a| - 1;
      assert a[top] in a && forall c :: c in a[..top] ==> c in a;
      WithoutOther(a[..top], gone, more);
    }
  }

  lemma {:induction false} GoneWithin(s: State, envs: seq<Env>)
    requires Inv(s) && AllLand(s, envs)
    ensures Gone(s, envs) <= Ids(s.list)
    decreases |envs|
  {
    hide Inv, Undo;
    if envs != [] {
      InvRepo(s);
      UndoLands(s, envs[0]);
      var s1 := Undo(s, envs[0]).state;
      UndoKeeps(s, envs[0], None);
      GoneWithin(s1, envs[1..]);
      assert forall c :: c in s1.list || c in s.list[|s1.list| + 1..] ==> c in s.list;
    }
  }

  /** Refs of steps further down the stack are not touched by what happens above them. */
  ghost predicate RefsKept(redo: seq<RedoStep>, r: Repo, r': Repo) {
    forall id :: id in RedoRefs(redo) && id in r.refs ==> id in r'.refs && r'.refs[id] == r.refs[id]
  }

  /** What undoing and redoing the same number of steps gives back. */
  ghost predicate Returned(s: State, envs: seq<Env>, f: State) {
    && Inv(f) && f.redo == s.redo && RefsKept(s.redo, s.repo, f.repo)
    && f.list == Without(s.list, Gone(s, envs))
    && f.repo.tracked == s.repo.tracked && f.repo.ignored == s.repo.ignored
    && (forall p :: p !in s.repo.ignored && p in s.repo.work ==> p in f.repo.work && f.repo.work[p] == s.repo.work[p])
    && (forall p :: p !in s.repo.ignored && p !in s.repo.work ==>
          (p in f.repo.work <==> p in s.repo.tracked && UndoneThrough(s, envs, p)))
  }

  lemma {:induction false} UndoThenRedo(s: State, envs: seq<Env>, junks: seq<set<Commit>>)
    requires Inv(s) && AllLand(s, envs) && |junks| == |envs|
    ensures Returned(s, envs, RedoAll(UndoAll(s, envs), junks))
    decreases |envs|
  {
    hide Inv, Undo, Redo;
    if envs == [] {
      WithoutCut(s.list, [], {});
      WithoutNone(s.list);
    } else {
      var n := |envs| - 1;
      var o := Undo(s, envs[0]);
      UndoKeeps(s, envs[0], None);
      UndoThenRedo(o.state, envs[1..], junks[..n]);
      RoundTripStep(s, envs, RedoAll(UndoAll(o.state, envs[1..]), junks[..n]), junks[n]);
    }
  }

  lemma {:induction false} WithoutNone(list: seq<Checkpoint>)
    ensures Without(list, {}) == list
    decreases |list|
  {
    if list != [] { WithoutNone(list[..|list| - 1]); }
  }

  /** One undo, a round trip in between, one redo. */
  lemma RoundTripStep(s: State, envs: seq<Env>, mid: State, junk: set<Commit>)
    requires Inv(s) && AllLand(s, envs) && envs != []
    requires Returned(Undo(s, envs[0]).state, envs[1..], mid)
    ensures Returned(s, envs, Redo(mid, junk).state)
  {
    hide Inv, Undo, Redo, Without, Gone, UndoneThrough, RefsKept, Checkout, Staged, Refs, Ids, RepoOk, Shrinks, Line,
         AllLand, Grown, Pinned, Exact;
    InvRepo(s);
    FirstLands(s, envs);
    var o := Undo(s, envs[0]);
    var k := |o.state.list|;
    TopRestores(s, envs[0], o, k, mid, junk);
    var f := Redo(mid, junk).state;
    ReappliedKeeps(mid, Redo(mid, junk), None, 0);
    RoundTripList(s, envs, k);
    ListBelow(s);
    UndoneRefs(s, envs[0], s.list[k]);
    RoundTripRefs(s, envs[0], o, k, mid, f);
    RoundTripTree(s, envs, k, mid, f);
  }

  lemma FirstLands(s: State, envs: seq<Env>)
    requires RepoOk(s.repo) && AllLand(s, envs) && envs != []
    ensures Landed(s, envs[0], Undo(s, envs[0]), |Undo(s, envs[0]).state.list|)
  {
    hide Undo, Landed;
    UndoLands(s, envs[0]);
  }

  lemma UndoneRefs(s: State, env: Env, cp: Checkpoint)
    requires cp.id != s.repo.nextId
    ensures var e := UndoneStep(s, env, cp); Refs(e) - Ids(e.reAdd) == {s.repo.nextId}
  {
    var e := UndoneStep(s, env, cp);
    assert Refs(e) == {s.repo.nextId, cp.id};
  }

  lemma TopRestores(s: State, env: Env, o: Outcome<Checkpoint>, k: nat, mid: State, junk: set<Commit>)
    requires Inv(s) && Landed(s, env, o, k) && Inv(mid)
    requires mid.redo == o.state.redo && RefsKept(o.state.redo, o.state.repo, mid.repo)
    ensures Reapplied(mid, Redo(mid, junk))
  {
    hide Inv, Redo;
    var e := UndoneStep(s, env, s.list[k]);
    RedoRefsPush(s.redo, e);
    ListBelow(s);
    assert s.repo.nextId !in Ids(s.list[k + 1..]);
    assert e.ownedRefs[0] in o.state.repo.refs && e.ownedRefs[0] in Refs(e);
    StepPinned(mid, |s.redo|);
    InvRepo(mid);
    TryRestoreOk(mid.repo, e.commit, junk);
    RedoReapplies(mid, junk);
  }

  lemma ListBelow(s: State)
    requires Inv(s)
    ensures forall c :: c in s.list ==> c.id < s.repo.nextId
  {
    hide StackOk, Apart, Ordered;
  }

  lemma RoundTripList(s: State, envs: seq<Env>, k: nat)
    requires Inv(s) && AllLand(s, envs) && envs != []
    requires Landed(s, envs[0], Undo(s, envs[0]), k)
    ensures Without(s.list, Gone(s, envs))
         == Without(s.list[..k], Gone(Undo(s, envs[0]).state, envs[1..])) + [s.list[k]]
  {
    hide Inv, Undo;
    var s1, above := Undo(s, envs[0]).state, Ids(s.list[k + 1..]);
    var inner := Gone(s1, envs[1..]);
    UndoKeeps(s, envs[0], None);
    GoneWithin(s1, envs[1..]);
    SplitAt(s, k);
    assert Gone(s, envs) == above + inner == inner + above;
    assert s.list == s.list[..k + 1] + s.list[k + 1..];
    WithoutCut(s.list[..k + 1], s.list[k + 1..], inner + above);
    WithoutOther(s.list[..k], inner, above);
    assert s.list[..k + 1][..k] == s.list[..k];
  }

  lemma RoundTripRefs(s: State, env: Env, o: Outcome<Checkpoint>, k: nat, mid: State, f: State)
    requires Inv(s) && Landed(s, env, o, k)
    requires mid.redo == o.state.redo && RefsKept(o.state.redo, o.state.repo, mid.repo)
    requires f.repo.refs == mid.repo.refs - {s.repo.nextId}
    ensures RefsKept(s.redo, s.repo, f.repo)
  {
    hide Inv;
    ApartRefs(s);
    RedoRefsPush(s.redo, UndoneStep(s, env, s.list[k]));
    assert Ids(s.list[k + 1..]) <= Ids(s.list);
  }

  lemma RoundTripTree(s: State, envs: seq<Env>, k: nat, mid: State, f: State)
    requires envs != [] && Landed(s, envs[0], Undo(s, envs[0]), k)
    requires Returned(Undo(s, envs[0]).state, envs[1..], mid)
    requires f.repo.work == Checkout(mid.repo, Staged(s.repo, envs[0].seeded))
    ensures forall p :: p !in s.repo.ignored && p in s.repo.work ==>
        p in f.repo.work && f.repo.work[p] == s.repo.work[p]
    ensures forall p :: p !in s.repo.ignored && p !in s.repo.work ==>
              (p in f.repo.work <==> p in s.repo.tracked && UndoneThrough(s, envs, p))
  {
    hide Inv, Undo, Without, Gone, RefsKept;
  }

  /** The walk back passes through every state the walk down passed through: stopping `m`
      undos short of the start gives back the state that was there after `m` undos. */
  lemma {:induction false} UndoThenRedoAt(s: State, envs: seq<Env>, junks: seq<set<Commit>>, m: nat)
    requires Inv(s) && AllLand(s, envs) && m <= |envs| && |junks| == |envs| - m
    ensures Returned(UndoAll(s, envs[..m]), envs[m..], RedoAll(UndoAll(s, envs), junks))
    decreases m
  {
    hide Inv, Undo, RedoAll, Returned;
    if m == 0 {
      assert envs[0..] == envs;
      UndoThenRedo(s, envs, junks);
    } else {
      UndoKeeps(s, envs[0], None);
      UndoThenRedoAt(Undo(s, envs[0]).state, envs[1..], junks, m - 1);
      assert envs[1..][..m - 1] == envs[..m][1..] && envs[1..][m - 1..] == envs[m..];
    }
  }

  /** An entry that goes, but not in the first undo, goes in a later one. */
  lemma GoesLater(s: State, envs: seq<Env>, k: nat, i: nat)
    requires Inv(s) && AllLand(s, envs) && envs != [] && Landed(s, envs[0], Undo(s, envs[0]), k)
    requires i <= k && s.list[i].id in Gone(s, envs)
    ensures var s1 := Undo(s, envs[0]).state; s.list[i] in s1.list && s.list[i].id in Gone(s1, envs[1..])
  {
    hide Inv, Undo, Landed, Ids;
    LandedList(s, envs[0], Undo(s, envs[0]), k);
    UndoKeeps(s, envs[0], None);
    GoneWithin(Undo(s, envs[0]).state, envs[1..]);
    NotAbove(s, k, i);
  }

  lemma LandedList(s: State, env: Env, o: Outcome<Checkpoint>, k: nat)
    requires Landed(s, env, o, k)
    ensures k < |s.list| && o.state.list == s.list[..k]
  {
  }

  lemma NotAbove(s: State, k: nat, i: nat)
    requires Inv(s) && i <= k < |s.list|
    ensures s.list[i].id !in Ids(s.list[k + 1..])
    ensures s.list[i].id in Ids(s.list[..k]) ==> s.list[i] in s.list[..k]
  {
    SplitAt(s, k);
    if i < k { assert s.list[..k][i] == s.list[i]; }
  }

  /** Undo drops nothing but green result markers and commits it finds dead. */
  lemma {:induction false} OnlyGreenOrDeadGone(s: State, envs: seq<Env>, c: Checkpoint)
    requires Inv(s) && AllLand(s, envs) && c in s.list && c.id in Gone(s, envs)
    ensures c.green || DeadWhenTried(s, envs, c.commit)
    decreases |envs|
  {
    hide Inv, Undo;
    InvRepo(s);
    FirstLands(s, envs);
    var k := |Undo(s, envs[0]).state.list|;
    var i :| 0 <= i < |s.list| && s.list[i] == c;
    if i > k {
      assert s.list[k + 1..][i - k - 1] == c;
    } else {
      GoesLater(s, envs, k, i);
      UndoKeeps(s, envs[0], None);
      OnlyGreenOrDeadGone(Undo(s, envs[0]).state, envs[1..], c);
    }
  }

  /** ... and with every ref in place nothing is ever dead, so only green markers go. */
  lemma {:induction false} OnlyGreenGone(s: State, envs: seq<Env>, c: Checkpoint)
    requires Inv(s) && Pinned(s) && AllLand(s, envs) && c in s.list && c.id in Gone(s, envs)
    ensures c.green
    decreases |envs|
  {
    hide Inv, Undo, Pinned;
    InvRepo(s);
    FirstLands(s, envs);
    var o := Undo(s, envs[0]);
    var k := |o.state.list|;
    var i :| 0 <= i < |s.list| && s.list[i] == c;
    if i > k {
      PinnedAbove(s, envs[0], o, k, i);
    } else {
      GoesLater(s, envs, k, i);
      UndoKeeps(s, envs[0], None);
      OnlyGreenGone(o.state, envs[1..], c);
    }
  }

  /** What undo drops above the checkpoint it restores was never dead when all is pinned. */
  lemma PinnedAbove(s: State, env: Env, o: Outcome<Checkpoint>, k: nat, i: nat)
    requires Inv(s) && Pinned(s) && env.captures && o == Undo(s, env) && Landed(s, env, o, k) && k < i < |s.list|
    ensures s.list[i].green
  {
    hide Undo;
    CommitTreeOk(s.repo, env);
    var r1 := CommitTree(s.repo, env).0;
    forall c | c in s.list ensures c.id in r1.refs && r1.refs[c.id] == c.commit {
      assert c.id in Ids(s.list) && c.id in Owned(s) && Agrees(c.id, c.commit, s.repo);
    }
    forall a, b | 0 <= a < b < |s.list| ensures s.list[a].id != s.list[b].id { LineDistinct(s, a, b); }
    PopOnlyGreen(s.list, r1, env.junk);
    UndoPops(s, env);
  }

  lemma UndoPops(s: State, env: Env)
    ensures Undo(s, env).state.list == PopRestorable(s.list, CommitTree(s.repo, env).0, env.junk).list
    ensures Undo(s, env).value == PopRestorable(s.list, CommitTree(s.repo, env).0, env.junk).found
  {
  }
}
