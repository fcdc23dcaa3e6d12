/**
  What each operation gives its caller and leaves behind, in every case: nothing to restore,
  no capture, a refusal, and what a later redo hands back.
  */
module CheckpointResults {
  import opened Options
  import opened CheckpointSteps
  import opened CheckpointInvariant
  import opened CheckpointOps
  import opened CheckpointRoundTrip

  /** Nothing about the files changed. */
  predicate SameFiles(r: Repo, r': Repo) {
    r'.work == r.work && r'.tracked == r.tracked && r'.ignored == r.ignored
  }

  // ---------------------------------------------------------------- snapshot

  /** A snapshot touches no file and ends the redo line with its refs. The new entry is the
      newest, holds what was staged and is returned; the oldest give way above fifty. */
  lemma SnapshotTakes(s: State, title: string, green: bool, session: Option<nat>, env: Env)
    requires Inv(s)
    ensures var o := Snapshot(s, title, green, session, env);
            var s' := o.state;
            && SameFiles(s.repo, s'.repo) && s'.redo == [] && s'.last == None
            && s'.repo.nextId == s.repo.nextId + 1
            && (!env.captures ==>
                  o.value == None && s'.list == s.list && s'.repo.refs == s.repo.refs - RedoRefs(s.redo))
            && (env.captures ==>
                  var commit := Commit(Staged(s.repo, env.seeded), env.meta);
                  var cp := Checkpoint(s.repo.nextId, title, commit, env.now, green, session);
                  var cut := |s.list| + 1 - |s'.list|;
                  && o.value == Some(cp) && cut == (if |s.list| < 50 then 0 else 1)
                  && s'.list == s.list[cut..] + [cp]
                  && s'.repo.refs == (s.repo.refs - RedoRefs(s.redo))[cp.id := cp.commit] - Ids(s.list[..cut]))
  {
    hide Inv, RedoRefs, Staged, Ids, RepoOk, ListOk, StackOk, Apart, Ordered, Line;
    InvParts(s);
    ShortList(s);
    var r := DeleteRefs(s.repo, RedoRefs(s.redo));
    var made := CommitTree(r, env).1;
    if env.captures {
      var cp := Checkpoint(made.value.id, title, made.value.commit, env.now, green, session);
      var cut := if |s.list| < MAX_CHECKPOINTS then 0 else 1;
      assert Staged(r, env.seeded) == Staged(s.repo, env.seeded) by { SameStaged(r, s.repo, env.seeded); }
      assert Prune(s.list + [cp]) == s.list[cut..] + [cp] && (s.list + [cp])[..cut] == s.list[..cut];
    }
  }

  lemma ShortList(s: State)
    requires |Line(s)| <= MAX_CHECKPOINTS
    ensures |s.list| <= MAX_CHECKPOINTS
  {
  }

  lemma SameStaged(a: Repo, b: Repo, seeded: bool)
    requires SameFiles(a, b)
    ensures Staged(a, seeded) == Staged(b, seeded)
  {
  }

  // ---------------------------------------------------------------- undo

  /** When every checkpoint is green or dead, undo only drops them with their refs: files and
      redo line stay as they are, and the capture is released. */
  lemma UndoFindsNothing(s: State, env: Env)
    requires RepoOk(s.repo) && Undo(s, env).value.None?
    ensures var s' := Undo(s, env).state;
            && SameFiles(s.repo, s'.repo) && s'.list == [] && s'.redo == s.redo && s'.last == None
            && s'.repo.refs == s.repo.refs - Ids(s.list)
            && forall c :: c in s.list ==> c.green || c.commit !in s'.repo.objects
  {
    hide Ids;
    CommitTreeOk(s.repo, env);
    var r1 := CommitTree(s.repo, env).0;
    PopMeetsSpec(s.list, r1, env.junk);
    assert s.list[0..] == s.list;
  }

  /** When the pre-undo tree cannot be captured, undo still lands; the landed entry goes with
      its ref and nothing is stacked. */
  lemma UndoWithoutCapture(s: State, env: Env)
    requires RepoOk(s.repo) && !env.captures && Undo(s, env).value.Some?
    ensures var o, k := Undo(s, env), |Undo(s, env).state.list|;
            var s' := o.state;
            && k < |s.list| && o.value == Some(s.list[k]) && !s.list[k].green
            && s'.list == s.list[..k] && s'.redo == s.redo && s'.last == None
            && s'.repo.refs == s.repo.refs - Ids(s.list[k..])
            && s'.repo.work == Checkout(s.repo, s.list[k].commit.tree)
            && s'.repo.tracked == s.repo.tracked && s'.repo.ignored == s.repo.ignored
            && forall c :: c in s.list[k + 1..] ==> c.green || c.commit !in s'.repo.objects
  {
    hide Ids, Checkout;
    CommitTreeOk(s.repo, env);
    var r1 := CommitTree(s.repo, env).0;
    PopMeetsSpec(s.list, r1, env.junk);
    var p := PopRestorable(s.list, r1, env.junk);
    var k := |p.list|;
    assert s.list[k..] == [s.list[k]] + s.list[k + 1..];
    IdsFirst(s.list[k], s.list[k + 1..]);
    SameCheckout(s.repo, r1, s.list[k].commit.tree);
  }

  lemma IdsFirst(c: Checkpoint, cs: seq<Checkpoint>)
    ensures Ids([c] + cs) == {c.id} + Ids(cs)
  {
    assert forall d :: d in [c] + cs <==> d == c || d in cs;
  }

  /** The next redo after a captured undo names the undone checkpoint and hands the tail back. */
  lemma UndoHandsBack(s: State, env: Env, payload: string, junk: set<Commit>)
    requires Inv(s) && env.captures && Undo(s, env).value.Some?
    ensures var o := Undo(s, env);
            && Redo(StashPayload(o.state, payload), junk).value
               == Some(RedoResult(ByCheckpoint(o.value.value.id), o.value.value.title, Some(payload)))
  {
    hide Inv, Undo, Redo, Shrinks, Staged, Checkout, Ids;
    InvRepo(s);
    UndoLands(s, env);
    UndoKeeps(s, env, None);
    var o, k := Undo(s, env), |Undo(s, env).state.list|;
    var s1 := StashPayload(o.state, payload);
    var e := UndoneStep(s, env, s.list[k]);
    assert s1.redo == s.redo + [e.(payload := Some(payload))];
    InvRepo(o.state);
    FreshId(s, k);
    TopAlive(s1, e.commit, e.ownedRefs[0], junk);
    RedoReapplies(s1, junk);
  }

  lemma FreshId(s: State, k: nat)
    requires Inv(s) && k < |s.list|
    ensures s.repo.nextId !in Ids(s.list[k + 1..])
  {
  }

  lemma TopAlive(s: State, c: Commit, id: nat, junk: set<Commit>)
    requires RepoOk(s.repo) && id in s.repo.refs && s.repo.refs[id] == c
    ensures TryRestore(s.repo, c, junk).1
  {
    TryRestoreOk(s.repo, c, junk);
  }

  // ---------------------------------------------------------------- restoreTo, redo

  /** Step `j` of the walk forward after a rewind names the checkpoint it reaches, or the
      captured tree once there is no further checkpoint. */
  lemma WalkNames(s: State, id: nat, env: Env, payload: string, junks: seq<set<Commit>>, junk: set<Commit>)
    requires Inv(s) && Pinned(s) && env.captures && RestoreTo(s, id, env).value.Some?
    requires |junks| < |StashPayload(RestoreTo(s, id, env).state, payload).redo| - |s.redo|
    ensures var s2 := RedoAll(StashPayload(RestoreTo(s, id, env).state, payload), junks);
            var next := IndexOf(s.list, id) + 1 + |junks|;
            var r := Redo(s2, junk).value;
            && r.Some? && next <= |s.list|
            && r.value.name == (if next < |s.list| then ByCheckpoint(s.list[next].id)
                                else ByCommit(Commit(Staged(s.repo, env.seeded), env.meta)))
            && r.value.title == s.list[if next < |s.list| then next else |s.list| - 1].title
  {
    hide Inv, Pinned, RestoreTo, StashPayload, RedoAll, Batch, Rewound, Redo, Staged;
    var k, phantom := RewindStacks(s, id, env, payload);
    var s1, j := StashPayload(RestoreTo(s, id, env).state, payload), |junks|;
    BatchFound(s, env, RestoreTo(s, id, env), k, phantom);
    RedoWalk(s1, junks);
    var b := Batch(s, env, k, phantom, payload);
    BatchFromTop(s, env, k, phantom, payload, j);
    BatchTitles(s, env, k, phantom, payload, j);
    RestOfBatch(s.redo, b, j);
    RedoStepWalk(RedoAll(s1, junks), junk);
    assert (s.redo + b[..|b| - j])[|s.redo| + |b| - j - 1] == b[|b| - 1 - j];
  }

  lemma BatchTitles(s: State, env: Env, k: nat, phantom: bool, payload: string, i: nat)
    requires k < |s.list| && (phantom || k + 1 < |s.list|)
    requires i < |Batch(s, env, k, phantom, payload)|
    ensures var b, n := Batch(s, env, k, phantom, payload), |s.list| - (k + 1);
            var e := b[|b| - 1 - i];
            && e.title == s.list[if i < n then k + 1 + i else |s.list| - 1].title
            && (i == n ==> e.commit == Commit(Staged(s.repo, env.seeded), env.meta))
  {
    hide Staged;
  }

  /** Dropping the payloads changes no file, list or step, and every redo from then on does
      what it would have done, without a payload. */
  lemma DropForgets(s: State, junk: set<Commit>)
    ensures DropPayloads(s) == s.(redo := DropPayloads(s).redo) && |DropPayloads(s).redo| == |s.redo|
    ensures var o, o' := Redo(s, junk), Redo(DropPayloads(s), junk);
            && o'.state == DropPayloads(o.state)
            && (o.value.None? <==> o'.value.None?)
            && (o.value.Some? ==> o'.value.value == o.value.value.(payload := None))
    decreases |s.redo|
  {
    hide TryRestore, DropPayloads, Redo, SkipTop, ApplyTop;
    DropShape(s);
    if s.redo == [] {
      NoRedo(s, junk);
      NoRedo(DropPayloads(s), junk);
    } else {
      RedoUnfolds(s, junk);
      RedoUnfolds(DropPayloads(s), junk);
      DropTop(s, junk);
      DropForgets(SkipTop(s, junk), junk);
    }
  }

  lemma DropShape(s: State)
    ensures var s' := DropPayloads(s);
            && s' == s.(redo := s'.redo) && |s'.redo| == |s.redo|
            && forall i :: 0 <= i < |s.redo| ==> s'.redo[i] == s.redo[i].(payload := None)
  {
  }

  lemma NoRedo(s: State, junk: set<Commit>)
    requires s.redo == []
    ensures Redo(s, junk) == Outcome(s, None) && DropPayloads(s) == s
  {
  }

  lemma DropTop(s: State, junk: set<Commit>)
    requires s.redo != []
    ensures |DropPayloads(s).redo| == |s.redo| > |SkipTop(s, junk).redo|
    ensures SkipTop(DropPayloads(s), junk) == DropPayloads(SkipTop(s, junk))
    ensures ApplyTop(DropPayloads(s), junk) == DropPayloads(ApplyTop(s, junk))
  {
    hide TryRestore;
  }
}
