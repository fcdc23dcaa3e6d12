/** Redo undoes a rewind: the same trees in reverse order, the same list, the same stack. */
module CheckpointRoundTrip {
  import opened Options
  import opened CheckpointSteps
  import opened CheckpointInvariant
  import opened CheckpointOps

  function RedoAll(s: State, junks: seq<set<Commit>>): State
    decreases |junks|
  {
    if junks == [] then s else
    Redo(RedoAll(s, junks[..|junks| - 1]), junks[|junks| - 1]).state
  }

  /** The working tree after checking out `trees` one after another. */
  function Replay(r: Repo, trees: seq<Tree>): Tree
    decreases |trees|
  {
    if trees == [] then r.work else
    Checkout(r.(work := Replay(r, trees[..|trees| - 1])), trees[|trees| - 1])
  }

  /** The trees of the top `n` steps of the stack, in the order redo visits them. */
  function TopTrees(redo: seq<RedoStep>, n: nat): (trees: seq<Tree>)
    requires n <= |redo|
    ensures |trees| == n
  {
    seq(n, i requires 0 <= i < n => redo[|redo| - 1 - i].commit.tree)
  }

  /** What the top `n` steps put back in the list. */
  function TopReAdds(redo: seq<RedoStep>, n: nat): seq<Checkpoint>
    requires n <= |redo|
  {
    if n == 0 then [] else TopReAdds(redo, n - 1) + redo[|redo| - n].reAdd
  }

  predicate SameAt(a: Tree, b: Tree, p: Path) {
    (p in a <==> p in b) && (p in a && p in b ==> a[p] == b[p])
  }

  /** The working tree is the snapshot, up to files git leaves alone. */
  ghost predicate Shows(r: Repo, t: Tree) {
    && (forall p :: p in t ==> p in r.work && r.work[p] == t[p])
    && (forall p :: p in r.work && p !in t ==> p in r.tracked || p in r.ignored)
  }

  /** A path survives a series of checkouts if the last tree has it, or if git leaves it
      alone and it was there before or in any of the trees. */
  lemma {:induction false} ReplayAt(r: Repo, trees: seq<Tree>, p: Path)
    requires trees != []
    ensures var w, end := Replay(r, trees), trees[|trees| - 1];
            && (p in end ==> p in w && w[p] == end[p])
            && (p !in end && p !in r.tracked && p !in r.ignored ==> p !in w)
            && (p in r.tracked || p in r.ignored ==> (p in w <==> p in r.work || exists t :: t in trees && p in t))
    decreases |trees|
  {
    var n := |trees| - 1;
    var front, end := trees[..n], trees[n];
    var before := Replay(r, front);
    assert Replay(r, trees) == Checkout(r.(work := before), end);
    assert trees == front + [end];
    assert forall t :: t in trees <==> t in front || t == end;
    if front != [] {
      ReplayAt(r, front, p);
    }
  }

  /** Redoing from a fully pinned state never skips a step. */
  lemma {:induction false} RedoWalk(s: State, junks: seq<set<Commit>>)
    requires Inv(s) && Pinned(s) && |junks| <= |s.redo|
    ensures var s' := RedoAll(s, junks);
            && Inv(s') && Pinned(s') && Line(s') == Line(s)
            && s'.redo == s.redo[..|s.redo| - |junks|]
            && s'.list == s.list + TopReAdds(s.redo, |junks|)
            && s'.repo.tracked == s.repo.tracked && s'.repo.ignored == s.repo.ignored
            && s'.repo.work == Replay(s.repo, TopTrees(s.redo, |junks|))
    decreases |junks|
  {
    hide Inv, Pinned, Redo, Line, NameOf, RepoOk, Shrinks, Ids, Refs;
    if junks != [] {
      var n := |junks| - 1;
      RedoWalk(s, junks[..n]);
      var mid := RedoAll(s, junks[..n]);
      RedoStepWalk(mid, junks[n]);
      assert TopTrees(s.redo, n + 1)[..n] == TopTrees(s.redo, n);
      assert mid.redo[|mid.redo| - 1] == s.redo[|s.redo| - 1 - n];
    }
  }

  lemma RedoStepWalk(s: State, junk: set<Commit>)
    requires Inv(s) && Pinned(s) && s.redo != []
    ensures var o := Redo(s, junk);
            && Reapplied(s, o) && Inv(o.state) && Pinned(o.state) && Line(o.state) == Line(s)
  {
    NoDeadCommit(s, Env(true, true, 0, 0, junk));
    ReappliedKeeps(s, Redo(s, junk), None, 0);
    TopApart(s);
    assert Line(Redo(s, junk).state) == Line(s);
  }

  // ---------------------------------------------------------------- restoreTo, then redo

  lemma StashKeeps(s: State, payload: string)
    requires Inv(s)
    ensures Inv(StashPayload(s, payload)) && (Pinned(s) ==> Pinned(StashPayload(s, payload)))
    ensures Line(StashPayload(s, payload)) == Line(s)
  {
    PayloadsKeep(s, StashPayload(s, payload), None, 0);
    ForwardIgnoresPayload(s.redo, StashPayload(s, payload).redo);
  }

  /** The trees a rewind to position `k` and the walk back to the present show. */
  predicate Visited(s: State, k: nat, p: Path)
    requires k < |s.list|
  {
    exists i :: k <= i < |s.list| && p in s.list[i].commit.tree
  }

  /** The steps a successful rewind stacked, with the tail stashed on the bottom one. */
  function Batch(s: State, env: Env, k: nat, phantom: bool, payload: string): seq<RedoStep>
    requires k < |s.list| && (phantom || k + 1 < |s.list|)
  {
    var b := Bottom(s, env, phantom) + OwnSteps(s.list[k + 1..]);
    b[0 := b[0].(payload := Some(payload))]
  }

  lemma InvRepo(s: State)
    requires Inv(s)
    ensures RepoOk(s.repo)
  {
  }

  lemma StashOnBottom(s: State, s1: State, b: seq<RedoStep>, payload: string)
    requires b != [] && s1.redo == s.redo + b && s1.last == Some(|s.redo|)
    ensures StashPayload(s1, payload) == s1.(redo := s.redo + b[0 := b[0].(payload := Some(payload))])
  {
  }

  lemma RewindStacks(s: State, id: nat, env: Env, payload: string) returns (k: nat, phantom: bool)
    requires Inv(s) && Pinned(s) && env.captures && RestoreTo(s, id, env).value.Some?
    ensures k == IndexOf(s.list, id) && Rewound(s, env, RestoreTo(s, id, env), k, phantom)
    ensures phantom || k + 1 < |s.list|
    ensures var s1 := StashPayload(RestoreTo(s, id, env).state, payload);
            && Inv(s1) && Pinned(s1) && s1.list == s.list[..k + 1]
            && s1.redo == s.redo + Batch(s, env, k, phantom, payload)
            && s1.repo == RestoreTo(s, id, env).state.repo
  {
    hide Inv, Pinned, RestoreTo, StashPayload, OwnSteps, Line, Checkout, Shrinks, RepoOk, Staged;
    InvRepo(s);
    k, phantom := RestoreRewinds(s, id, env);
    var o := RestoreTo(s, id, env);
    RewoundInv(s, env, o, k, phantom);
    RewoundPinned(s, env, o, k, phantom);
    StashKeeps(o.state, payload);
    assert o.state.redo == s.redo + (Bottom(s, env, phantom) + OwnSteps(s.list[k + 1..]));
    StashOnBottom(s, o.state, Bottom(s, env, phantom) + OwnSteps(s.list[k + 1..]), payload);
  }

  /** Position `i` from the top of the batch is the own step of the `i`-th skipped checkpoint. */
  lemma BatchFromTop(s: State, env: Env, k: nat, phantom: bool, payload: string, i: nat)
    requires k < |s.list| && (phantom || k + 1 < |s.list|)
    requires i < |Batch(s, env, k, phantom, payload)|
    ensures var b, n := Batch(s, env, k, phantom, payload), |s.list| - (k + 1);
            var e := b[|b| - 1 - i];
            && |b| == (if phantom then n + 1 else n)
            && e.payload == (if i + 1 == |b| then Some(payload) else None)
            && (i < n ==> (e.commit == s.list[k + 1 + i].commit && e.reAdd == [s.list[k + 1 + i]]))
            && (i == n ==> (e.commit == PhantomStep(s, env).commit && e.reAdd == []))
  {
  }

  lemma {:induction false} BatchReAdds(s: State, env: Env, k: nat, phantom: bool, payload: string, j: nat)
    requires k < |s.list| && (phantom || k + 1 < |s.list|)
    requires j <= |Batch(s, env, k, phantom, payload)|
    ensures var n := |s.list| - (k + 1);
            TopReAdds(s.redo + Batch(s, env, k, phantom, payload), j) == s.list[k + 1..][..if j < n then j else n]
    decreases j
  {
    hide Batch;
    if j > 0 {
      var b := Batch(s, env, k, phantom, payload);
      BatchReAdds(s, env, k, phantom, payload, j - 1);
      BatchFromTop(s, env, k, phantom, payload, j - 1);
      assert (s.redo + b)[|s.redo + b| - j] == b[|b| - j];
      var newer := s.list[k + 1..];
      assert j <= |newer| ==> newer[..j] == newer[..j - 1] + [s.list[k + j]];
    }
  }

  /** The tree redo leaves after its `j`-th step is that step's tree. */
  lemma WalkShows(s: State, junks: seq<set<Commit>>)
    requires Inv(s) && Pinned(s) && 0 < |junks| <= |s.redo|
    ensures Shows(RedoAll(s, junks).repo, s.redo[|s.redo| - |junks|].commit.tree)
  {
    hide Inv, Pinned, RedoAll, Replay;
    RedoWalk(s, junks);
    var trees := TopTrees(s.redo, |junks|);
    forall p ensures
      var w, end := Replay(s.repo, trees), trees[|trees| - 1];
      && (p in end ==> p in w && w[p] == end[p])
      && (p !in end && p !in s.repo.tracked && p !in s.repo.ignored ==> p !in w)
    {
      ReplayAt(s.repo, trees, p);
    }
  }

  /** Where `j` redos over a batch lead. */
  ghost predicate WalkedBatch(s: State, s2: State, k: nat, j: nat, steps: nat, payload: string)
    requires k < |s.list|
  {
    && s2.list == s.list[..if k + 1 + j < |s.list| then k + 1 + j else |s.list|]
    && (0 < j < |s.list| - k ==> Shows(s2.repo, s.list[k + j].commit.tree))
    && (j == steps ==> s2.redo == s.redo && s2.list == s.list)
    && (j < steps ==>
          var o := Redo(s2, {});
          o.value.Some? && o.value.value.payload == (if j + 1 == steps then Some(payload) else None))
  }

  lemma BatchNext(s: State, s2: State, env: Env, k: nat, phantom: bool, payload: string, j: nat)
    requires Inv(s2) && Pinned(s2) && k < |s.list| && (phantom || k + 1 < |s.list|)
    requires j < |Batch(s, env, k, phantom, payload)|
    requires s2.redo == s.redo + Batch(s, env, k, phantom, payload)[..|Batch(s, env, k, phantom, payload)| - j]
    ensures var o, steps := Redo(s2, {}), |Batch(s, env, k, phantom, payload)|;
            o.value.Some? && o.value.value.payload == (if j + 1 == steps then Some(payload) else None)
  {
    hide Inv, Pinned, Batch, Redo;
    BatchFromTop(s, env, k, phantom, payload, j);
    RedoStepWalk(s2, {});
  }

  lemma BatchSize(s: State, env: Env, k: nat, phantom: bool, payload: string)
    requires k < |s.list| && (phantom || k + 1 < |s.list|)
    ensures |Batch(s, env, k, phantom, payload)| == |s.list| - (k + 1) + (if phantom then 1 else 0)
  {
  }

  lemma BatchShows(s: State, s1: State, env: Env, k: nat, phantom: bool, payload: string, junks: seq<set<Commit>>)
    requires Inv(s1) && Pinned(s1) && k < |s.list| && (phantom || k + 1 < |s.list|)
    requires s1.redo == s.redo + Batch(s, env, k, phantom, payload)
    requires 0 < |junks| < |s.list| - k && |junks| <= |Batch(s, env, k, phantom, payload)|
    ensures Shows(RedoAll(s1, junks).repo, s.list[k + |junks|].commit.tree)
  {
    hide *;
    var b, j := Batch(s, env, k, phantom, payload), |junks|;
    BatchFromTop(s, env, k, phantom, payload, j - 1);
    assert s1.redo[|s1.redo| - j] == b[|b| - j];
    WalkShows(s1, junks);
  }

  lemma RestOfBatch(below: seq<RedoStep>, b: seq<RedoStep>, j: nat)
    requires j <= |b|
    ensures (below + b)[..|below + b| - j] == below + b[..|b| - j]
    ensures j == |b| ==> (below + b)[..|below + b| - j] == below
  {
  }

  lemma FrontGrows(list: seq<Checkpoint>, k: nat, j: nat)
    requires k < |list|
    ensures var n, end := |list| - (k + 1), if k + 1 + j < |list| then k + 1 + j else |list|;
            list[..k + 1] + list[k + 1..][..if j < n then j else n] == list[..end]
    ensures j >= |list| - (k + 1) ==> list[..if k + 1 + j < |list| then k + 1 + j else |list|] == list
  {
  }

  lemma BatchWalk(s: State, s1: State, env: Env, k: nat, phantom: bool, payload: string, junks: seq<set<Commit>>)
    requires Inv(s1) && Pinned(s1) && k < |s.list| && (phantom || k + 1 < |s.list|)
    requires s1.list == s.list[..k + 1] && s1.redo == s.redo + Batch(s, env, k, phantom, payload)
    requires |junks| <= |Batch(s, env, k, phantom, payload)|
    ensures RedoAll(s1, junks).redo == s1.redo[..|s1.redo| - |junks|]
    ensures WalkedBatch(s, RedoAll(s1, junks), k, |junks|, |Batch(s, env, k, phantom, payload)|, payload)
  {
    hide Inv, Pinned, Shows, RedoAll, Batch, Redo, Replay, TopReAdds, TopTrees, Line;
    var b, j := Batch(s, env, k, phantom, payload), |junks|;
    BatchSize(s, env, k, phantom, payload);
    RedoWalk(s1, junks);
    var s2 := RedoAll(s1, junks);
    BatchReAdds(s, env, k, phantom, payload, j);
    RestOfBatch(s.redo, b, j);
    FrontGrows(s.list, k, j);
    if 0 < j < |s.list| - k {
      BatchShows(s, s1, env, k, phantom, payload, junks);
    }
    if j < |b| {
      BatchNext(s, s2, env, k, phantom, payload, j);
    }
  }

  /** After a rewind with conversation tail `payload`, every redo moves one checkpoint
      forward; the last one ends at the pre-rewind list and stack, and it alone hands the
      tail back. */
  lemma RestoreThenRedo(s: State, id: nat, env: Env, payload: string, junks: seq<set<Commit>>)
    requires Inv(s) && Pinned(s) && env.captures && RestoreTo(s, id, env).value.Some?
    requires |junks| <= |StashPayload(RestoreTo(s, id, env).state, payload).redo| - |s.redo|
    ensures var s1 := StashPayload(RestoreTo(s, id, env).state, payload);
            var s2 := RedoAll(s1, junks);
            var k, j, steps := IndexOf(s.list, id), |junks|, |s1.redo| - |s.redo|;
            && k < |s.list| && 1 <= steps && |s.list| - (k + 1) <= steps <= |s.list| - k
            && s2.redo == s1.redo[..|s1.redo| - j]
            && WalkedBatch(s, s2, k, j, steps, payload)
  {
    hide Inv, Pinned, RestoreTo, StashPayload, RedoAll, Batch, WalkedBatch, Rewound;
    var k, phantom := RewindStacks(s, id, env, payload);
    var s1 := StashPayload(RestoreTo(s, id, env).state, payload);
    BatchFound(s, env, RestoreTo(s, id, env), k, phantom);
    BatchSize(s, env, k, phantom, payload);
    BatchWalk(s, s1, env, k, phantom, payload, junks);
  }

  lemma BatchFound(s: State, env: Env, o: Outcome<Checkpoint>, k: nat, phantom: bool)
    requires Rewound(s, env, o, k, phantom)
    ensures k < |s.list|
  {
  }

  lemma RewoundPinned(s: State, env: Env, o: Outcome<Checkpoint>, k: nat, phantom: bool)
    requires Inv(s) && Pinned(s) && Rewound(s, env, o, k, phantom)
    ensures Pinned(o.state)
  {
    hide Inv;
    RewoundInv(s, env, o, k, phantom);
  }

  /** The trees the walk back visits: those of the skipped checkpoints in order, then, unless
      the newest of them already holds it, the pre-rewind tree. */
  lemma RewoundTrees(s: State, env: Env, o: Outcome<Checkpoint>, k: nat, phantom: bool)
    requires Rewound(s, env, o, k, phantom) && env.captures
    ensures var trees, n := TopTrees(o.state.redo, |o.state.redo| - |s.redo|), |s.list| - (k + 1);
            && 0 < |trees| == (if phantom then n + 1 else n)
            && (forall i :: 0 <= i < n ==> trees[i] == s.list[k + 1 + i].commit.tree)
            && trees[|trees| - 1] == Staged(s.repo, env.seeded)
  {
  }

  lemma InTrees(s: State, k: nat, trees: seq<Tree>, p: Path)
    requires k < |s.list| && |s.list| - (k + 1) <= |trees| <= |s.list| - k && trees != []
    requires forall i :: 0 <= i < |s.list| - (k + 1) ==> trees[i] == s.list[k + 1 + i].commit.tree
    requires p !in trees[|trees| - 1]
    ensures (p in s.list[k].commit.tree || exists t :: t in trees && p in t) <==> Visited(s, k, p)
  {
    if Visited(s, k, p) {
      var i :| k <= i < |s.list| && p in s.list[i].commit.tree;
      if i > k { assert trees[i - k - 1] in trees; }
    }
    if t :| t in trees && p in t {
      var i :| 0 <= i < |trees| && trees[i] == t;
      assert p in s.list[k + 1 + i].commit.tree;
    }
  }

  /** The last tree decides every path of it; a path it lacks stays only if git leaves it
      alone and some tree on the way, the target's included, put it there. */
  lemma EndsAt(s: State, k: nat, r: Repo, trees: seq<Tree>, seeded: bool, p: Path)
    requires k < |s.list| && |s.list| - (k + 1) <= |trees| <= |s.list| - k && trees != []
    requires forall i :: 0 <= i < |s.list| - (k + 1) ==> trees[i] == s.list[k + 1 + i].commit.tree
    requires trees[|trees| - 1] == Staged(s.repo, seeded)
    requires r.work == Checkout(s.repo, s.list[k].commit.tree)
    requires r.tracked == s.repo.tracked && r.ignored == s.repo.ignored && p !in s.repo.ignored
    ensures SameAt(Replay(r, trees), s.repo.work, p)
       <==> !(p in s.repo.tracked && p !in s.repo.work && Visited(s, k, p))
  {
    hide Replay, Visited;
    ReplayAt(r, trees, p);
    if p !in s.repo.work {
      InTrees(s, k, trees, p);
    }
  }

  /** ... and the walk ends at the exact pre-rewind tree. It can differ, among paths that are
      not ignored, at exactly those the user's index tracks, that the pre-rewind tree lacked
      and that one of the restored snapshots has: git never deletes a tracked file. */
  lemma RestoreThenRedoTree(s: State, id: nat, env: Env, junks: seq<set<Commit>>, p: Path)
    requires Inv(s) && Pinned(s) && env.captures && RestoreTo(s, id, env).value.Some?
    requires |junks| == |RestoreTo(s, id, env).state.redo| - |s.redo|
    requires p !in s.repo.ignored
    ensures var s2 := RedoAll(RestoreTo(s, id, env).state, junks);
            && IndexOf(s.list, id) < |s.list|
            && (SameAt(s2.repo.work, s.repo.work, p)
                <==> !(p in s.repo.tracked && p !in s.repo.work && Visited(s, IndexOf(s.list, id), p)))
  {
    hide Inv, Pinned, RedoAll, Replay, RestoreTo, TopTrees, Visited, Rewound, SameAt, Line;
    InvRepo(s);
    var k, phantom := RestoreRewinds(s, id, env);
    var o := RestoreTo(s, id, env);
    RewoundInv(s, env, o, k, phantom);
    RewoundPinned(s, env, o, k, phantom);
    RedoWalk(o.state, junks);
    RewoundTrees(s, env, o, k, phantom);
    RewoundRepo(s, env, o, k, phantom);
    EndsAt(s, k, o.state.repo, TopTrees(o.state.redo, |junks|), env.seeded, p);
  }

  lemma RewoundRepo(s: State, env: Env, o: Outcome<Checkpoint>, k: nat, phantom: bool)
    requires Rewound(s, env, o, k, phantom)
    ensures k < |s.list| && o.state.repo.work == Checkout(s.repo, s.list[k].commit.tree)
    ensures o.state.repo.tracked == s.repo.tracked && o.state.repo.ignored == s.repo.ignored
  {
  }

  // ---------------------------------------------------------------- a file that stays

  /** Snapshot, delete the tracked file, snapshot again. */
  function Deletes(env: Env): seq<(Op, Env)> {
    [(DoSnapshot("a", false), env), (Edit(map[]), env), (DoSnapshot("b", false), env)]
  }

  lemma SnapshotOnly(s: State, title: string, env: Env)
    requires env.captures && s.redo == [] && |s.list| < MAX_CHECKPOINTS
    ensures var s' := Snapshot(s, title, false, None, env).state;
            && s'.redo == [] && |s'.list| == |s.list| + 1 && s'.list[..|s.list|] == s.list
            && s'.list[|s.list|].id == s.repo.nextId
            && s'.list[|s.list|].commit.tree == Staged(s.repo, env.seeded)
            && s'.repo.nextId == s.repo.nextId + 1 && s'.repo.work == s.repo.work
            && s'.repo.tracked == s.repo.tracked && s'.repo.ignored == s.repo.ignored
  {
  }

  lemma AfterDeletes(p: Path, content: string, env: Env)
    requires env.captures
    ensures var s := Run(Empty(map[p := content], {p}, {}), Deletes(env), None);
            && s.redo == [] && |s.list| == 2 && s.list[0].id == 0
            && s.list[0].commit.tree == map[p := content] && s.repo.work == map[]
            && s.repo.tracked == {p} && s.repo.ignored == {}
  {
    hide Snapshot, Staged;
    var deletes := Deletes(env);
    var s0 := Empty(map[p := content], {p}, {});
    assert deletes[..2][..1] == deletes[..1] && deletes[..1][..0] == [];
    SnapshotOnly(s0, "a", env);
    var s1 := Run(s0, deletes[..1], None);
    assert deletes[..1][0] == deletes[0] && Run(s0, [], None) == s0;
    assert s1 == Apply(s0, deletes[0].0, None, env);
    assert s1 == Snapshot(s0, "a", false, None, env).state;
    var s2 := Run(s0, deletes[..2], None);
    assert s2 == s1.(repo := s1.repo.(work := map[]));
    SnapshotOnly(s2, "b", env);
    assert Run(s0, deletes, None) == Snapshot(s2, "b", false, None, env).state;
    assert Staged(s0.repo, env.seeded) == map[p := content] by { StagedPlain(p, content, env.seeded); }
  }

  lemma StagedPlain(p: Path, content: string, seeded: bool)
    ensures Staged(Empty(map[p := content], {p}, {}).repo, seeded) == map[p := content]
  {
  }

  /** A tracked file that was deleted before the rewind is back when redo has walked all the
      way forward: the last checkout leaves it alone, whichever index the captures start from. */
  lemma DeletedFileStays(p: Path, content: string, env: Env, junks: seq<set<Commit>>)
    requires env.captures
    requires var s := Run(Empty(map[p := content], {p}, {}), Deletes(env), None);
             |junks| == |RestoreTo(s, 0, env).state.redo| - |s.redo|
    ensures var s := Run(Empty(map[p := content], {p}, {}), Deletes(env), None);
            && RestoreTo(s, 0, env).value.Some? && p !in s.repo.work
            && p in RedoAll(RestoreTo(s, 0, env).state, junks).repo.work
  {
    hide Run, Inv, Exact, RestoreTo, RedoAll;
    var s := Run(Empty(map[p := content], {p}, {}), Deletes(env), None);
    EveryRun(map[p := content], {p}, {}, Deletes(env), None);
    ExactIs(s);
    AfterDeletes(p, content, env);
    NoDeadCommit(s, env);
    assert s.list[0] in s.list;
    RestoreThenRedoTree(s, 0, env, junks, p);
    assert p in s.list[0].commit.tree;
    assert IndexOf(s.list, 0) == 0;
  }
}
