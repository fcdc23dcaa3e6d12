/**
  What every operation of the checkpoint manager keeps: ref ownership is a partition, each
  surviving ref pins the commit its owner needs, and the visible list followed by the redo
  stack is one timeline in creation order that never exceeds the cap.
  */
module CheckpointInvariant {
  import opened CheckpointSteps

  // ---------------------------------------------------------------- the timeline

  /** What redoing everything would append to the list: the stack read top to bottom. */
  function Forward(redo: seq<RedoStep>): seq<Checkpoint> {
    if redo == [] then [] else redo[|redo| - 1].reAdd + Forward(redo[..|redo| - 1])
  }

  function Line(s: State): seq<Checkpoint> {
    s.list + Forward(s.redo)
  }

  /** Creation order: ids come from one counter. */
  ghost predicate Ordered(cs: seq<Checkpoint>) {
    forall i, j :: 0 <= i < j < |cs| ==> cs[i].id < cs[j].id
  }

  lemma {:induction false} ForwardPush(redo: seq<RedoStep>, e: RedoStep)
    ensures Forward(redo + [e]) == e.reAdd + Forward(redo)
  {
    assert (redo + [e])[..|redo|] == redo;
  }

  /** Stacking `newer` puts exactly `newer` back in front of the stack, oldest first. */
  lemma {:induction false} ForwardOwnSteps(redo: seq<RedoStep>, newer: seq<Checkpoint>)
    ensures Forward(redo + OwnSteps(newer)) == newer + Forward(redo)
    decreases |newer|
  {
    if newer == [] {
      assert redo + OwnSteps(newer) == redo;
    } else {
      var c, rest := newer[0], newer[1..];
      assert redo + OwnSteps(newer) == (redo + OwnSteps(rest)) + [OwnStep(c)];
      ForwardPush(redo + OwnSteps(rest), OwnStep(c));
      ForwardOwnSteps(redo, rest);
      assert newer == [c] + rest;
    }
  }

  lemma {:induction false} ForwardIgnoresPayload(a: seq<RedoStep>, b: seq<RedoStep>)
    requires |a| == |b| && forall i :: 0 <= i < |a| ==> a[i].reAdd == b[i].reAdd
    ensures Forward(a) == Forward(b)
    decreases |a|
  {
    if a != [] {
      ForwardIgnoresPayload(a[..|a| - 1], b[..|b| - 1]);
    }
  }

  lemma OrderedDrop(a: seq<Checkpoint>, b: seq<Checkpoint>, c: seq<Checkpoint>)
    requires Ordered(a + b + c)
    ensures Ordered(a + c)
  {
    var all := a + b + c;
    forall i, j | 0 <= i < j < |a + c| ensures (a + c)[i].id < (a + c)[j].id {
      var i' := if i < |a| then i else i + |b|;
      var j' := if j < |a| then j else j + |b|;
      assert (a + c)[i] == all[i'] && (a + c)[j] == all[j'];
    }
  }

  // ---------------------------------------------------------------- ownership

  predicate Agrees(id: nat, c: Commit, r: Repo) {
    id in r.refs ==> r.refs[id] == c
  }

  /** The first owned ref is the one that pins the tree the step restores. */
  ghost predicate StepOk(e: RedoStep, r: Repo) {
    && e.ownedRefs != []
    && Agrees(e.ownedRefs[0], e.commit, r)
    && (forall i, j :: 0 <= i < j < |e.ownedRefs| ==> e.ownedRefs[i] != e.ownedRefs[j])
    && (forall x :: x in e.ownedRefs ==> x < r.nextId)
    && (forall c :: c in e.reAdd ==> c.id in e.ownedRefs && Agrees(c.id, c.commit, r))
  }

  ghost predicate RepoOk(r: Repo) {
    && r.refs.Values <= r.objects
    && (forall id :: id in r.refs ==> id < r.nextId)
  }

  ghost predicate ListOk(list: seq<Checkpoint>, r: Repo) {
    forall c :: c in list ==> c.id < r.nextId && Agrees(c.id, c.commit, r)
  }

  ghost predicate StackOk(redo: seq<RedoStep>, r: Repo) {
    && (forall i :: 0 <= i < |redo| ==> StepOk(redo[i], r))
    && (forall i, j :: 0 <= i < j < |redo| ==> Refs(redo[i]) !! Refs(redo[j]))
  }

  ghost predicate Apart(list: seq<Checkpoint>, redo: seq<RedoStep>) {
    forall i :: 0 <= i < |redo| ==> Refs(redo[i]) !! Ids(list)
  }

  ghost predicate Inv(s: State) {
    && RepoOk(s.repo)
    && ListOk(s.list, s.repo)
    && StackOk(s.redo, s.repo)
    && Apart(s.list, s.redo)
    && Ordered(Line(s))
    && |Line(s)| <= MAX_CHECKPOINTS
    && (s.last.Some? ==> s.last.value < |s.redo|)
  }

  lemma InvParts(s: State)
    requires Inv(s)
    ensures RepoOk(s.repo) && ListOk(s.list, s.repo) && StackOk(s.redo, s.repo) && Apart(s.list, s.redo)
    ensures Ordered(Line(s)) && |Line(s)| <= MAX_CHECKPOINTS && (s.last.Some? ==> s.last.value < |s.redo|)
  {
    hide RepoOk, ListOk, StackOk, Apart, Ordered, Line;
  }

  lemma PartsInv(s: State)
    requires RepoOk(s.repo) && ListOk(s.list, s.repo) && StackOk(s.redo, s.repo) && Apart(s.list, s.redo)
    requires Ordered(Line(s)) && |Line(s)| <= MAX_CHECKPOINTS && (s.last.Some? ==> s.last.value < |s.redo|)
    ensures Inv(s)
  {
    hide RepoOk, ListOk, StackOk, Apart, Ordered, Line;
  }

  function Owned(s: State): set<nat> {
    Ids(s.list) + RedoRefs(s.redo)
  }

  /** Nothing owned has lost its ref: every stored commit is pinned. */
  ghost predicate Pinned(s: State) {
    Owned(s) <= s.repo.refs.Keys
  }

  /** The hidden refs held are exactly the owned ones: none is lost and none leaks. */
  ghost predicate Exact(s: State) {
    Owned(s) == s.repo.refs.Keys
  }

  /** Refs that are held and owned by nothing. */
  function Leaked(s: State): set<nat> {
    s.repo.refs.Keys - Owned(s)
  }

  /** Deleting refs or collecting garbage keeps everything that is stated with `Agrees`. */
  ghost predicate Shrinks(r: Repo, r': Repo) {
    && r'.nextId >= r.nextId
    && (forall id :: id in r'.refs && id < r.nextId ==> id in r.refs && r'.refs[id] == r.refs[id])
  }

  lemma StepShrinks(e: RedoStep, r: Repo, r': Repo)
    requires StepOk(e, r) && Shrinks(r, r')
    ensures StepOk(e, r')
  {
    assert e.ownedRefs[0] in e.ownedRefs;
  }

  lemma ShrinkKeeps(list: seq<Checkpoint>, redo: seq<RedoStep>, r: Repo, r': Repo)
    requires ListOk(list, r) && StackOk(redo, r) && Shrinks(r, r')
    ensures ListOk(list, r') && StackOk(redo, r')
  {
    forall i | 0 <= i < |redo| ensures StepOk(redo[i], r') { StepShrinks(redo[i], r, r'); }
  }

  // ---------------------------------------------------------------- git steps

  /** Seeding the private index makes no difference if and only if no file in the working
      tree is both ignored and tracked. */
  lemma SeedingMakesNoDifference(r: Repo)
    ensures Staged(r, true) == Staged(r, false) <==> forall p :: p in r.work && p in r.ignored ==> p !in r.tracked
  {
    if Staged(r, true) == Staged(r, false) {
      forall p | p in r.work && p in r.ignored ensures p !in r.tracked {
        assert p !in Staged(r, false);
      }
    }
  }

  /** One file that is tracked and ignored: the seeded index has it, the empty one does not. */
  lemma SeededIndexDiffers(p: Path, content: string)
    ensures var r := Repo(map[p := content], {p}, {p}, {}, map[], 0);
            Staged(r, true) == map[p := content] && Staged(r, false) == map[]
  {
  }

  lemma CommitTreeOk(r: Repo, env: Env)
    requires RepoOk(r)
    ensures var (r1, made) := CommitTree(r, env);
            && RepoOk(r1) && Shrinks(r, r1) && r1.nextId == r.nextId + 1
            && r1.work == r.work && r1.tracked == r.tracked && r1.ignored == r.ignored
            && (made.None? ==> r1.refs == r.refs)
            && (made.Some? ==> (made.value.id == r.nextId
                                 && made.value.commit.tree == Staged(r, env.seeded)
                                 && r1.refs == r.refs[r.nextId := made.value.commit]))
  {
  }

  lemma DeleteRefsOk(r: Repo, ids: set<nat>)
    requires RepoOk(r)
    ensures RepoOk(DeleteRefs(r, ids)) && Shrinks(r, DeleteRefs(r, ids))
  {
    var r' := DeleteRefs(r, ids);
    forall c | c in r'.refs.Values ensures c in r.refs.Values {
      var id :| id in r'.refs && r'.refs[id] == c;
      assert id in r.refs && r.refs[id] == c;
    }
  }

  lemma TryRestoreOk(r: Repo, c: Commit, junk: set<Commit>)
    requires RepoOk(r)
    ensures var (r1, ok) := TryRestore(r, c, junk);
            && RepoOk(r1) && Shrinks(r, r1)
            && r1.refs == r.refs && r1.nextId == r.nextId && r1.objects <= r.objects
            && r1.tracked == r.tracked && r1.ignored == r.ignored
            && r1.work == (if ok then Checkout(r, c.tree) else r.work)
            && (ok <==> c in r1.objects)
            && (ok <==> c in r.objects && (c !in junk || c in r.refs.Values))
  {
  }

  /** What a run of pops did: it stopped at `found`, having dropped only green markers and
      dead checkpoints above it, each together with its ref. */
  ghost predicate PopSpec(list: seq<Checkpoint>, r: Repo, p: Popped) {
    var keep := if p.found.Some? then |p.list| + 1 else 0;
    && |p.list| <= |list| && keep <= |list|
    && p.list == list[..|p.list|]
    && (p.found.None? ==> p.list == [] && p.repo.work == r.work)
    && (p.found.Some? ==> (p.found.value == list[|p.list|] && !p.found.value.green
                           && p.repo.work == Checkout(r, p.found.value.commit.tree)))
    && (forall c :: c in list[keep..] ==> c.green || c.commit !in p.repo.objects)
    && p.repo.refs == r.refs - Ids(list[keep..])
    && p.repo.nextId == r.nextId && p.repo.objects <= r.objects
    && p.repo.tracked == r.tracked && p.repo.ignored == r.ignored
    && RepoOk(p.repo) && Shrinks(r, p.repo)
  }

  lemma PopOneMore(list: seq<Checkpoint>, r: Repo, r2: Repo, p: Popped)
    requires list != [] && RepoOk(r)
    requires var cp := list[|list| - 1];
             && r2.refs == r.refs - {cp.id} && (cp.green || cp.commit !in r2.objects)
    requires r2.objects <= r.objects && r2.nextId == r.nextId && r2.work == r.work
    requires r2.tracked == r.tracked && r2.ignored == r.ignored
    requires PopSpec(list[..|list| - 1], r2, p)
    ensures PopSpec(list, r, p)
  {
    hide RepoOk, Shrinks, Checkout, Ids;
    var cp, rest := list[|list| - 1], list[..|list| - 1];
    var keep := if p.found.Some? then |p.list| + 1 else 0;
    assert list[keep..] == rest[keep..] + [cp];
    IdsPush(rest[keep..], cp);
    assert p.repo.refs == r.refs - Ids(list[keep..]);
    assert p.list == list[..|p.list|];
    ShrinksOver(r, r2, p.repo, cp.id);
    if p.found.Some? { SameCheckout(r, r2, p.found.value.commit.tree); }
  }

  lemma IdsPush(cs: seq<Checkpoint>, c: Checkpoint)
    ensures Ids(cs + [c]) == Ids(cs) + {c.id}
  {
    assert forall d :: d in cs + [c] <==> d in cs || d == c;
  }

  lemma ShrinksOver(r: Repo, r2: Repo, r': Repo, id: nat)
    requires r2.refs == r.refs - {id} && r2.nextId == r.nextId && Shrinks(r2, r')
    ensures Shrinks(r, r')
  {
  }

  lemma SameCheckout(r: Repo, r2: Repo, t: Tree)
    requires r2.work == r.work && r2.tracked == r.tracked && r2.ignored == r.ignored
    ensures Checkout(r2, t) == Checkout(r, t)
  {
  }

  lemma {:induction false} PopMeetsSpec(list: seq<Checkpoint>, r: Repo, junk: set<Commit>)
    requires RepoOk(r)
    ensures PopSpec(list, r, PopRestorable(list, r, junk))
    decreases |list|
  {
    if list == [] {
      assert r.refs == r.refs - Ids(list);
      return;
    }
    var top := |list| - 1;
    var cp, rest := list[top], list[..top];
    if cp.green {
      var r2 := DeleteRef(r, cp.id);
      PopDropped(r, r2, cp.id);
      PopMeetsSpec(rest, r2, junk);
      PopOneMore(list, r, r2, PopRestorable(rest, r2, junk));
    } else {
      TryRestoreOk(r, cp.commit, junk);
      var (r1, ok) := TryRestore(r, cp.commit, junk);
      if ok {
        assert list[top + 1..] == [];
        assert r1.refs == r.refs - Ids([]);
      } else {
        var r2 := DeleteRef(r1, cp.id);
        PopDropped(r1, r2, cp.id);
        PopMeetsSpec(rest, r2, junk);
        PopOneMore(list, r, r2, PopRestorable(rest, r2, junk));
      }
    }
  }

  lemma PopDropped(r: Repo, r2: Repo, id: nat)
    requires RepoOk(r) && r2 == DeleteRef(r, id)
    ensures RepoOk(r2)
  {
    DeleteRefsOk(r, {id});
    assert r2 == DeleteRefs(r, {id});
  }
}
