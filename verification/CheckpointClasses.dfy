/**
  The manager itself: methods that pop, push and splice its own fields over a mutable
  repository and a shared file, each proved to take the step of CheckpointSteps.
  */
module CheckpointClasses {
  import opened Options
  import opened CheckpointSteps
  import Merging = CheckpointMerge
  import Ops = CheckpointOps

  /** The repository as the manager's git commands change it. */
  class Git {
    var work: Tree
    const tracked: set<Path>
    const ignored: set<Path>
    var objects: set<Commit>
    var refs: map<nat, Commit>
    var nextId: nat

    constructor (work: Tree, tracked: set<Path>, ignored: set<Path>)
      ensures View() == Repo(work, tracked, ignored, {}, map[], 0)
    {
      this.work, this.tracked, this.ignored := work, tracked, ignored;
      objects, refs, nextId := {}, map[], 0;
    }

    function View(): Repo
      reads this
    {
      Repo(work, tracked, ignored, objects, refs, nextId)
    }

    method CommitTree(env: Env) returns (made: Option<Capture>)
      modifies this
      ensures (View(), made) == CheckpointSteps.CommitTree(old(View()), env)
    {
      var id := nextId;
      nextId := nextId + 1;
      if !env.captures {
        return None;
      }
      var commit := Commit(Staged(View(), env.seeded), env.meta);
      objects := objects + {commit};
      refs := refs[id := commit];
      made := Some(Capture(id, commit));
    }

    method DeleteRef(id: nat)
      modifies this`refs
      ensures View() == CheckpointSteps.DeleteRef(old(View()), id)
    {
      refs := refs - {id};
    }

    /** Whatever the collector takes, it takes before the snapshot is read. */
    method TryRestore(commit: Commit, junk: set<Commit>) returns (ok: bool)
      modifies this
      ensures (View(), ok) == CheckpointSteps.TryRestore(old(View()), commit, junk)
    {
      objects := objects - (junk - refs.Values);
      if commit !in objects {
        return false;
      }
      WriteSnapshot(commit.tree);
      DeleteCreatedSince(commit.tree);
      assert work == Checkout(old(View()), commit.tree);
      ok := true;
    }

    /** `checkout-index -a -f`. */
    method WriteSnapshot(tree: Tree)
      modifies this`work
      ensures work == old(work) + tree
    {
      var todo := tree.Keys;
      while todo != {}
        invariant todo <= tree.Keys
        invariant work == old(work) + (map p | p in tree && p !in todo :: tree[p])
        decreases |todo|
      {
        var p :| p in todo;
        work := work[p := tree[p]];
        todo := todo - {p};
      }
      assert (map p | p in tree && p !in todo :: tree[p]) == tree;
    }

    /** Untracked, not ignored and absent from the snapshot: created since. */
    method DeleteCreatedSince(tree: Tree)
      modifies this`work
      ensures work == map p | p in old(work) && (p in tree || p in tracked || p in ignored) :: old(work)[p]
    {
      var untracked := set p | p in work && p !in tracked && p !in ignored;
      var todo := untracked;
      while todo != {}
        invariant todo <= untracked
        invariant work == map p | p in old(work) && (p in tree || p !in untracked || p in todo) :: old(work)[p]
        decreases |todo|
      {
        var p :| p in todo;
        if p !in tree {
          work := work - {p};
        }
        todo := todo - {p};
      }
    }
  }

  /** checkpoints.json; `Save` is one locked read-merge-rename. */
  class CheckpointFile {
    var disk: seq<Checkpoint>

    constructor ()
      ensures disk == []
    {
      disk := [];
    }

    method Save(list: seq<Checkpoint>, mine: Option<nat>)
      modifies this
      ensures disk == Merging.Save(old(disk), list, mine)
    {
      hide Merging.Kept, Merging.Put, Merging.Sort;
      var byId := ReadOthers(list, mine);
      ghost var base := byId;
      for i := 0 to |list|
        invariant byId == Merging.PutAll(base, list[..i])
        invariant disk == old(disk)
      {
        assert list[..i + 1] == list[..i] + [list[i]];
        Merging.PutAllPush(base, list[..i], list[i]);
        byId := Merging.Put(byId, list[i]);
      }
      assert list[..|list|] == list;
      var merged := Merging.Sort(byId);
      disk := if |merged| > MAX_CHECKPOINTS then merged[|merged| - MAX_CHECKPOINTS..] else merged;
    }

    /** The file's entries by id, without those this session removed. */
    method ReadOthers(list: seq<Checkpoint>, mine: Option<nat>) returns (byId: seq<Checkpoint>)
      ensures byId == Merging.PutAll([], Merging.Kept(disk, mine, Ids(list)))
    {
      hide Merging.Put;
      var myIds := Ids(list);
      byId := [];
      for i := 0 to |disk|
        invariant byId == Merging.PutAll([], Merging.Kept(disk[..i], mine, myIds))
      {
        Merging.KeptNext(disk, mine, myIds, i);
        if !Merging.Removed(disk[i], mine, myIds) {
          Merging.PutAllPush([], Merging.Kept(disk[..i], mine, myIds), disk[i]);
          byId := Merging.Put(byId, disk[i]);
        } else {
          assert Merging.Kept(disk[..i], mine, myIds) + [] == Merging.Kept(disk[..i], mine, myIds);
        }
      }
      assert disk[..|disk|] == disk;
    }
  }

  /** A step on the redo stack; only its payload changes after it is made. */
  class RedoEntry {
    const commit: Commit
    const title: string
    const reAdd: seq<Checkpoint>
    const ownedRefs: seq<nat>
    var payload: Option<string>

    constructor (commit: Commit, title: string, reAdd: seq<Checkpoint>, ownedRefs: seq<nat>)
      ensures View() == RedoStep(commit, title, reAdd, ownedRefs, None)
    {
      this.commit, this.title, this.reAdd, this.ownedRefs := commit, title, reAdd, ownedRefs;
      payload := None;
    }

    function View(): RedoStep
      reads this
    {
      RedoStep(commit, title, reAdd, ownedRefs, payload)
    }
  }

  ghost function Steps(entries: seq<RedoEntry>): (steps: seq<RedoStep>)
    reads entries
    ensures |steps| == |entries|
    ensures forall i :: 0 <= i < |steps| ==> steps[i] == entries[i].View()
  {
    if entries == [] then [] else Steps(entries[..|entries| - 1]) + [entries[|entries| - 1].View()]
  }

  /** Where an entry sits on the stack, if it still does. */
  ghost function Place(entries: seq<RedoEntry>, e: RedoEntry?): (place: Option<nat>)
    ensures place.Some? ==> place.value < |entries| && entries[place.value] == e
    ensures place.None? ==> e !in entries
  {
    if entries == [] then None else
    if entries[|entries| - 1] == e then Some(|entries| - 1) else Place(entries[..|entries| - 1], e)
  }

  lemma PlaceNull(entries: seq<RedoEntry>)
    ensures Place(entries, null) == None
  {
    assert Place(entries, null).None?;
  }

  lemma PlaceAt(entries: seq<RedoEntry>, i: nat)
    requires DistinctEntries(entries) && i < |entries|
    ensures Place(entries, entries[i]) == Some(i)
  {
    assert entries[i] in entries;
  }

  lemma PlaceTop(entries: seq<RedoEntry>, e: RedoEntry)
    ensures Place(entries + [e], e) == Some(|entries|)
  {
  }

  /** Popping the top loses the place of the entry on it and of no other. */
  lemma PlacePop(entries: seq<RedoEntry>, e: RedoEntry?)
    requires DistinctEntries(entries) && entries != []
    ensures var top := |entries| - 1;
            Place(entries[..top], e) == if Place(entries, e) == Some(top) then None else Place(entries, e)
  {
    var top := |entries| - 1;
    assert entries == entries[..top] + [entries[top]];
  }

  lemma TopApplied(s: State, s': State, junk: set<Commit>, e: RedoStep)
    requires s.redo != [] && e == s.redo[|s.redo| - 1]
    requires var r1 := TryRestore(s.repo, e.commit, junk).0;
             && s'.repo == r1.(refs := r1.refs - (Members(e.ownedRefs) - Ids(e.reAdd)))
             && s'.list == s.list + e.reAdd && s'.redo == s.redo[..|s.redo| - 1]
             && s'.last == if s.last == Some(|s.redo| - 1) then None else s.last
    ensures s' == Ops.ApplyTop(s, junk)
  {
    assert Members(e.ownedRefs) == Refs(e);
  }

  lemma TopSkipped(s: State, s': State, junk: set<Commit>, e: RedoStep)
    requires s.redo != [] && e == s.redo[|s.redo| - 1]
    requires var r1 := TryRestore(s.repo, e.commit, junk).0;
             && s'.repo == r1.(refs := r1.refs - (Members(e.ownedRefs) - {}))
             && s'.list == s.list && s'.redo == s.redo[..|s.redo| - 1]
             && s'.last == if s.last == Some(|s.redo| - 1) then None else s.last
    ensures s' == Ops.SkipTop(s, junk)
  {
    assert Members(e.ownedRefs) - {} == Refs(e);
  }

  function Members(ids: seq<nat>): set<nat> {
    set r | r in ids
  }

  ghost predicate DistinctEntries(entries: seq<RedoEntry>) {
    forall i, j :: 0 <= i < j < |entries| ==> entries[i] != entries[j]
  }

  class CheckpointManager {
    const git: Git
    const file: CheckpointFile
    const sessionId: Option<nat>
    var list: seq<Checkpoint>
    var redo: seq<RedoEntry>
    /** The step of the latest undo or restoreTo that restores the tree from before it. */
    var lastRedoPointEntry: RedoEntry?

    ghost predicate Valid()
      reads this
    {
      DistinctEntries(redo)
    }

    ghost function View(): State
      reads this, git, redo
    {
      State(git.View(), list, Steps(redo), Place(redo, lastRedoPointEntry))
    }

    constructor (git: Git, file: CheckpointFile, sessionId: Option<nat>)
      ensures Valid() && this.git == git && this.file == file && this.sessionId == sessionId
      ensures View() == State(git.View(), [], [], None)
    {
      this.git, this.file, this.sessionId := git, file, sessionId;
      list, redo, lastRedoPointEntry := [], [], null;
    }

    /** A failed save is swallowed and leaves the file as it was. */
    method SaveList(saves: bool)
      modifies file
      ensures file.disk == if saves then Merging.Save(old(file.disk), list, sessionId) else old(file.disk)
    {
      if saves {
        file.Save(list, sessionId);
      }
    }

    method DeleteRefsOf(ids: seq<nat>, live: set<nat>)
      modifies git`refs
      ensures git.refs == old(git.refs) - (Members(ids) - live)
    {
      for i := 0 to |ids|
        invariant git.refs == old(git.refs) - (Members(ids[..i]) - live)
      {
        assert ids[..i + 1] == ids[..i] + [ids[i]];
        assert Members(ids[..i + 1]) == Members(ids[..i]) + {ids[i]};
        if ids[i] !in live {
          git.DeleteRef(ids[i]);
        }
      }
      assert ids[..|ids|] == ids;
    }

    method ClearRedo()
      modifies this`redo, git`refs
      ensures redo == []
      ensures git.View() == DeleteRefs(old(git.View()), RedoRefs(old(Steps(redo))))
    {
      hide RedoRefs;
      var stale := redo;
      redo := [];
      assert RedoRefs([]) == {} by { Ops.NoRefs(); }
      ghost var steps := Steps(stale);
      for i := 0 to |stale|
        invariant redo == [] && Steps(stale) == steps
        invariant git.nextId == old(git.nextId) && git.objects == old(git.objects) && git.work == old(git.work)
        invariant git.refs == old(git.refs) - RedoRefs(steps[..i])
      {
        DeleteRefsOf(stale[i].ownedRefs, {});
        Ops.RedoRefsPush(steps[..i], steps[i]);
        assert steps[..i + 1] == steps[..i] + [steps[i]];
        assert Refs(steps[i]) == Members(stale[i].ownedRefs);
      }
      assert steps[..|stale|] == steps;
    }

    method Snapshot(title: string, green: bool, env: Env, saves: bool) returns (made: Option<Checkpoint>)
      requires Valid()
      modifies this, git, file
      ensures Valid()
      ensures Outcome(View(), made) == CheckpointSteps.Snapshot(old(View()), title, green, sessionId, env)
      ensures file.disk == if saves && made.Some? then Merging.Save(old(file.disk), list, sessionId) else old(file.disk)
    {
      ClearRedo();
      var capture := git.CommitTree(env);
      if capture.None? {
        return None;
      }
      var cp := Checkpoint(capture.value.id, title, capture.value.commit, env.now, green, sessionId);
      list := list + [cp];
      PruneOldest();
      SaveList(saves);
      made := Some(cp);
    }

    /** Cut the list to the newest fifty; the refs of the others are released. */
    method PruneOldest()
      modifies this`list, git`refs
      ensures list == Prune(old(list))
      ensures git.View() == DeleteRefs(old(git.View()), Ids(old(list)[..|old(list)| - |list|]))
    {
      ghost var grown, cut := list, 0;
      while |list| > MAX_CHECKPOINTS
        invariant cut <= |grown| && list == grown[cut..] && (cut > 0 ==> |list| >= MAX_CHECKPOINTS)
        invariant git.refs == old(git.refs) - Ids(grown[..cut])
        decreases |list|
      {
        var oldest := list[0];
        list := list[1..];
        git.DeleteRef(oldest.id);
        Ops.IdsSplit(grown[..cut], [oldest]);
        assert grown[..cut + 1] == grown[..cut] + [oldest];
        cut := cut + 1;
      }
    }

    /** Stack a new step. */
    method Push(commit: Commit, title: string, reAdd: seq<Checkpoint>, ownedRefs: seq<nat>) returns (entry: RedoEntry)
      requires Valid()
      modifies this`redo
      ensures Valid() && fresh(entry) && redo == old(redo) + [entry]
      ensures Steps(redo) == old(Steps(redo)) + [RedoStep(commit, title, reAdd, ownedRefs, None)]
    {
      entry := new RedoEntry(commit, title, reAdd, ownedRefs);
      redo := redo + [entry];
      assert redo[..|redo| - 1] == old(redo);
    }

    method Undo(env: Env, saves: bool) returns (landed: Option<Checkpoint>)
      requires Valid()
      modifies this, git, file
      ensures Valid()
      ensures Outcome(View(), landed) == CheckpointSteps.Undo(old(View()), env)
      ensures file.disk == if saves then Merging.Save(old(file.disk), list, sessionId) else old(file.disk)
    {
      hide PopRestorable, CheckpointSteps.CommitTree, Merging.Save, Steps, Place, DistinctEntries;
      lastRedoPointEntry := null;
      PlaceNull(redo);
      var preUndo := git.CommitTree(env);
      landed := PopUntilRestored(env.junk);
      assert Steps(redo) == old(Steps(redo));
      if landed.None? {
        if preUndo.Some? {
          git.DeleteRef(preUndo.value.id);
        }
      } else if preUndo.Some? {
        var cp := landed.value;
        lastRedoPointEntry := Push(preUndo.value.commit, cp.title, [cp], [preUndo.value.id, cp.id]);
        PlaceTop(old(redo), lastRedoPointEntry);
      } else {
        git.DeleteRef(landed.value.id);
      }
      SaveList(saves);
    }

    method PopUntilRestored(junk: set<Commit>) returns (cp: Option<Checkpoint>)
      modifies this`list, git
      ensures Popped(list, git.View(), cp) == PopRestorable(old(list), old(git.View()), junk)
    {
      cp := Pop();
      while cp.Some?
        invariant cp.Some? ==>
          old(PopRestorable(list, git.View(), junk)) == PopRestorable(list + [cp.value], git.View(), junk)
        invariant cp.None? ==> old(PopRestorable(list, git.View(), junk)) == Popped(list, git.View(), None)
        decreases cp.Some?, |list|
      {
        assert (list + [cp.value])[..|list|] == list;
        if cp.value.green {
          git.DeleteRef(cp.value.id);
          cp := Pop();
          continue;
        }
        var ok := git.TryRestore(cp.value.commit, junk);
        if ok { break; }
        git.DeleteRef(cp.value.id);
        cp := Pop();
      }
    }

    /** `Array.pop` on the list: one popped entry of a run of pops is still to be looked at. */
    method Pop() returns (cp: Option<Checkpoint>)
      modifies this`list
      ensures old(list) == [] ==> cp == None && list == []
      ensures old(list) != [] ==> cp.Some? && list + [cp.value] == old(list)
    {
      if list == [] {
        return None;
      }
      cp := Some(list[|list| - 1]);
      list := list[..|list| - 1];
    }

    method RestoreTo(id: nat, env: Env, saves: bool) returns (target: Option<Checkpoint>)
      requires Valid()
      modifies this, git, file
      ensures Valid()
      ensures Outcome(View(), target) == CheckpointSteps.RestoreTo(old(View()), id, env)
      ensures file.disk ==
              if saves && target.Some? then Merging.Save(old(file.disk), list, sessionId) else old(file.disk)
    {
      hide CheckpointSteps.CommitTree, CheckpointSteps.TryRestore, Merging.Save, Steps, Place, Rewind, DistinctEntries;
      lastRedoPointEntry := null;
      PlaceNull(redo);
      var idx := IndexOf(list, id);
      if idx == |list| {
        return None;
      }
      var cp := list[idx];
      var preTree := git.CommitTree(env);
      var ok := git.TryRestore(cp.commit, env.junk);
      if !ok {
        if preTree.Some? {
          git.DeleteRef(preTree.value.id);
        }
        return None;
      }
      StackNewer(idx, preTree);
      SaveList(saves);
      target := Some(cp);
    }

    /** Move the entries after the target onto the redo stack, on top of what `preTree` adds. */
    method StackNewer(idx: nat, preTree: Option<Capture>)
      requires Valid() && idx < |list| && lastRedoPointEntry == null
      modifies this`list, this`redo, this`lastRedoPointEntry, git`refs
      ensures Valid() && View() == Rewind(old(View()), idx, preTree)
    {
      hide Steps, Place, OwnSteps, SameTree, DistinctEntries;
      var newer := list[idx + 1..];
      var title := list[|list| - 1].title;
      list := list[..idx + 1];
      ghost var base := |redo|;
      StackPhantom(newer, title, preTree);
      PushOwnSteps(newer, base);
    }

    method StackPhantom(newer: seq<Checkpoint>, title: string, preTree: Option<Capture>)
      requires Valid() && lastRedoPointEntry == null
      modifies this`redo, this`lastRedoPointEntry, git`refs
      ensures Valid()
      ensures var phantom := preTree.Some?
                && (newer == [] || !SameTree(old(git.View()), preTree.value.commit, newer[|newer| - 1].commit));
              && Steps(redo) == old(Steps(redo))
                 + (if phantom then [RedoStep(preTree.value.commit, title, [], [preTree.value.id], None)] else [])
              && git.View() == (if preTree.Some? && !phantom
                                then CheckpointSteps.DeleteRef(old(git.View()), preTree.value.id) else old(git.View()))
              && (if phantom then lastRedoPointEntry != null && redo == old(redo) + [lastRedoPointEntry]
                  else redo == old(redo) && lastRedoPointEntry == null)
    {
      hide SameTree;
      if preTree.Some? {
        if newer == [] || !SameTree(git.View(), preTree.value.commit, newer[|newer| - 1].commit) {
          lastRedoPointEntry := Push(preTree.value.commit, title, [], [preTree.value.id]);
        } else {
          git.DeleteRef(preTree.value.id);
        }
      }
    }

    /** One step per stacked checkpoint, newest first; the first one pushed takes the tail
        when no phantom did. */
    method PushOwnSteps(newer: seq<Checkpoint>, ghost base: nat)
      requires Valid() && base <= |redo|
      requires if lastRedoPointEntry == null then |redo| == base
               else |redo| == base + 1 && redo[base] == lastRedoPointEntry
      modifies this`redo, this`lastRedoPointEntry
      ensures Valid() && Steps(redo) == old(Steps(redo)) + OwnSteps(newer)
      ensures Place(redo, lastRedoPointEntry) == if old(|redo|) > base || newer != [] then Some(base) else None
    {
      hide Steps, Place, OwnSteps;
      var i := |newer| - 1;
      while i >= 0
        invariant -1 <= i < |newer|
        invariant Valid() && |redo| == |old(redo)| + (|newer| - 1 - i)
        invariant Steps(redo) == old(Steps(redo)) + OwnSteps(newer)[..|newer| - 1 - i]
        invariant if |redo| > base then lastRedoPointEntry == redo[base] else lastRedoPointEntry == null
        invariant lastRedoPointEntry == null ==> i == |newer| - 1
      {
        var c := newer[i];
        var entry := Push(c.commit, c.title, [c], [c.id]);
        assert OwnSteps(newer)[..|newer| - i] == OwnSteps(newer)[..|newer| - 1 - i] + [OwnStep(c)];
        if i == |newer| - 1 && lastRedoPointEntry == null {
          lastRedoPointEntry := entry;
        }
        i := i - 1;
      }
      assert OwnSteps(newer)[..|newer|] == OwnSteps(newer);
      if |redo| > base { PlaceAt(redo, base); } else { PlaceNull(redo); }
    }

    method Redo(junk: set<Commit>, saves: bool) returns (result: Option<RedoResult>)
      requires Valid()
      modifies this, git, file
      ensures Valid()
      ensures Outcome(View(), result) == CheckpointSteps.Redo(old(View()), junk)
      ensures file.disk ==
              if saves && result.Some? then Merging.Save(old(file.disk), list, sessionId) else old(file.disk)
    {
      hide CheckpointSteps.TryRestore, Merging.Save, Steps, Place, DistinctEntries;
      result := None;
      while redo != []
        invariant Valid() && file.disk == old(file.disk) && result == None
        invariant CheckpointSteps.Redo(View(), junk) == old(CheckpointSteps.Redo(View(), junk))
        decreases |redo|
      {
        result := TryTop(junk);
        if result.Some? {
          SaveList(saves);
          return;
        }
      }
    }

    /** Pop a step; apply it, or release its refs if its commit is dead. */
    method TryTop(junk: set<Commit>) returns (result: Option<RedoResult>)
      requires Valid() && redo != []
      modifies this`list, this`redo, git
      ensures Valid() && |redo| == |old(redo)| - 1
      ensures result.Some? ==> Outcome(View(), result) == CheckpointSteps.Redo(old(View()), junk)
      ensures result.None? ==> CheckpointSteps.Redo(View(), junk) == CheckpointSteps.Redo(old(View()), junk)
    {
      hide CheckpointSteps.TryRestore, CheckpointSteps.Redo, Place, Ids, Steps, Ops.ApplyTop, Ops.SkipTop;
      ghost var before := View();
      Ops.RedoUnfolds(before, junk);
      var entry := redo[|redo| - 1];
      PopEntry();
      var ok := git.TryRestore(entry.commit, junk);
      if ok {
        list := list + entry.reAdd;
        DeleteRefsOf(entry.ownedRefs, Ids(entry.reAdd));
        result := Some(RedoResult(NameOf(entry.View()), entry.title, entry.payload));
        TopApplied(before, View(), junk, entry.View());
      } else {
        DeleteRefsOf(entry.ownedRefs, {});
        result := None;
        TopSkipped(before, View(), junk, entry.View());
      }
    }

    method PopEntry()
      requires Valid() && redo != []
      modifies this`redo
      ensures Valid() && redo == old(redo)[..|old(redo)| - 1]
      ensures var top := |old(redo)| - 1;
              && old(View()).redo[top] == old(redo)[top].View()
              && View() == old(View()).(redo := old(View()).redo[..top],
                                        last := if old(View()).last == Some(top) then None else old(View()).last)
    {
      PlacePop(redo, lastRedoPointEntry);
      ghost var steps := Steps(redo);
      redo := redo[..|redo| - 1];
      assert Steps(redo) == steps[..|redo|];
    }

    method StashPayload(payload: string)
      requires Valid()
      modifies if lastRedoPointEntry == null then {} else {lastRedoPointEntry}
      ensures Valid() && View() == CheckpointSteps.StashPayload(old(View()), payload)
    {
      if lastRedoPointEntry != null {
        lastRedoPointEntry.payload := Some(payload);
      }
    }

    method DropRedoPayloads()
      requires Valid()
      modifies redo
      ensures Valid() && View() == CheckpointSteps.DropPayloads(old(View()))
    {
      for i := 0 to |redo|
        invariant forall k :: 0 <= k < |redo| ==>
          redo[k].payload == if k < i then None else old(redo[k].payload)
      {
        redo[i].payload := None;
      }
    }
  }
}
