/**
  The checkpoint timeline as values: a git repository reduced to its working tree, its
  commit objects and its hidden refs, the visible list, the redo stack, and one step
  function per public operation. The classes in CheckpointClasses.dfy are proved
  against these steps; the laws of the timeline are proved about them.

  A commit is identified with what it captures: hashing is injective, so equal commits
  have equal trees. Ids are drawn from one increasing counter, so the order of ids is the
  order of creation.
  */
module CheckpointSteps {
  import opened Searching
  import opened Options

  const MAX_CHECKPOINTS: nat := 50

  type Path = string
  type Tree = map<Path, string>

  datatype Commit = Commit(tree: Tree, meta: nat)

  datatype Checkpoint = Checkpoint(
    id: nat, title: string, commit: Commit, createdAt: int, green: bool, sessionId: Option<nat>)

  /** One undone step. `payload` is opaque to the manager. */
  datatype RedoStep = RedoStep(
    commit: Commit, title: string, reAdd: seq<Checkpoint>, ownedRefs: seq<nat>, payload: Option<string>)

  /** `tracked` is the set of paths in the user's index; it and `ignored` never change. */
  datatype Repo = Repo(
    work: Tree, tracked: set<Path>, ignored: set<Path>,
    objects: set<Commit>, refs: map<nat, Commit>, nextId: nat)

  /** What git, the clock and the garbage collector decide during one operation. */
  datatype Env = Env(captures: bool, seeded: bool, meta: nat, now: int, junk: set<Commit>)

  datatype Capture = Capture(id: nat, commit: Commit)

  /** `last` is the position in `redo` of the step that takes the conversation tail. */
  datatype State = State(repo: Repo, list: seq<Checkpoint>, redo: seq<RedoStep>, last: Option<nat>)

  datatype StepName = ByCheckpoint(id: nat) | ByCommit(commit: Commit)
  datatype RedoResult = RedoResult(name: StepName, title: string, payload: Option<string>)

  datatype Outcome<+T> = Outcome(state: State, value: Option<T>)

  // ---------------------------------------------------------------- git

  /** The tree `git add -A` leaves in the private index. Seeded with the user's index it
      also refreshes tracked files that are ignored; started empty it skips them. */
  function Staged(r: Repo, seeded: bool): Tree {
    map p | p in r.work && (p !in r.ignored || (seeded && p in r.tracked)) :: r.work[p]
  }

  function CommitTree(r: Repo, env: Env): (Repo, Option<Capture>) {
    if !env.captures then
      (r.(nextId := r.nextId + 1), None)
    else
      var c := Commit(Staged(r, env.seeded), env.meta);
      (r.(objects := r.objects + {c}, refs := r.refs[r.nextId := c], nextId := r.nextId + 1),
       Some(Capture(r.nextId, c)))
  }

  function DeleteRef(r: Repo, id: nat): Repo {
    r.(refs := r.refs - {id})
  }

  function DeleteRefs(r: Repo, ids: set<nat>): Repo {
    r.(refs := r.refs - ids)
  }

  /** The collector may remove any object that no ref pins. */
  function Gc(r: Repo, junk: set<Commit>): Repo {
    r.(objects := r.objects - (junk - r.refs.Values))
  }

  /** Write every path of the snapshot, then delete what is untracked, not ignored and
      absent from the snapshot. */
  function Checkout(r: Repo, t: Tree): Tree {
    map p | p in r.work.Keys + t.Keys && (p in t || p in r.tracked || p in r.ignored)
      :: if p in t then t[p] else r.work[p]
  }

  function TryRestore(r: Repo, c: Commit, junk: set<Commit>): (Repo, bool) {
    var r1 := Gc(r, junk);
    if c in r1.objects then (r1.(work := Checkout(r1, c.tree)), true) else (r1, false)
  }

  predicate SameTree(r: Repo, a: Commit, b: Commit) {
    a in r.objects && b in r.objects && a.tree == b.tree
  }

  // ---------------------------------------------------------------- operations

  function Ids(cs: seq<Checkpoint>): set<nat> {
    set c | c in cs :: c.id
  }

  function Refs(e: RedoStep): set<nat> {
    set r | r in e.ownedRefs
  }

  /** Every ref the redo stack is responsible for. */
  function RedoRefs(redo: seq<RedoStep>): set<nat> {
    set e, r | e in redo && r in e.ownedRefs :: r
  }

  /** Drop the oldest entries until the cap holds. */
  function Prune(list: seq<Checkpoint>): seq<Checkpoint> {
    if |list| > MAX_CHECKPOINTS then list[|list| - MAX_CHECKPOINTS..] else list
  }

  function Snapshot(s: State, title: string, green: bool, session: Option<nat>, env: Env): Outcome<Checkpoint> {
    var r := DeleteRefs(s.repo, RedoRefs(s.redo));
    var (r1, made) := CommitTree(r, env);
    if made.None? then Outcome(s.(repo := r1, redo := [], last := None), None) else
    var cp := Checkpoint(made.value.id, title, made.value.commit, env.now, green, session);
    var grown := s.list + [cp];
    var list := Prune(grown);
    var r2 := DeleteRefs(r1, Ids(grown[..|grown| - |list|]));
    Outcome(State(r2, list, [], None), Some(cp))
  }

  datatype Popped = Popped(list: seq<Checkpoint>, repo: Repo, found: Option<Checkpoint>)

  /** Pop newest-first past green markers and dead checkpoints until one restores. */
  function PopRestorable(list: seq<Checkpoint>, r: Repo, junk: set<Commit>): Popped
    decreases |list|
  {
    if list == [] then Popped([], r, None) else
    var cp := list[|list| - 1];
    var rest := list[..|list| - 1];
    if cp.green then PopRestorable(rest, DeleteRef(r, cp.id), junk) else
    var (r1, ok) := TryRestore(r, cp.commit, junk);
    if ok then Popped(rest, r1, Some(cp)) else PopRestorable(rest, DeleteRef(r1, cp.id), junk)
  }

  function Undo(s: State, env: Env): Outcome<Checkpoint> {
    var (r1, pre) := CommitTree(s.repo, env);
    var Popped(rest, r2, found) := PopRestorable(s.list, r1, env.junk);
    if found.None? then
      var r3 := if pre.Some? then DeleteRef(r2, pre.value.id) else r2;
      Outcome(State(r3, rest, s.redo, None), None)
    else if pre.None? then
      Outcome(State(DeleteRef(r2, found.value.id), rest, s.redo, None), found)
    else
      var cp := found.value;
      var e := RedoStep(pre.value.commit, cp.title, [cp], [pre.value.id, cp.id], None);
      Outcome(State(r2, rest, s.redo + [e], Some(|s.redo|)), found)
  }

  /** Position of the first entry with this id, or |list|. */
  function IndexOf(list: seq<Checkpoint>, id: nat): (i: nat)
    ensures i <= |list|
    ensures i < |list| ==> list[i].id == id
    ensures forall k :: 0 <= k < i ==> list[k].id != id
  {
    FirstIndex(list, (c: Checkpoint) => c.id == id)
  }

  function OwnStep(c: Checkpoint): RedoStep {
    RedoStep(c.commit, c.title, [c], [c.id], None)
  }

  /** One step per stacked checkpoint, newest first, so the closest to the target ends on top. */
  function OwnSteps(newer: seq<Checkpoint>): (es: seq<RedoStep>)
    ensures |es| == |newer|
    ensures forall i :: 0 <= i < |es| ==> es[i] == OwnStep(newer[|newer| - 1 - i])
  {
    seq(|newer|, i requires 0 <= i < |newer| => OwnStep(newer[|newer| - 1 - i]))
  }

  /** The bookkeeping of a rewind whose target tree is already restored. */
  function Rewind(s: State, idx: nat, pre: Option<Capture>): State
    requires idx < |s.list|
  {
    var newer := s.list[idx + 1..];
    var phantom := pre.Some? && (newer == [] || !SameTree(s.repo, pre.value.commit, newer[|newer| - 1].commit));
    var r := if pre.Some? && !phantom then DeleteRef(s.repo, pre.value.id) else s.repo;
    var title := s.list[|s.list| - 1].title;
    var bottom := if phantom then [RedoStep(pre.value.commit, title, [], [pre.value.id], None)] else [];
    var last := if phantom || newer != [] then Some(|s.redo|) else None;
    State(r, s.list[..idx + 1], s.redo + bottom + OwnSteps(newer), last)
  }

  function RestoreTo(s: State, id: nat, env: Env): Outcome<Checkpoint> {
    var idx := IndexOf(s.list, id);
    if idx == |s.list| then Outcome(s.(last := None), None) else
    var target := s.list[idx];
    var (r1, pre) := CommitTree(s.repo, env);
    var (r2, ok) := TryRestore(r1, target.commit, env.junk);
    if ok then Outcome(Rewind(s.(repo := r2, last := None), idx, pre), Some(target)) else
    var r3 := if pre.Some? then DeleteRef(r2, pre.value.id) else r2;
    Outcome(s.(repo := r3, last := None), None)
  }

  function NameOf(e: RedoStep): StepName {
    if e.reAdd == [] then ByCommit(e.commit) else ByCheckpoint(e.reAdd[0].id)
  }

  function Redo(s: State, junk: set<Commit>): Outcome<RedoResult>
    decreases |s.redo|
  {
    if s.redo == [] then Outcome(s, None) else
    var top := |s.redo| - 1;
    var e := s.redo[top];
    var last := if s.last == Some(top) then None else s.last;
    var (r1, ok) := TryRestore(s.repo, e.commit, junk);
    if ok then
      Outcome(State(DeleteRefs(r1, Refs(e) - Ids(e.reAdd)), s.list + e.reAdd, s.redo[..top], last),
              Some(RedoResult(NameOf(e), e.title, e.payload)))
    else
      Redo(State(DeleteRefs(r1, Refs(e)), s.list, s.redo[..top], last), junk)
  }

  function StashPayload(s: State, payload: string): State {
    if s.last.Some? && s.last.value < |s.redo| then
      var i := s.last.value;
      s.(redo := s.redo[i := s.redo[i].(payload := Some(payload))])
    else s
  }

  function DropPayloads(s: State): State {
    s.(redo := seq(|s.redo|, i requires 0 <= i < |s.redo| => s.redo[i].(payload := None)))
  }

  // ---------------------------------------------------------------- runs

  /** An operation of the manager, or something that happens to the repository around it. */
  datatype Op =
    | DoSnapshot(title: string, green: bool)
    | DoUndo
    | DoRestoreTo(id: nat)
    | DoRedo
    | DoStash(payload: string)
    | DoDropPayloads
    | Edit(work: Tree)
    | Collect

  function Apply(s: State, op: Op, session: Option<nat>, env: Env): State {
    match op
    case DoSnapshot(title, green) => Snapshot(s, title, green, session, env).state
    case DoUndo => Undo(s, env).state
    case DoRestoreTo(id) => RestoreTo(s, id, env).state
    case DoRedo => Redo(s, env.junk).state
    case DoStash(payload) => StashPayload(s, payload)
    case DoDropPayloads => DropPayloads(s)
    case Edit(work) => s.(repo := s.repo.(work := work))
    case Collect => s.(repo := Gc(s.repo, env.junk))
  }
}
