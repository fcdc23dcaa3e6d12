/**
  Several sessions share one checkpoint file. Each runs its own timeline; every operation
  that changes its list is followed by a save. What a session sees of the repository through
  the others (their edits, their collected garbage) is covered by its own Edit and Collect.
  */
module CheckpointSessions {
  import opened Options
  import opened CheckpointSteps
  import opened CheckpointInvariant
  import opened CheckpointOps
  import opened CheckpointMerge

  /** `saved` is each session's list at its own last successful save. */
  datatype System = System(
    sessions: map<nat, State>, saved: map<nat, seq<Checkpoint>>, disk: seq<Checkpoint>, nextId: nat)

  /** A session does something, with the save failing or not; or it starts over from the file. */
  datatype Event =
    | Does(sid: nat, op: Op, env: Env, saves: bool)
    | Restarts(sid: nat)

  /** Whether the operation ends by saving. */
  predicate Writes(s: State, op: Op, session: Option<nat>, env: Env) {
    match op
    case DoSnapshot(title, green) => Snapshot(s, title, green, session, env).value.Some?
    case DoUndo => true
    case DoRestoreTo(id) => RestoreTo(s, id, env).value.Some?
    case DoRedo => Redo(s, env.junk).value.Some?
    case _ => false
  }

  /** Ids come from one counter; the session catches up with what the others drew. */
  function Current(sys: System, sid: nat): State
    requires sid in sys.sessions
  {
    var s := sys.sessions[sid];
    s.(repo := s.repo.(nextId := sys.nextId))
  }

  function Next(sys: System, e: Event): System
    requires e.sid in sys.sessions
  {
    var s := Current(sys, e.sid);
    match e
    case Does(sid, op, env, saves) =>
      var s' := Apply(s, op, Some(sid), env);
      var writes := saves && Writes(s, op, Some(sid), env);
      System(sys.sessions[sid := s'],
             if writes then sys.saved[sid := s'.list] else sys.saved,
             if writes then Save(sys.disk, s'.list, Some(sid)) else sys.disk,
             s'.repo.nextId)
    case Restarts(sid) =>
      sys.(sessions := sys.sessions[sid := State(s.repo, Own(sys.disk, sid), [], None)],
           saved := sys.saved[sid := Own(sys.disk, sid)])
  }

  /** Whenever this event saves, the merge fits under the cap ... */
  predicate UnderCap(sys: System, e: Event)
    requires e.sid in sys.sessions
  {
    match e
    case Does(sid, op, env, saves) =>
      var s := Current(sys, sid);
      saves && Writes(s, op, Some(sid), env) ==>
        |Merge(sys.disk, Apply(s, op, Some(sid), env).list, Some(sid))| <= MAX_CHECKPOINTS
    case Restarts(_) => true
  }

  /** ... and the list it saves is in time order. */
  ghost predicate Fits(sys: System, e: Event)
    requires e.sid in sys.sessions
  {
    UnderCap(sys, e) &&
    match e
    case Does(sid, op, env, saves) =>
      var s := Current(sys, sid);
      saves && Writes(s, op, Some(sid), env) ==> InTime(Apply(s, op, Some(sid), env).list)
    case Restarts(_) => true
  }

  /** One session: its timeline, and how the timeline relates to what it last saved. */
  ghost predicate SessionOk(s: State, saved: seq<Checkpoint>, sid: nat, nextId: nat) {
    && Inv(s) && s.repo.nextId <= nextId
    && Ordered(saved) && |saved| <= MAX_CHECKPOINTS
    && (forall c :: c in Line(s) || c in saved ==> c.sessionId == Some(sid) && c.id < nextId)
    && (forall c :: c in saved ==> Agrees(c.id, c.commit, s.repo))
    && (forall c, d :: c in Line(s) && d in saved && c.id == d.id ==> c == d)
    && (forall c, d :: c in Line(s) && c !in saved && d in saved ==> d.id < c.id)
  }

  function KnownIds(sys: System, sid: nat): set<nat>
    requires sid in sys.sessions && sid in sys.saved
  {
    Ids(Line(sys.sessions[sid])) + Ids(sys.saved[sid])
  }

  ghost predicate Separate(sys: System)
    requires sys.saved.Keys == sys.sessions.Keys
  {
    forall a, b :: a in sys.sessions && b in sys.sessions && a != b ==> KnownIds(sys, a) !! KnownIds(sys, b)
  }

  ghost predicate DiskTagged(sys: System) {
    forall c :: c in sys.disk ==> c.sessionId.Some? && c.sessionId.value in sys.sessions
  }

  /** Everybody finds in the file exactly the list of their own last save. */
  ghost predicate Faithful(sys: System)
    requires sys.saved.Keys == sys.sessions.Keys
  {
    forall sid :: sid in sys.sessions ==> Own(sys.disk, sid) == sys.saved[sid]
  }

  ghost predicate SysInv(sys: System) {
    && sys.saved.Keys == sys.sessions.Keys
    && (forall sid :: sid in sys.sessions ==> SessionOk(sys.sessions[sid], sys.saved[sid], sid, sys.nextId))
    && Separate(sys) && DistinctIds(sys.disk) && InTime(sys.disk) && DiskTagged(sys)
  }

  // ---------------------------------------------------------------- one session steps

  lemma CatchUp(s: State, saved: seq<Checkpoint>, sid: nat, nextId: nat)
    requires SessionOk(s, saved, sid, nextId)
    ensures SessionOk(s.(repo := s.repo.(nextId := nextId)), saved, sid, nextId)
  {
    var s1 := s.(repo := s.repo.(nextId := nextId));
    ShrinkKeeps(s.list, s.redo, s.repo, s1.repo);
  }

  lemma {:induction false} ForwardBelow(redo: seq<RedoStep>, r: Repo)
    requires StackOk(redo, r)
    ensures forall c :: c in Forward(redo) ==> c.id < r.nextId
    decreases |redo|
  {
    if redo != [] {
      ForwardBelow(redo[..|redo| - 1], r);
      assert StepOk(redo[|redo| - 1], r);
    }
  }

  lemma LineBelow(s: State)
    requires Inv(s)
    ensures forall c :: c in Line(s) ==> c.id < s.repo.nextId
  {
    ForwardBelow(s.redo, s.repo);
  }

  lemma SessionSteps(s: State, saved: seq<Checkpoint>, sid: nat, op: Op, env: Env)
    requires SessionOk(s, saved, sid, s.repo.nextId)
    ensures var s' := Apply(s, op, Some(sid), env);
            && CheckpointOps.Kept(s, s', Some(sid), env.now)
            && SessionOk(s', saved, sid, s'.repo.nextId)
            && SessionOk(s', s'.list, sid, s'.repo.nextId)
  {
    hide Inv, Apply, Leaked, Pinned;
    ApplyKeeps(s, op, Some(sid), env);
    var s' := Apply(s, op, Some(sid), env);
    NewestList(s');
    LineBelow(s');
    forall c | c in s'.list ensures Agrees(c.id, c.commit, s'.repo) && c in Line(s') { ListAgrees(s', c); }
  }

  lemma PrefixInTime(list: seq<Checkpoint>, later: seq<Checkpoint>)
    requires InTime(list + later)
    ensures InTime(list)
  {
    assert list == (list + later)[..|list|];
  }

  lemma ListAgrees(s: State, c: Checkpoint)
    requires Inv(s) && c in s.list
    ensures Agrees(c.id, c.commit, s.repo)
  {
  }

  /** In one timeline ids name entries, and what waits for redo is newer than what is listed. */
  lemma NewestList(s: State)
    requires Inv(s)
    ensures Ordered(s.list) && |s.list| <= MAX_CHECKPOINTS
    ensures forall c, d :: c in Line(s) && d in s.list && c.id == d.id ==> c == d
    ensures forall c, d :: c in Line(s) && c !in s.list && d in s.list ==> d.id < c.id
  {
    hide Inv;
    InvParts(s);
    PrefixNewest(s.list, Forward(s.redo));
  }

  lemma PrefixNewest(list: seq<Checkpoint>, later: seq<Checkpoint>)
    requires Ordered(list + later)
    ensures Ordered(list)
    ensures forall c, d :: c in list + later && d in list ==> (c.id == d.id ==> c == d) && (c !in list ==> d.id < c.id)
  {
    var line := list + later;
    assert list == line[..|list|];
    forall c, d | c in line && d in list ensures (c.id == d.id ==> c == d) && (c !in list ==> d.id < c.id) {
      var i :| 0 <= i < |line| && line[i] == c;
      var j :| 0 <= j < |list| && list[j] == d;
      assert line[j] == d;
      if i < j { assert line[i].id < line[j].id; }
      if j < i { assert line[j].id < line[i].id; }
    }
  }

  // ---------------------------------------------------------------- the whole system

  /** Before a save: what the file holds of the saving session is its last saved list, so the
      file and the new list agree, and what the list adds is newer. */
  lemma ReadyToSave(sys: System, s: State, sid: nat)
    requires SysInv(sys) && Faithful(sys) && sid in sys.sessions
    requires SessionOk(s, sys.saved[sid], sid, s.repo.nextId)
    requires forall t :: t in sys.sessions && t != sid ==> Ids(Line(s)) !! Ids(sys.saved[t])
    ensures OneMeaning(sys.disk, s.list) && AddsNewer(sys.disk, s.list, sid)
    ensures ById(s.list) && forall c :: c in s.list ==> c.sessionId == Some(sid)
    ensures forall t :: t in sys.sessions ==> ById(Own(sys.disk, t)) && InTime(Own(sys.disk, t))
  {
    hide Inv, Own, Line, SessionOk, Separate, DistinctIds, ById, InTime;
    SessionFacts(s, sys.saved[sid], sid, s.repo.nextId);
    NewestList(s);
    ListInLine(s);
    OrderedViews(s.list);
    forall t | t in sys.sessions ensures ById(Own(sys.disk, t)) && InTime(Own(sys.disk, t)) {
      SessionFacts(sys.sessions[t], sys.saved[t], t, sys.nextId);
      OrderedViews(sys.saved[t]);
      OwnInTime(sys.disk, t);
    }
    forall c, d | c in sys.disk && d in s.list ensures
      (c.id == d.id ==> c == d) && (c.sessionId == Some(sid) && d !in sys.disk ==> c.id < d.id)
    {
      Meets(sys, s, sid, c, d);
    }
  }

  lemma LineInTime(s: State)
    requires InTime(Line(s))
    ensures InTime(s.list)
  {
    PrefixInTime(s.list, Forward(s.redo));
  }

  lemma ListInLine(s: State)
    ensures forall c :: c in s.list ==> c in Line(s)
  {
  }

  lemma SessionFacts(s: State, saved: seq<Checkpoint>, sid: nat, nextId: nat)
    requires SessionOk(s, saved, sid, nextId)
    ensures Inv(s) && Ordered(saved) && forall c :: c in Line(s) ==> c.sessionId == Some(sid)
  {
    hide Inv, Line;
  }

  lemma OrderedViews(cs: seq<Checkpoint>)
    requires Ordered(cs)
    ensures ById(cs)
  {
  }

  lemma Meets(sys: System, s: State, sid: nat, c: Checkpoint, d: Checkpoint)
    requires SysInv(sys) && Faithful(sys) && sid in sys.sessions
    requires SessionOk(s, sys.saved[sid], sid, s.repo.nextId)
    requires forall t :: t in sys.sessions && t != sid ==> Ids(Line(s)) !! Ids(sys.saved[t])
    requires c in sys.disk && d in s.list
    ensures c.id == d.id ==> c == d
    ensures c.sessionId == Some(sid) && d !in sys.disk ==> c.id < d.id
  {
    hide Inv, Own, Line, DistinctIds, Separate;
    ListInLine(s);
    var t := c.sessionId.value;
    OwnIs(sys.disk, t);
    assert c in sys.saved[t];
    if t != sid {
      assert c.id in Ids(sys.saved[t]) && d.id in Ids(Line(s));
    }
  }

  /** A save leaves the file faithful to every session exactly when the merge fits and the
      list it saves is in time order. */
  lemma SaveFaithful(sys: System, s: State, sid: nat)
    requires SysInv(sys) && Faithful(sys) && sid in sys.sessions
    requires SessionOk(s, sys.saved[sid], sid, s.repo.nextId)
    requires forall t :: t in sys.sessions && t != sid ==> Ids(Line(s)) !! Ids(sys.saved[t])
    ensures InTime(Save(sys.disk, s.list, Some(sid)))
    ensures var m, out := Merge(sys.disk, s.list, Some(sid)), Save(sys.disk, s.list, Some(sid));
            var saved := sys.saved[sid := s.list];
            && DistinctIds(out)
            && (forall c :: c in out ==> c.sessionId.Some? && c.sessionId.value in sys.sessions)
            && ((forall t :: t in sys.sessions ==> Own(out, t) == saved[t]) <==>
                |m| <= MAX_CHECKPOINTS && InTime(s.list))
  {
    hide Inv, SessionOk, Line;
    ReadyToSave(sys, s, sid);
    var m := Merge(sys.disk, s.list, Some(sid));
    var all := Sort(m);
    DistinctList(s.list);
    SaveMeaning(sys.disk, s.list, Some(sid));
    SortSorts(m);
    OwnInTime(Save(sys.disk, s.list, Some(sid)), sid);
    if InTime(s.list) {
      SaveInTime(sys, s, sid);
    }
  }

  lemma SaveInTime(sys: System, s: State, sid: nat)
    requires SysInv(sys) && Faithful(sys) && sid in sys.sessions
    requires OneMeaning(sys.disk, s.list) && AddsNewer(sys.disk, s.list, sid)
    requires ById(s.list) && InTime(s.list) && forall c :: c in s.list ==> c.sessionId == Some(sid)
    requires forall t :: t in sys.sessions ==> ById(Own(sys.disk, t)) && InTime(Own(sys.disk, t))
    requires forall c :: c in Merge(sys.disk, s.list, Some(sid)) ==>
        c.sessionId.Some? && c.sessionId.value in sys.sessions
    ensures var m, out := Merge(sys.disk, s.list, Some(sid)), Save(sys.disk, s.list, Some(sid));
            (forall t :: t in sys.sessions ==> Own(out, t) == sys.saved[sid := s.list][t]) <==> |m| <= MAX_CHECKPOINTS
  {
    hide Inv, SessionOk, Line, InTime, ById, OneMeaning, AddsNewer;
    var m := Merge(sys.disk, s.list, Some(sid));
    var all := Sort(m);
    DistinctList(s.list);
    SaveMeaning(sys.disk, s.list, Some(sid));
    SortSorts(m);
    forall t | t in sys.sessions ensures Own(all, t) == sys.saved[sid := s.list][t] {
      MergeViews(sys.disk, s.list, sid, t);
    }
    forall c | c in all ensures c.sessionId.Some? && c.sessionId.value in sys.sessions.Keys {
      assert c in m;
    }
    PruneViews(all, sys.sessions.Keys);
  }

  lemma DistinctList(list: seq<Checkpoint>)
    requires ById(list)
    ensures DistinctIds(list)
  {
  }

  lemma NextSession(sys: System, e: Event)
    requires SysInv(sys) && e.sid in sys.sessions && e.Does?
    ensures var s' := Apply(Current(sys, e.sid), e.op, Some(e.sid), e.env);
            && SessionOk(s', sys.saved[e.sid], e.sid, s'.repo.nextId)
            && SessionOk(s', s'.list, e.sid, s'.repo.nextId)
            && sys.nextId <= s'.repo.nextId
            && (forall c :: c in Line(s') ==> c in Line(sys.sessions[e.sid]) || c.id >= sys.nextId)
            && Next(sys, e).sessions == sys.sessions[e.sid := s']
            && Next(sys, e).nextId == s'.repo.nextId
  {
    hide Inv, Apply, Line, SessionOk;
    var s := sys.sessions[e.sid];
    CatchUp(s, sys.saved[e.sid], e.sid, sys.nextId);
    SessionSteps(Current(sys, e.sid), sys.saved[e.sid], e.sid, e.op, e.env);
    SameLine(s, sys.nextId);
  }

  lemma SameLine(s: State, nextId: nat)
    ensures Line(s.(repo := s.repo.(nextId := nextId))) == Line(s)
  {
  }

  /** Fresh ids stay clear of everything any session knows. */
  lemma StaysSeparate(sys: System, sys': System, sid: nat)
    requires SysInv(sys) && sid in sys.sessions
    requires sys'.sessions.Keys == sys.sessions.Keys == sys'.saved.Keys
    requires forall t :: t in sys.sessions && t != sid ==>
               sys'.sessions[t] == sys.sessions[t] && sys'.saved[t] == sys.saved[t]
    requires forall id :: id in KnownIds(sys', sid) ==> id in KnownIds(sys, sid) || id >= sys.nextId
    ensures Separate(sys')
    ensures forall t :: t in sys.sessions && t != sid ==> KnownIds(sys', sid) !! KnownIds(sys, t)
  {
    hide Inv, Line;
    forall t, id | t in sys.sessions && t != sid && id in KnownIds(sys', sid)
      ensures id !in KnownIds(sys, t)
    {
      assert SessionOk(sys.sessions[t], sys.saved[t], t, sys.nextId);
    }
    forall t | t in sys.sessions && t != sid ensures KnownIds(sys', t) == KnownIds(sys, t) {}
  }

  lemma OthersLater(s: State, saved: seq<Checkpoint>, sid: nat, nextId: nat, nextId': nat)
    requires SessionOk(s, saved, sid, nextId) && nextId <= nextId'
    ensures SessionOk(s, saved, sid, nextId')
  {
    hide Inv, Line;
  }

  /** The invariant survives every event of every session. */
  lemma NextKeeps(sys: System, e: Event)
    requires SysInv(sys) && Faithful(sys) && e.sid in sys.sessions
    ensures SysInv(Next(sys, e))
    ensures Faithful(Next(sys, e)) <==> Fits(sys, e)
  {
    if e.Does? { DoesKeeps(sys, e); } else { RestartsKeeps(sys, e); }
  }

  /** Whether or not the save fits, the sessions stay separate and the file sound. */
  lemma DoesSound(sys: System, e: Event)
    requires SysInv(sys) && e.sid in sys.sessions && e.Does?
    ensures SysInv(Next(sys, e))
    ensures forall t :: t in sys.sessions && t != e.sid ==>
              Ids(Line(Next(sys, e).sessions[e.sid])) !! Ids(sys.saved[t])
              && KnownIds(Next(sys, e), e.sid) !! KnownIds(sys, t)
  {
    hide Inv, Apply, Line, SessionOk, Writes, Separate, DistinctIds, Own, Save, Merge;
    var sid, sys' := e.sid, Next(sys, e);
    NextSession(sys, e);
    var s' := sys'.sessions[sid];
    forall id | id in KnownIds(sys', sid) ensures id in KnownIds(sys, sid) || id >= sys.nextId {
      ListInLine(s');
    }
    StaysSeparate(sys, sys', sid);
    forall t | t in sys.sessions ensures SessionOk(sys'.sessions[t], sys'.saved[t], t, sys'.nextId) {
      if t != sid {
        OthersLater(sys.sessions[t], sys.saved[t], t, sys.nextId, sys'.nextId);
      }
    }
    forall t | t in sys.sessions && t != sid ensures Ids(Line(s')) !! Ids(sys.saved[t]) {
      assert Ids(Line(s')) <= KnownIds(sys', sid) && Ids(sys.saved[t]) <= KnownIds(sys, t);
    }
    SaveSound(sys, s', sid);
  }

  lemma SaveSound(sys: System, s: State, sid: nat)
    requires SysInv(sys) && sid in sys.sessions && SessionOk(s, sys.saved[sid], sid, s.repo.nextId)
    ensures var out := Save(sys.disk, s.list, Some(sid));
            && DistinctIds(out) && InTime(out)
            && (forall c :: c in out ==> c.sessionId.Some? && c.sessionId.value in sys.sessions)
  {
    hide Inv, Line, Merge, Save, InTime, DistinctIds;
    SessionFacts(s, sys.saved[sid], sid, s.repo.nextId);
    ListInLine(s);
    NewestList(s);
    OrderedViews(s.list);
    DistinctList(s.list);
    SaveMeaning(sys.disk, s.list, Some(sid));
  }

  lemma DoesKeeps(sys: System, e: Event)
    requires SysInv(sys) && Faithful(sys) && e.sid in sys.sessions && e.Does?
    ensures SysInv(Next(sys, e))
    ensures Faithful(Next(sys, e)) <==> Fits(sys, e)
  {
    hide Inv, Apply, Line, SessionOk, Writes, Separate, DistinctIds, Own, Save, Merge;
    DoesSound(sys, e);
    NextSession(sys, e);
    SaveFaithful(sys, Next(sys, e).sessions[e.sid], e.sid);
  }

  lemma RestartsKeeps(sys: System, e: Event)
    requires SysInv(sys) && Faithful(sys) && e.sid in sys.sessions && e.Restarts?
    ensures SysInv(Next(sys, e)) && Faithful(Next(sys, e))
  {
    hide Inv, SessionOk, Separate, DistinctIds, Own, Ids;
    var sid, sys' := e.sid, Next(sys, e);
    FreshSession(sys.sessions[sid], sys.saved[sid], sid, sys.nextId);
    assert Line(sys'.sessions[sid]) == sys.saved[sid];
    StaysSeparate(sys, sys', sid);
  }

  /** A session that starts from its saved list has a sound timeline again. */
  lemma FreshSession(s: State, saved: seq<Checkpoint>, sid: nat, nextId: nat)
    requires SessionOk(s, saved, sid, nextId)
    ensures SessionOk(State(s.repo.(nextId := nextId), saved, [], None), saved, sid, nextId)
  {
    var s' := State(s.repo.(nextId := nextId), saved, [], None);
    assert Line(s') == saved;
  }

  /** `events` lead from one system to another: known sessions, and saves that fit. */
  ghost predicate Leads(sys: System, events: seq<Event>, sys': System)
    decreases |events|
  {
    if events == [] then sys' == sys else
    events[0].sid in sys.sessions && Fits(sys, events[0]) && Leads(Next(sys, events[0]), events[1..], sys')
  }

  /** Any number of sessions, any order of operations, failed saves and restarts: as long as
      each merge fits under the cap and each saved list is in time order, every session finds
      in the file exactly the list of its own last save, so nobody's entries are lost and
      nothing undone comes back. */
  lemma {:induction false} EverySystemRun(sys: System, events: seq<Event>, sys': System)
    requires SysInv(sys) && Faithful(sys) && Leads(sys, events, sys')
    ensures SysInv(sys') && Faithful(sys')
    decreases |events|
  {
    hide SysInv, Next, Fits, Faithful;
    if events != [] {
      NextKeeps(sys, events[0]);
      EverySystemRun(Next(sys, events[0]), events[1..], sys');
    }
  }

  // ---------------------------------------------------------------- a clock that does not go back

  /** All times seen so far, in the order of the timelines. */
  ghost predicate Punctual(sys: System, now: int)
    requires sys.saved.Keys == sys.sessions.Keys
  {
    forall sid :: sid in sys.sessions ==>
      && InTime(Line(sys.sessions[sid])) && InTime(sys.saved[sid])
      && forall c :: c in Line(sys.sessions[sid]) || c in sys.saved[sid] ==> c.createdAt <= now
  }

  function Later(now: int, e: Event): int {
    if e.Does? then e.env.now else now
  }

  /** The times of a timeline ascend as its ids do, as long as the clock does not go back. */
  lemma GrownInTime(s: State, s': State, session: Option<nat>, now: int)
    requires Ordered(Line(s)) && InTime(Line(s)) && forall c :: c in Line(s) ==> c.createdAt <= now
    requires forall c :: c in Line(s) ==> c.id < s.repo.nextId
    requires Ordered(Line(s')) && Grown(s, s', session, now)
    ensures InTime(Line(s'))
  {
    hide Line;
    var before, line := Line(s), Line(s');
    forall i, j | 0 <= i < j < |line| ensures line[i].createdAt <= line[j].createdAt {
      assert line[i] in line && line[j] in line;
      if line[i] in before && line[j] in before {
        var p :| 0 <= p < |before| && before[p] == line[i];
        var q :| 0 <= q < |before| && before[q] == line[j];
        TimesById(before, p, q);
      }
    }
  }

  lemma TimesById(cs: seq<Checkpoint>, p: nat, q: nat)
    requires Ordered(cs) && InTime(cs) && p < |cs| && q < |cs| && cs[p].id < cs[q].id
    ensures cs[p].createdAt <= cs[q].createdAt
  {
  }

  /** Under a clock that does not go back every list is in time order, so fitting is only a
      matter of the cap. */
  lemma PunctualKeeps(sys: System, e: Event, now: int)
    requires SysInv(sys) && Faithful(sys) && Punctual(sys, now) && e.sid in sys.sessions && now <= Later(now, e)
    ensures Next(sys, e).saved.Keys == Next(sys, e).sessions.Keys && Punctual(Next(sys, e), Later(now, e))
    ensures Fits(sys, e) <==> UnderCap(sys, e)
  {
    hide Inv, Punctual, SessionOk, Separate, DistinctIds, InTime, DiskTagged, Next, Fits, UnderCap;
    SameKeys(sys);
    if e.Does? { DoesPunctual(sys, e, now); } else { RestartsPunctual(sys, e, now); }
  }

  lemma DoesPunctual(sys: System, e: Event, now: int)
    requires SysInv(sys) && Punctual(sys, now) && e.sid in sys.sessions && e.Does? && now <= e.env.now
    ensures Next(sys, e).saved.Keys == Next(sys, e).sessions.Keys && Punctual(Next(sys, e), e.env.now)
    ensures Fits(sys, e) <==> UnderCap(sys, e)
  {
    hide Inv, Apply, Line, InTime, Writes, Save, Merge, SessionOk, Separate, DistinctIds, DiskTagged;
    DoesInTime(sys, e, now);
  }

  lemma RestartsPunctual(sys: System, e: Event, now: int)
    requires SysInv(sys) && Faithful(sys) && Punctual(sys, now) && e.sid in sys.sessions && e.Restarts?
    ensures Next(sys, e).saved.Keys == Next(sys, e).sessions.Keys && Punctual(Next(sys, e), now)
    ensures Fits(sys, e) <==> UnderCap(sys, e)
  {
    hide Inv, Line, InTime, Own, SessionOk, Separate, DistinctIds, DiskTagged;
    FreshLine(sys, e);
  }

  lemma FreshLine(sys: System, e: Event)
    requires e.Restarts? && e.sid in sys.sessions
    ensures Line(Next(sys, e).sessions[e.sid]) == Own(sys.disk, e.sid)
  {
  }

  lemma DoesInTime(sys: System, e: Event, now: int)
    requires SysInv(sys) && Punctual(sys, now) && e.sid in sys.sessions && e.Does? && now <= e.env.now
    ensures var s' := Apply(Current(sys, e.sid), e.op, Some(e.sid), e.env);
            && InTime(Line(s')) && InTime(s'.list)
            && (forall c :: c in Line(s') ==> c.createdAt <= e.env.now)
            && (forall c :: c in s'.list ==> c in Line(s'))
  {
    hide Inv, Apply, Line, InTime;
    var s, sid := Current(sys, e.sid), e.sid;
    var s' := Apply(s, e.op, Some(sid), e.env);
    CatchUp(sys.sessions[sid], sys.saved[sid], sid, sys.nextId);
    SameLine(sys.sessions[sid], sys.nextId);
    ApplyKeeps(s, e.op, Some(sid), e.env);
    InvParts(s);
    InvParts(s');
    LineBelow(s);
    GrownInTime(s, s', Some(sid), e.env.now);
    LineInTime(s');
    ListInLine(s');
  }

  ghost predicate LeadsForward(sys: System, now: int, events: seq<Event>, sys': System)
    decreases |events|
  {
    if events == [] then sys' == sys else
    var e := events[0];
    e.sid in sys.sessions && now <= Later(now, e) && UnderCap(sys, e)
    && LeadsForward(Next(sys, e), Later(now, e), events[1..], sys')
  }

  /** With such a clock only the cap matters. */
  lemma {:induction false} EveryForwardRun(sys: System, now: int, events: seq<Event>, sys': System)
    requires SysInv(sys) && Faithful(sys) && Punctual(sys, now) && LeadsForward(sys, now, events, sys')
    ensures SysInv(sys') && Faithful(sys')
    decreases |events|
  {
    hide SysInv, Next, Fits, UnderCap, Faithful, Punctual;
    if events != [] {
      var e := events[0];
      SameKeys(sys);
      NextKeeps(sys, e);
      PunctualKeeps(sys, e, now);
      EveryForwardRun(Next(sys, e), Later(now, e), events[1..], sys');
    }
  }

  lemma SameKeys(sys: System)
    requires SysInv(sys)
    ensures sys.saved.Keys == sys.sessions.Keys
  {
  }

  /** Sessions that have done nothing yet. */
  function Boot(repos: map<nat, Repo>): System {
    System(map sid | sid in repos :: State(repos[sid].(refs := map[], nextId := 0), [], [], None),
           map sid | sid in repos :: [], [], 0)
  }

  lemma BootOk(repos: map<nat, Repo>, now: int)
    ensures SysInv(Boot(repos)) && Faithful(Boot(repos)) && Punctual(Boot(repos), now)
  {
    hide Own, SessionOk;
    var sys := Boot(repos);
    forall sid | sid in sys.sessions ensures SessionOk(sys.sessions[sid], sys.saved[sid], sid, sys.nextId) {
      NewSession(repos[sid], sid);
    }
    forall a, b | a in sys.sessions && b in sys.sessions && a != b ensures KnownIds(sys, a) !! KnownIds(sys, b) {
      NothingKnown(sys, a);
    }
    forall sid | sid in sys.sessions ensures Own(sys.disk, sid) == sys.saved[sid] { NoneOwn(sid); }
  }

  lemma NewSession(r: Repo, sid: nat)
    ensures SessionOk(State(r.(refs := map[], nextId := 0), [], [], None), [], sid, 0)
  {
    var s := State(r.(refs := map[], nextId := 0), [], [], None);
    assert Line(s) == [];
  }

  lemma NothingKnown(sys: System, sid: nat)
    requires sid in sys.sessions && sid in sys.saved
    requires sys.sessions[sid].list == [] && sys.sessions[sid].redo == [] && sys.saved[sid] == []
    ensures KnownIds(sys, sid) == {}
  {
    assert Line(sys.sessions[sid]) == [];
  }

  lemma NoneOwn(sid: nat)
    ensures Own([], sid) == []
  {
  }
}
