/**
  What restarts leak. A session that starts over has its entries of the shared file and no
  redo line; it releases no ref. Over a whole run the refs nothing owns are exactly those of
  the redo lines dropped and of the listed entries the cap had taken from the file by then.
  */
module CheckpointRestarts {
  import opened Options
  import opened CheckpointSteps
  import opened CheckpointInvariant
  import opened CheckpointOps
  import opened CheckpointMerge
  import opened CheckpointSessions

  /** Listed entries that the file has lost. */
  function Missing(list: seq<Checkpoint>, disk: seq<Checkpoint>): set<nat> {
    set c | c in list && c !in disk :: c.id
  }

  /** What the file has of a session is in its list. */
  ghost predicate MineListed(disk: seq<Checkpoint>, list: seq<Checkpoint>, sid: nat) {
    forall c :: c in disk && c.sessionId == Some(sid) ==> c in list
  }

  /** The sessions are sound, and the file has of each only what that session saved last. */
  ghost predicate Sound(sys: System) {
    && SysInv(sys) && |sys.disk| <= MAX_CHECKPOINTS
    && forall t :: t in sys.sessions ==> MineListed(sys.disk, sys.saved[t], t)
  }

  /** A session whose saves have not failed: nothing it owns has lost its ref, and the file has
      of it only what it lists. */
  ghost predicate InStep(sys: System, sid: nat)
    requires sid in sys.sessions
  {
    Sound(sys) && Pinned(sys.sessions[sid]) && MineListed(sys.disk, sys.sessions[sid].list, sid)
  }

  // ---------------------------------------------------------------- one restart

  lemma OwnIds(disk: seq<Checkpoint>, list: seq<Checkpoint>, sid: nat)
    requires MineListed(disk, list, sid) && forall c :: c in list ==> c.sessionId == Some(sid)
    requires ById(list)
    ensures Ids(Own(disk, sid)) == Ids(list) - Missing(list, disk)
  {
    hide Own;
    OwnIs(disk, sid);
    forall id ensures id in Ids(Own(disk, sid)) <==> id in Ids(list) && id !in Missing(list, disk) {
      if id in Ids(Own(disk, sid)) {
        var c :| c in Own(disk, sid) && c.id == id;
        if id in Missing(list, disk) {
          var d :| d in list && d !in disk && d.id == id;
          SameEntry(list, c, d);
        }
      }
      if id in Ids(list) && id !in Missing(list, disk) {
        var c :| c in list && c.id == id;
        assert c in Own(disk, sid);
      }
    }
  }

  lemma SameEntry(list: seq<Checkpoint>, c: Checkpoint, d: Checkpoint)
    requires ById(list) && c in list && d in list && c.id == d.id
    ensures c == d
  {
    var i :| 0 <= i < |list| && list[i] == c;
    var j :| 0 <= j < |list| && list[j] == d;
    assert !(i < j) && !(j < i);
  }

  lemma RedoApart(s: State)
    requires Inv(s)
    ensures RedoRefs(s.redo) !! Ids(s.list)
  {
    hide Ids;
    forall r | r in RedoRefs(s.redo) ensures r !in Ids(s.list) {
      var e :| e in s.redo && r in e.ownedRefs;
      var i :| 0 <= i < |s.redo| && s.redo[i] == e;
      assert Refs(s.redo[i]) !! Ids(s.list);
    }
  }

  /** A restart adds to the leaked refs exactly those of the redo line and of the missing
      entries; no entry is listed without its ref. */
  lemma RestartLeaks(sys: System, sid: nat)
    requires sid in sys.sessions && InStep(sys, sid)
    ensures var s, s' := sys.sessions[sid], Next(sys, Restarts(sid)).sessions[sid];
            && Leaked(s') == Leaked(s) + Dropped(sys, sid) && Leaked(s) !! Dropped(sys, sid)
            && Pinned(s')
  {
    hide Inv, Own, Ids, RedoRefs, Line, ById, InTime, Separate, DistinctIds, DiskTagged;
    var s, s' := sys.sessions[sid], Next(sys, Restarts(sid)).sessions[sid];
    SessionFacts(s, sys.saved[sid], sid, sys.nextId);
    ListInLine(s);
    NewestList(s);
    OrderedViews(s.list);
    OwnIds(sys.disk, s.list, sid);
    RedoApart(s);
    NoRefs();
    MissingListed(s.list, sys.disk);
    assert Owned(s') == Ids(s.list) - Missing(s.list, sys.disk);
  }

  /** What a restart would leak now. */
  function Dropped(sys: System, sid: nat): set<nat>
    requires sid in sys.sessions
  {
    RedoRefs(sys.sessions[sid].redo) + Missing(sys.sessions[sid].list, sys.disk)
  }

  lemma MissingListed(list: seq<Checkpoint>, disk: seq<Checkpoint>)
    ensures Missing(list, disk) <= Ids(list)
    ensures Missing(list, disk) == {} <==> forall c :: c in list ==> c in disk
  {
    forall c | c in list && c !in disk ensures Missing(list, disk) != {} {
      assert c.id in Missing(list, disk);
    }
  }

  // ---------------------------------------------------------------- until then

  /** An operation that does not end by saving leaves the list alone. */
  lemma UnwrittenSame(s: State, op: Op, session: Option<nat>, env: Env)
    requires !Writes(s, op, session, env)
    ensures Apply(s, op, session, env).list == s.list
  {
    if op.DoRedo? {
      RedoFails(s, env.junk);
    }
  }

  lemma {:induction false} RedoFails(s: State, junk: set<Commit>)
    requires Redo(s, junk).value.None?
    ensures Redo(s, junk).state.list == s.list
    decreases |s.redo|
  {
    hide TryRestore;
    if s.redo != [] {
      RedoUnfolds(s, junk);
      RedoFails(SkipTop(s, junk), junk);
    }
  }

  /** Whoever saves: what was in the file and listed by its session, or is listed by the saver,
      is in the file afterwards, unless the cap took it, being one of the oldest. */
  ghost predicate CapTook(disk: seq<Checkpoint>, list: seq<Checkpoint>, t: nat, c: Checkpoint) {
    && |Merge(disk, list, Some(t))| > MAX_CHECKPOINTS && c in Merge(disk, list, Some(t))
    && forall d :: d in Save(disk, list, Some(t)) ==> c.createdAt <= d.createdAt
  }

  lemma SaverKept(disk: seq<Checkpoint>, list: seq<Checkpoint>, sid: nat, c: Checkpoint)
    requires DistinctIds(list) && c in list
    ensures c in Save(disk, list, Some(sid)) || CapTook(disk, list, sid, c)
  {
    hide Merge, DistinctIds, InTime, Save;
    SaveMeaning(disk, list, Some(sid));
    if |Merge(disk, list, Some(sid))| <= MAX_CHECKPOINTS { MergeFits(disk, list, sid); }
  }

  lemma SaverListed(disk: seq<Checkpoint>, list: seq<Checkpoint>, sid: nat)
    requires DistinctIds(list)
    ensures MineListed(Save(disk, list, Some(sid)), list, sid)
  {
    hide Merge, Save, DistinctIds, InTime;
    SaveMeaning(disk, list, Some(sid));
  }

  lemma MergeFits(disk: seq<Checkpoint>, list: seq<Checkpoint>, t: nat)
    requires |Merge(disk, list, Some(t))| <= MAX_CHECKPOINTS && DistinctIds(Merge(disk, list, Some(t)))
    ensures forall c :: c in Merge(disk, list, Some(t)) ==> c in Save(disk, list, Some(t))
  {
    hide Merge, InTime, DistinctIds;
    SortSorts(Merge(disk, list, Some(t)));
  }

  lemma OthersKept(disk: seq<Checkpoint>, list: seq<Checkpoint>, t: nat, c: Checkpoint)
    requires DistinctIds(disk) && DistinctIds(list)
    requires c in disk && c.sessionId != Some(t) && c.id !in Ids(list)
    ensures c in Save(disk, list, Some(t)) || CapTook(disk, list, t, c)
  {
    hide DistinctIds, InTime, Save, Merge, CheckpointMerge.Kept;
    SaveMeaning(disk, list, Some(t));
    KeptIs(disk, Some(t), Ids(list));
    InIds(CheckpointMerge.Kept(disk, Some(t), Ids(list)));
    assert c.id in Ids(Merge(disk, list, Some(t)));
    var d :| d in Merge(disk, list, Some(t)) && d.id == c.id;
    assert d !in list;
    SameId(disk, c, d);
    if |Merge(disk, list, Some(t))| <= MAX_CHECKPOINTS { MergeFits(disk, list, t); }
  }

  lemma SameId(cs: seq<Checkpoint>, c: Checkpoint, d: Checkpoint)
    requires DistinctIds(cs) && c in cs && d in cs && c.id == d.id
    ensures c == d
  {
    var i :| 0 <= i < |cs| && cs[i] == c;
    var j :| 0 <= j < |cs| && cs[j] == d;
    assert !(i < j) && !(j < i);
  }

  lemma OthersListed(disk: seq<Checkpoint>, list: seq<Checkpoint>, t: nat, mine: seq<Checkpoint>, sid: nat)
    requires MineListed(disk, mine, sid) && DistinctIds(list) && t != sid
    requires forall c :: c in list ==> c.sessionId == Some(t)
    ensures MineListed(Save(disk, list, Some(t)), mine, sid)
  {
    hide Merge, Save, DistinctIds, InTime;
    SaveMeaning(disk, list, Some(t));
  }

  /** Operations keep the sessions sound, whether their saves fit, fail or are cut. */
  lemma DoesStaysSound(sys: System, e: Event)
    requires Sound(sys) && e.Does? && e.sid in sys.sessions
    ensures Sound(Next(sys, e))
  {
    hide Inv, Apply, Writes, SessionOk, Separate, DistinctIds, Save, Merge, Line, InTime, Ids, DiskTagged;
    DoesSound(sys, e);
    NextSession(sys, e);
    var s', sys' := Next(sys, e).sessions[e.sid], Next(sys, e);
    SavingSession(sys, e);
    SaverListed(sys.disk, s'.list, e.sid);
    forall t | t in sys.sessions && t != e.sid ensures MineListed(sys'.disk, sys'.saved[t], t) {
      OthersListed(sys.disk, s'.list, e.sid, sys.saved[t], t);
    }
  }

  lemma SavingSession(sys: System, e: Event)
    requires SysInv(sys) && e.Does? && e.sid in sys.sessions
    ensures var s' := Next(sys, e).sessions[e.sid];
            && DistinctIds(s'.list) && (forall c :: c in s'.list ==> c.sessionId == Some(e.sid))
            && |Save(sys.disk, s'.list, Some(e.sid))| <= MAX_CHECKPOINTS
  {
    hide Inv, Apply, Writes, SessionOk, Separate, DistinctIds, Merge, Line, InTime, Ids;
    NextSession(sys, e);
    var s' := Next(sys, e).sessions[e.sid];
    SessionFacts(s', sys.saved[e.sid], e.sid, s'.repo.nextId);
    ListInLine(s');
    NewestList(s');
    OrderedViews(s'.list);
    DistinctList(s'.list);
    SaveMeaning(sys.disk, s'.list, Some(e.sid));
  }

  /** Operations of anybody keep a session in step, and leak nothing. */
  lemma DoesInStep(sys: System, e: Event, sid: nat)
    requires sid in sys.sessions && InStep(sys, sid) && e.Does? && e.sid in sys.sessions && (e.sid == sid ==> e.saves)
    ensures Next(sys, e).sessions.Keys == sys.sessions.Keys && InStep(Next(sys, e), sid)
    ensures Leaked(Next(sys, e).sessions[sid]) == Leaked(sys.sessions[sid])
  {
    hide Inv, Apply, Writes, SessionOk, Separate, DistinctIds, Save, Merge, Pinned, Leaked, Line, Ids, InTime,
      DiskTagged;
    DoesStaysSound(sys, e);
    NextSession(sys, e);
    SavingSession(sys, e);
    var s' := Next(sys, e).sessions[e.sid];
    if e.sid == sid {
      RefsStay(sys, e);
      if Writes(Current(sys, sid), e.op, Some(sid), e.env) {
        SaverListed(sys.disk, s'.list, sid);
      } else {
        UnwrittenSame(Current(sys, sid), e.op, Some(sid), e.env);
      }
    } else {
      OthersListed(sys.disk, s'.list, e.sid, sys.sessions[sid].list, sid);
    }
  }

  lemma RefsStay(sys: System, e: Event)
    requires SysInv(sys) && e.Does? && e.sid in sys.sessions
    ensures var s, s' := sys.sessions[e.sid], Apply(Current(sys, e.sid), e.op, Some(e.sid), e.env);
            (Pinned(s) ==> Pinned(s')) && Leaked(s') == Leaked(s)
  {
    hide Inv, Apply, Line, Ids, RedoRefs, SessionOk, Separate, DistinctIds, InTime, DiskTagged;
    var s := sys.sessions[e.sid];
    CatchUp(s, sys.saved[e.sid], e.sid, sys.nextId);
    SessionFacts(Current(sys, e.sid), sys.saved[e.sid], e.sid, sys.nextId);
    ApplyKeeps(Current(sys, e.sid), e.op, Some(e.sid), e.env);
  }

  /** A restart of anybody whose entries come out of the file in creation order keeps
      everything sound ... */
  lemma RestartSound(sys: System, t: nat)
    requires Sound(sys) && t in sys.sessions && Ordered(Own(sys.disk, t))
    ensures Sound(Next(sys, Restarts(t)))
  {
    hide Inv, SessionOk, Separate, DistinctIds, Own, Ids, InTime, DiskTagged, Line, Ordered;
    var sys', own := Next(sys, Restarts(t)), Own(sys.disk, t);
    OwnIs(sys.disk, t);
    OwnShort(sys.disk, t);
    FreshPart(sys.sessions[t], sys.saved[t], own, t, sys.nextId);
    FreshIds(Current(sys, t).repo, own, sys.saved[t]);
    assert KnownIds(sys', t) <= KnownIds(sys, t);
    StaysSeparate(sys, sys', t);
    TagsStay(sys, sys');
  }

  lemma TagsStay(sys: System, sys': System)
    requires DiskTagged(sys) && sys'.disk == sys.disk && sys'.sessions.Keys == sys.sessions.Keys
    ensures DiskTagged(sys')
  {
  }

  /** ... and everybody in step. */
  lemma RestartInStep(sys: System, t: nat, sid: nat)
    requires sid in sys.sessions && InStep(sys, sid) && t in sys.sessions && Ordered(Own(sys.disk, t))
    ensures Next(sys, Restarts(t)).sessions.Keys == sys.sessions.Keys && InStep(Next(sys, Restarts(t)), sid)
  {
    hide Sound, Own, Pinned;
    RestartSound(sys, t);
    if t == sid {
      OwnIs(sys.disk, sid);
      RestartLeaks(sys, sid);
    }
  }

  lemma {:induction false} OwnShort(cs: seq<Checkpoint>, t: nat)
    ensures |Own(cs, t)| <= |cs|
    decreases |cs|
  {
    if cs != [] {
      OwnShort(cs[..|cs| - 1], t);
    }
  }

  /** A session can start over from any part of what it saved. */
  lemma FreshPart(s: State, saved: seq<Checkpoint>, part: seq<Checkpoint>, sid: nat, nextId: nat)
    requires SessionOk(s, saved, sid, nextId) && Ordered(part) && |part| <= MAX_CHECKPOINTS
    requires forall c :: c in part ==> c in saved
    ensures SessionOk(State(s.repo.(nextId := nextId), part, [], None), part, sid, nextId)
  {
    var s' := State(s.repo.(nextId := nextId), part, [], None);
    assert Line(s') == part;
    SavedById(saved);
  }

  lemma SavedById(saved: seq<Checkpoint>)
    requires Ordered(saved)
    ensures forall c, d :: c in saved && d in saved && c.id == d.id ==> c == d
  {
    OrderedViews(saved);
    forall c, d | c in saved && d in saved && c.id == d.id ensures c == d { SameEntry(saved, c, d); }
  }

  lemma FreshIds(r: Repo, part: seq<Checkpoint>, saved: seq<Checkpoint>)
    requires forall c :: c in part ==> c in saved
    ensures Line(State(r, part, [], None)) == part && Ids(part) <= Ids(saved)
  {
  }

  /** A listed entry gets lost from the file only by the cap, and then as one of the oldest. */
  lemma OnlyCapTakes(sys: System, e: Event, sid: nat, c: Checkpoint)
    requires sid in sys.sessions && InStep(sys, sid) && e.Does? && e.sid in sys.sessions && (e.sid == sid ==> e.saves)
    requires c in Next(sys, e).sessions[sid].list && c !in Next(sys, e).disk
    ensures (c in sys.sessions[sid].list && c !in sys.disk)
         || CapTook(sys.disk, Next(sys, e).sessions[e.sid].list, e.sid, c)
  {
    hide Inv, Apply, Writes, SessionOk, Separate, DistinctIds, Save, Merge, Pinned, Line, InTime, CapTook, Ids;
    DoesSound(sys, e);
    NextSession(sys, e);
    var s' := Next(sys, e).sessions[e.sid];
    SessionFacts(s', sys.saved[e.sid], e.sid, s'.repo.nextId);
    ListInLine(s');
    NewestList(s');
    OrderedViews(s'.list);
    DistinctList(s'.list);
    if !Writes(Current(sys, e.sid), e.op, Some(e.sid), e.env) {
      UnwrittenSame(Current(sys, e.sid), e.op, Some(e.sid), e.env);
    } else if e.sid == sid {
      SaverKept(sys.disk, s'.list, sid, c);
    } else if c in sys.disk && e.saves {
      OthersId(sys, e, sid, c);
      OthersKept(sys.disk, s'.list, e.sid, c);
    }
  }

  lemma OthersId(sys: System, e: Event, sid: nat, c: Checkpoint)
    requires SysInv(sys) && e.Does? && e.sid in sys.sessions && sid in sys.sessions && e.sid != sid
    requires c in sys.sessions[sid].list
    ensures c.sessionId == Some(sid) && c.id !in Ids(Next(sys, e).sessions[e.sid].list)
  {
    hide Inv, Apply, Writes, SessionOk, Separate, DistinctIds, Save, Merge, Line, InTime;
    DoesSound(sys, e);
    SessionFacts(sys.sessions[sid], sys.saved[sid], sid, sys.nextId);
    ListInLine(sys.sessions[sid]);
    ListInLine(Next(sys, e).sessions[e.sid]);
    assert c.id in KnownIds(sys, sid);
    assert Ids(Next(sys, e).sessions[e.sid].list) <= KnownIds(Next(sys, e), e.sid);
  }

  // ---------------------------------------------------------------- runs

  /** Operations and restarts of known sessions. Those of `sid` do not fail to save, and whoever
      starts over finds its entries in creation order. */
  ghost predicate Working(sys: System, events: seq<Event>, sid: nat)
    decreases |events|
  {
    events == [] ||
    (var e := events[0];
     && e.sid in sys.sessions
     && (e.Does? && e.sid == sid ==> e.saves)
     && (e.Restarts? ==> Ordered(Own(sys.disk, e.sid)))
     && Working(Next(sys, e), events[1..], sid))
  }

  function After(sys: System, events: seq<Event>): System
    decreases |events|
  {
    if events == [] || events[0].sid !in sys.sessions then sys else After(Next(sys, events[0]), events[1..])
  }

  /** What the restarts of a session dropped, one after the other. */
  function AllDropped(sys: System, events: seq<Event>, sid: nat): set<nat>
    decreases |events|
  {
    if events == [] || events[0].sid !in sys.sessions || sid !in sys.sessions then {} else
    (if events[0] == Restarts(sid) then Dropped(sys, sid) else {}) + AllDropped(Next(sys, events[0]), events[1..], sid)
  }

  /** Whatever all the sessions did since they were new, and however often the cap cut the
      file: the refs a session holds are those it owns, and the leaked ones are exactly those
      its restarts dropped, of redo lines and of entries the cap had taken. */
  lemma {:induction false} EveryRunLeaks(sys: System, events: seq<Event>, sid: nat)
    requires sid in sys.sessions && InStep(sys, sid) && Working(sys, events, sid)
    ensures var end := After(sys, events);
            && sid in end.sessions && InStep(end, sid)
            && Leaked(end.sessions[sid]) == Leaked(sys.sessions[sid]) + AllDropped(sys, events, sid)
    decreases |events|
  {
    hide InStep, Leaked, Dropped, Next, Own, Ordered;
    if events != [] {
      var e := events[0];
      if e.Does? {
        DoesInStep(sys, e, sid);
      } else {
        RestartInStep(sys, e.sid, sid);
        if e.sid == sid { RestartLeaks(sys, sid); } else { OtherSame(sys, e.sid, sid); }
      }
      EveryRunLeaks(Next(sys, e), events[1..], sid);
    }
  }

  lemma OtherSame(sys: System, t: nat, sid: nat)
    requires t in sys.sessions && sid in sys.sessions && t != sid
    ensures Next(sys, Restarts(t)).sessions[sid] == sys.sessions[sid]
  {
  }

  lemma BootInStep(repos: map<nat, Repo>, sid: nat)
    requires sid in repos
    ensures InStep(Boot(repos), sid) && Leaked(Boot(repos).sessions[sid]) == {}
  {
    BootOk(repos, 0);
    NoRefs();
  }
}
