/**
  The shared checkpoint file: one session's save re-reads the file, merges by id, drops its
  own entries that are no longer in its list, sorts by time and keeps the newest fifty.
  */
module CheckpointMerge {
  import opened Options
  import opened CheckpointSteps

  /** `Map.set`: a known id keeps its place and takes the new value. */
  function Put(m: seq<Checkpoint>, c: Checkpoint): seq<Checkpoint> {
    var i := IndexOf(m, c.id);
    if i < |m| then m[i := c] else m + [c]
  }

  function PutAll(m: seq<Checkpoint>, cs: seq<Checkpoint>): seq<Checkpoint>
    decreases |cs|
  {
    if cs == [] then m else Put(PutAll(m, cs[..|cs| - 1]), cs[|cs| - 1])
  }

  /** An entry tagged with the saving session but absent from its list was removed there. */
  predicate Removed(c: Checkpoint, mine: Option<nat>, ids: set<nat>) {
    mine.Some? && c.sessionId == mine && c.id !in ids
  }

  function Kept(disk: seq<Checkpoint>, mine: Option<nat>, ids: set<nat>): seq<Checkpoint> {
    if disk == [] then [] else
    var c := disk[|disk| - 1];
    Kept(disk[..|disk| - 1], mine, ids) + (if Removed(c, mine, ids) then [] else [c])
  }

  /** The two loops of a save, one entry at a time. */
  lemma PutAllPush(m: seq<Checkpoint>, cs: seq<Checkpoint>, c: Checkpoint)
    ensures PutAll(m, cs + [c]) == Put(PutAll(m, cs), c)
  {
    assert (cs + [c])[..|cs|] == cs;
  }

  lemma KeptNext(disk: seq<Checkpoint>, mine: Option<nat>, ids: set<nat>, i: nat)
    requires i < |disk|
    ensures Kept(disk[..i + 1], mine, ids)
         == Kept(disk[..i], mine, ids) + (if Removed(disk[i], mine, ids) then [] else [disk[i]])
  {
    assert disk[..i + 1][..i] == disk[..i];
  }

  /** The place a stable sort by time gives the next entry. */
  function Insert(sorted: seq<Checkpoint>, c: Checkpoint): seq<Checkpoint> {
    if sorted == [] || sorted[|sorted| - 1].createdAt <= c.createdAt then sorted + [c] else
    Insert(sorted[..|sorted| - 1], c) + [sorted[|sorted| - 1]]
  }

  function Sort(cs: seq<Checkpoint>): seq<Checkpoint> {
    if cs == [] then [] else Insert(Sort(cs[..|cs| - 1]), cs[|cs| - 1])
  }

  function Merge(disk: seq<Checkpoint>, list: seq<Checkpoint>, mine: Option<nat>): seq<Checkpoint> {
    PutAll(PutAll([], Kept(disk, mine, Ids(list))), list)
  }

  /** What the file holds after a save. */
  function Save(disk: seq<Checkpoint>, list: seq<Checkpoint>, mine: Option<nat>): seq<Checkpoint> {
    Prune(Sort(Merge(disk, list, mine)))
  }

  /** The entries of one session, in file order. */
  function Own(cs: seq<Checkpoint>, sid: nat): seq<Checkpoint> {
    if cs == [] then [] else
    var c := cs[|cs| - 1];
    Own(cs[..|cs| - 1], sid) + (if c.sessionId == Some(sid) then [c] else [])
  }

  ghost predicate DistinctIds(cs: seq<Checkpoint>) {
    forall i, j :: 0 <= i < j < |cs| ==> cs[i].id != cs[j].id
  }

  ghost predicate InTime(cs: seq<Checkpoint>) {
    forall i, j :: 0 <= i < j < |cs| ==> cs[i].createdAt <= cs[j].createdAt
  }

  ghost predicate ById(cs: seq<Checkpoint>) {
    forall i, j :: 0 <= i < j < |cs| ==> cs[i].id < cs[j].id
  }

  // ---------------------------------------------------------------- the merge in general

  lemma PutDistinct(m: seq<Checkpoint>, c: Checkpoint)
    requires DistinctIds(m)
    ensures DistinctIds(Put(m, c)) && Ids(Put(m, c)) == Ids(m) + {c.id} && c in Put(m, c)
    ensures forall d :: d in Put(m, c) <==> (d == c || (d in m && d.id != c.id))
  {
    var i, r := IndexOf(m, c.id), Put(m, c);
    assert r[i] == c;
    forall d | d in m && d.id != c.id ensures d in r {
      var j :| 0 <= j < |m| && m[j] == d;
      assert r[j] == d;
    }
    forall d | d in r && d != c ensures d in m && d.id != c.id {
      var j :| 0 <= j < |r| && r[j] == d;
      assert j < |m| && m[j] == d;
    }
    forall id | id in Ids(m) ensures id in Ids(r) {
      var d :| d in m && d.id == id;
      if d.id != c.id { assert d in r; }
    }
  }

  lemma LastDistinct(cs: seq<Checkpoint>)
    requires cs != []
    ensures var front, c := cs[..|cs| - 1], cs[|cs| - 1];
            && (forall d :: d in cs <==> d in front || d == c) && Ids(cs) == Ids(front) + {c.id}
            && (DistinctIds(cs) ==> DistinctIds(front) && c.id !in Ids(front))
  {
    var n := |cs| - 1;
    assert cs == cs[..n] + [cs[n]];
    assert forall d :: d in cs <==> d in cs[..n] || d == cs[n];
    if DistinctIds(cs) {
      forall d | d in cs[..n] ensures d.id != cs[n].id {
        var j :| 0 <= j < n && cs[..n][j] == d;
        assert cs[j].id != cs[n].id;
      }
    }
  }

  lemma {:induction false} PutAllDistinct(m: seq<Checkpoint>, cs: seq<Checkpoint>)
    requires DistinctIds(m)
    ensures DistinctIds(PutAll(m, cs)) && Ids(PutAll(m, cs)) == Ids(m) + Ids(cs)
    ensures forall d :: d in PutAll(m, cs) ==> d in cs || (d in m && d.id !in Ids(cs))
    ensures DistinctIds(cs) ==> forall d :: d in cs ==> d in PutAll(m, cs)
    decreases |cs|
  {
    hide DistinctIds, Put;
    if cs != [] {
      var front, c := cs[..|cs| - 1], cs[|cs| - 1];
      LastDistinct(cs);
      PutAllDistinct(m, front);
      PutDistinct(PutAll(m, front), c);
      if DistinctIds(cs) { InIds(front); }
    }
  }

  lemma InIds(cs: seq<Checkpoint>)
    ensures forall d :: d in cs ==> d.id in Ids(cs)
  {
  }

  lemma {:induction false} KeptIs(disk: seq<Checkpoint>, mine: Option<nat>, ids: set<nat>)
    ensures forall d :: d in Kept(disk, mine, ids) <==> d in disk && !Removed(d, mine, ids)
    decreases |disk|
  {
    if disk != [] {
      KeptIs(disk[..|disk| - 1], mine, ids);
      assert disk == disk[..|disk| - 1] + [disk[|disk| - 1]];
    }
  }

  lemma {:induction false} InsertElements(s: seq<Checkpoint>, c: Checkpoint)
    ensures |Insert(s, c)| == |s| + 1
    ensures forall d :: d in Insert(s, c) <==> d in s || d == c
    decreases |s|
  {
    if s != [] && s[|s| - 1].createdAt > c.createdAt {
      var n := |s| - 1;
      assert s == s[..n] + [s[n]];
      InsertElements(s[..n], c);
    }
  }

  lemma TimeLast(s: seq<Checkpoint>)
    requires s != [] && InTime(s)
    ensures InTime(s[..|s| - 1]) && forall d :: d in s[..|s| - 1] ==> d.createdAt <= s[|s| - 1].createdAt
  {
    var n := |s| - 1;
    forall d | d in s[..n] ensures d.createdAt <= s[n].createdAt {
      var j :| 0 <= j < n && s[..n][j] == d;
      assert s[j].createdAt <= s[n].createdAt;
    }
  }

  lemma AppendSorts(r: seq<Checkpoint>, c: Checkpoint)
    requires InTime(r) && forall d :: d in r ==> d.createdAt <= c.createdAt
    ensures InTime(r + [c])
  {
    forall i | 0 <= i < |r| ensures r[i].createdAt <= c.createdAt { assert r[i] in r; }
  }

  lemma {:induction false} InsertSorts(s: seq<Checkpoint>, c: Checkpoint)
    requires InTime(s)
    ensures InTime(Insert(s, c))
    decreases |s|
  {
    if s != [] {
      var n := |s| - 1;
      TimeLast(s);
      if s[n].createdAt > c.createdAt {
        InsertSorts(s[..n], c);
        InsertElements(s[..n], c);
        AppendSorts(Insert(s[..n], c), s[n]);
      }
    }
  }

  lemma {:induction false} InsertDistinct(s: seq<Checkpoint>, c: Checkpoint)
    requires DistinctIds(s) && c.id !in Ids(s)
    ensures DistinctIds(Insert(s, c))
    decreases |s|
  {
    hide Insert, DistinctIds;
    InsertStep(s, c);
    if s == [] || s[|s| - 1].createdAt <= c.createdAt {
      InIds(s);
      AppendDistinct(s, c);
    } else {
      var n := |s| - 1;
      LastDistinct(s);
      InsertDistinct(s[..n], c);
      InsertElements(s[..n], c);
      InIds(s[..n]);
      InIds(s);
      assert s[n] in s;
      AppendDistinct(Insert(s[..n], c), s[n]);
    }
  }

  lemma InsertStep(s: seq<Checkpoint>, c: Checkpoint)
    ensures Insert(s, c) ==
            if s == [] || s[|s| - 1].createdAt <= c.createdAt then s + [c] else Insert(s[..|s| - 1], c) + [s[|s| - 1]]
  {
  }

  lemma AppendDistinct(r: seq<Checkpoint>, c: Checkpoint)
    requires DistinctIds(r) && forall d :: d in r ==> d.id != c.id
    ensures DistinctIds(r + [c])
  {
    forall i | 0 <= i < |r| ensures r[i].id != c.id { assert r[i] in r; }
  }

  lemma {:induction false} SortSorts(cs: seq<Checkpoint>)
    requires DistinctIds(cs)
    ensures InTime(Sort(cs)) && DistinctIds(Sort(cs)) && |Sort(cs)| == |cs|
    ensures forall d :: d in Sort(cs) <==> d in cs
    decreases |cs|
  {
    hide DistinctIds, InTime, Insert;
    if cs == [] {
      EmptySorted();
    } else {
      var n := |cs| - 1;
      LastDistinct(cs);
      SortSorts(cs[..n]);
      InsertSorts(Sort(cs[..n]), cs[n]);
      InsertDistinct(Sort(cs[..n]), cs[n]);
      InsertElements(Sort(cs[..n]), cs[n]);
    }
  }

  lemma EmptySorted()
    ensures InTime([]) && DistinctIds([])
  {
  }

  /** Whatever the file held: afterwards ids are unique and times ascend, the file is the
      newest fifty of the merge, every listed entry is in the merge, and so is every entry of
      the file except those this session removed or overrides. */
  lemma SaveMeaning(disk: seq<Checkpoint>, list: seq<Checkpoint>, mine: Option<nat>)
    requires DistinctIds(list)
    ensures var m, out := Merge(disk, list, mine), Save(disk, list, mine);
            && DistinctIds(m) && DistinctIds(out) && InTime(out)
            && |out| == (if |m| < 50 then |m| else 50)
            && (forall c :: c in out ==> c in m)
            && (forall c, d :: c in out && d in m && d !in out ==> d.createdAt <= c.createdAt)
            && (forall c :: c in list ==> c in m)
            && Ids(m) == Ids(list) + Ids(Kept(disk, mine, Ids(list)))
            && (forall c :: c in m && c !in list ==> c in disk && c.id !in Ids(list) && !Removed(c, mine, Ids(list)))
  {
    hide DistinctIds, InTime, Prune;
    var kept := Kept(disk, mine, Ids(list));
    KeptIs(disk, mine, Ids(list));
    EmptySorted();
    PutAllDistinct([], kept);
    PutAllDistinct(PutAll([], kept), list);
    var m := Merge(disk, list, mine);
    SortSorts(m);
    assert forall c :: c in m && c !in list ==> c in kept;
    NewestOf(Sort(m));
  }

  lemma NewestOf(all: seq<Checkpoint>)
    requires InTime(all) && DistinctIds(all)
    ensures InTime(Prune(all)) && DistinctIds(Prune(all))
    ensures |Prune(all)| == (if |all| < MAX_CHECKPOINTS then |all| else MAX_CHECKPOINTS)
    ensures forall c :: c in Prune(all) ==> c in all
    ensures forall c, d :: c in Prune(all) && d in all && d !in Prune(all) ==> d.createdAt <= c.createdAt
  {
    hide InTime, DistinctIds;
    var cut := |all| - |Prune(all)|;
    assert Prune(all) == all[cut..];
    SuffixOrder(all, cut);
    SuffixNewest(all, cut);
  }

  lemma SuffixOrder(all: seq<Checkpoint>, cut: nat)
    requires InTime(all) && DistinctIds(all) && cut <= |all|
    ensures InTime(all[cut..]) && DistinctIds(all[cut..])
  {
  }

  lemma SuffixNewest(all: seq<Checkpoint>, cut: nat)
    requires InTime(all) && cut <= |all|
    ensures forall c, d :: c in all[cut..] && d in all && d !in all[cut..] ==> d.createdAt <= c.createdAt
  {
    assert all == all[..cut] + all[cut..];
    forall c, d | c in all[cut..] && d in all[..cut] ensures d.createdAt <= c.createdAt {
      var i :| cut <= i < |all| && all[i] == c;
      var j :| 0 <= j < cut && all[j] == d;
    }
  }

  // ---------------------------------------------------------------- one session's view

  lemma {:induction false} OwnIs(cs: seq<Checkpoint>, sid: nat)
    ensures forall d :: d in Own(cs, sid) <==> d in cs && d.sessionId == Some(sid)
    decreases |cs|
  {
    if cs != [] {
      OwnIs(cs[..|cs| - 1], sid);
      assert cs == cs[..|cs| - 1] + [cs[|cs| - 1]];
    }
  }

  lemma {:induction false} OwnKept(disk: seq<Checkpoint>, mine: Option<nat>, ids: set<nat>, t: nat)
    requires mine != Some(t)
    ensures Own(Kept(disk, mine, ids), t) == Own(disk, t)
    decreases |disk|
  {
    if disk != [] {
      OwnKept(disk[..|disk| - 1], mine, ids, t);
      var k, c := Kept(disk[..|disk| - 1], mine, ids), disk[|disk| - 1];
      assert (k + [c])[..|k|] == k;
      assert k + [] == k;
    }
  }

  lemma {:induction false} InsertOther(s: seq<Checkpoint>, c: Checkpoint, t: nat)
    requires c.sessionId != Some(t)
    ensures Own(Insert(s, c), t) == Own(s, t)
    decreases |s|
  {
    if s != [] && s[|s| - 1].createdAt > c.createdAt {
      InsertOther(s[..|s| - 1], c, t);
      var r := Insert(s[..|s| - 1], c);
      assert (r + [s[|s| - 1]])[..|r|] == r;
    } else {
      assert (s + [c])[..|s|] == s;
    }
  }

  lemma {:induction false} InsertNewest(s: seq<Checkpoint>, c: Checkpoint, t: nat)
    requires c.sessionId == Some(t)
    requires forall d :: d in Own(s, t) ==> d.createdAt <= c.createdAt
    ensures Own(Insert(s, c), t) == Own(s, t) + [c]
    decreases |s|
  {
    if s != [] && s[|s| - 1].createdAt > c.createdAt {
      hide Own;
      var n := |s| - 1;
      OwnIs(s, t);
      assert s[n] in s;
      assert s == s[..n] + [s[n]];
      OwnPush(s[..n], s[n], t);
      assert Own(s[..n], t) + [] == Own(s[..n], t);
      InsertNewest(s[..n], c, t);
      OwnPush(Insert(s[..n], c), s[n], t);
      assert (Own(s[..n], t) + [c]) + [] == Own(s[..n], t) + [c];
    } else {
      OwnPush(s, c, t);
    }
  }

  lemma OwnPush(s: seq<Checkpoint>, c: Checkpoint, t: nat)
    ensures Own(s + [c], t) == Own(s, t) + (if c.sessionId == Some(t) then [c] else [])
  {
    assert (s + [c])[..|s|] == s;
  }

  /** The sort is stable, so a view that is already in time order is not disturbed. */
  lemma {:induction false} SortKeepsView(cs: seq<Checkpoint>, t: nat)
    requires InTime(Own(cs, t))
    ensures Own(Sort(cs), t) == Own(cs, t)
    decreases |cs|
  {
    if cs != [] {
      var n := |cs| - 1;
      var c, view := cs[n], Own(cs[..n], t);
      if c.sessionId == Some(t) {
        assert Own(cs, t) == view + [c];
        forall i, j | 0 <= i < j < |view| ensures view[i].createdAt <= view[j].createdAt {
          assert view[i] == Own(cs, t)[i] && view[j] == Own(cs, t)[j];
        }
        SortKeepsView(cs[..n], t);
        forall d | d in view ensures d.createdAt <= c.createdAt {
          var i :| 0 <= i < |view| && view[i] == d;
          assert Own(cs, t)[i] == d && Own(cs, t)[|view|] == c;
        }
        InsertNewest(Sort(cs[..n]), c, t);
      } else {
        assert Own(cs, t) == view;
        SortKeepsView(cs[..n], t);
        InsertOther(Sort(cs[..n]), c, t);
      }
    }
  }

  lemma {:induction false} OwnInTime(cs: seq<Checkpoint>, t: nat)
    requires InTime(cs)
    ensures InTime(Own(cs, t))
    decreases |cs|
  {
    if cs != [] {
      var n := |cs| - 1;
      TimeLast(cs);
      OwnInTime(cs[..n], t);
      OwnIs(cs[..n], t);
      AppendSorts(Own(cs[..n], t), cs[n]);
    }
  }

  /** Sorting the file leaves a view as it was if and only if it was in time order. */
  lemma SortKeepsViewIff(cs: seq<Checkpoint>, t: nat)
    ensures Own(Sort(cs), t) == Own(cs, t) <==> InTime(Own(cs, t))
  {
    if InTime(Own(cs, t)) {
      SortKeepsView(cs, t);
    }
    SortInTime(cs);
    OwnInTime(Sort(cs), t);
  }

  /** Two snapshots of one session between which the clock went back come out of the file in
      the other order. */
  lemma ClockBackSwaps(a: Checkpoint, b: Checkpoint, sid: nat)
    requires a.sessionId == Some(sid) && b.sessionId == Some(sid) && a.id != b.id && b.createdAt < a.createdAt
    ensures Own(Save([], [a, b], Some(sid)), sid) == [b, a]
  {
    assert [a, b][..1] == [a] && [a][..0] == [] && [b, a][..1] == [b] && [b][..0] == [];
    assert PutAll([], []) == [] && PutAll([], [a]) == [a] && PutAll([], [a, b]) == [a, b];
    assert Sort([]) == [] && Sort([a]) == [a];
    assert Insert([], b) == [b] && Insert([a], b) == [b, a];
    assert Own([], sid) == [] && Own([b], sid) == [b];
  }

  lemma {:induction false} SortInTime(cs: seq<Checkpoint>)
    ensures InTime(Sort(cs))
    decreases |cs|
  {
    if cs != [] {
      SortInTime(cs[..|cs| - 1]);
      InsertSorts(Sort(cs[..|cs| - 1]), cs[|cs| - 1]);
    }
  }

  /** Two sequences sorted by id with the same elements are the same sequence. */
  lemma {:induction false} SortedUnique(a: seq<Checkpoint>, b: seq<Checkpoint>)
    requires ById(a) && ById(b) && forall d :: d in a <==> d in b
    ensures a == b
    decreases |a|
  {
    HasElement(a);
    HasElement(b);
    if a != [] {
      var n, m := |a| - 1, |b| - 1;
      SameLast(a, b);
      FrontElements(a);
      FrontElements(b);
      forall d ensures d in a[..n] <==> d in b[..m] {
        assert d in a <==> d in b;
      }
      SortedUnique(a[..n], b[..m]);
      assert a == a[..n] + [a[n]] && b == b[..m] + [b[m]];
    }
  }

  lemma HasElement(a: seq<Checkpoint>)
    ensures a != [] ==> exists d :: d in a
  {
    if a != [] { assert a[0] in a; }
  }

  lemma SameLast(a: seq<Checkpoint>, b: seq<Checkpoint>)
    requires a != [] && b != [] && ById(a) && ById(b) && forall d :: d in a <==> d in b
    ensures a[|a| - 1] == b[|b| - 1]
  {
    assert a[|a| - 1] in b && b[|b| - 1] in a;
    var i :| 0 <= i < |a| && a[i] == b[|b| - 1];
    var j :| 0 <= j < |b| && b[j] == a[|a| - 1];
  }

  lemma FrontElements(a: seq<Checkpoint>)
    requires a != [] && ById(a)
    ensures forall d :: d in a[..|a| - 1] <==> d in a && d != a[|a| - 1]
  {
    var n := |a| - 1;
    assert a == a[..n] + [a[n]];
    FrontBelow(a);
  }

  /** The entries of the file and of the list agree: an id means one checkpoint. */
  ghost predicate OneMeaning(m: seq<Checkpoint>, list: seq<Checkpoint>) {
    forall c, d :: c in m && d in list && c.id == d.id ==> c == d
  }

  /** What the list adds to the file was created after everything of ours in the file. */
  ghost predicate AddsNewer(m: seq<Checkpoint>, list: seq<Checkpoint>, sid: nat) {
    forall c, d :: c in m && c.sessionId == Some(sid) && d in list && d !in m ==> c.id < d.id
  }

  lemma PutView(m: seq<Checkpoint>, c: Checkpoint, sid: nat, t: nat)
    requires c.sessionId == Some(sid)
    requires forall d :: d in m && d.id == c.id ==> d == c
    ensures t != sid ==> Own(Put(m, c), t) == Own(m, t)
    ensures c in m ==> Put(m, c) == m
    ensures c !in m ==> Own(Put(m, c), sid) == Own(m, sid) + [c] && Put(m, c) == m + [c]
  {
    hide Own;
    var i := IndexOf(m, c.id);
    if i < |m| {
      assert m[i] in m && m[i] == c && m[i := c] == m;
    } else {
      OwnPush(m, c, t);
      OwnPush(m, c, sid);
    }
    if c in m {
      var j :| 0 <= j < |m| && m[j] == c;
      assert i <= j;
    }
  }

  lemma {:induction false} PutAllView(m: seq<Checkpoint>, list: seq<Checkpoint>, sid: nat, t: nat)
    requires OneMeaning(m, list) && AddsNewer(m, list, sid)
    requires ById(list) && forall c :: c in list ==> c.sessionId == Some(sid)
    requires ById(Own(m, sid))
    ensures t != sid ==> Own(PutAll(m, list), t) == Own(m, t)
    ensures ById(Own(PutAll(m, list), sid))
    ensures forall d :: d in PutAll(m, list) <==> d in m || d in list
    decreases |list|
  {
    if list != [] {
      var n := |list| - 1;
      var front, c := list[..n], list[n];
      FrontElements(list);
      assert forall d :: d in list <==> d in front || d == c;
      PutAllView(m, front, sid, t);
      LastNewest(m, list, sid);
      PutView(PutAll(m, front), c, sid, t);
      AppendNewest(PutAll(m, front), c, sid);
    }
  }

  lemma AppendNewest(r: seq<Checkpoint>, c: Checkpoint, sid: nat)
    requires ById(Own(r, sid))
    requires c !in r ==> forall d :: d in r && d.sessionId == Some(sid) ==> d.id < c.id
    ensures c !in r ==> ById(Own(r, sid) + [c])
  {
    OwnIs(r, sid);
    if c !in r { AppendById(Own(r, sid), c); }
  }

  lemma LastNewest(m: seq<Checkpoint>, list: seq<Checkpoint>, sid: nat)
    requires list != [] && ById(list) && AddsNewer(m, list, sid) && OneMeaning(m, list)
    ensures var front, c := list[..|list| - 1], list[|list| - 1];
            && (forall d :: (d in m || d in front) && d.id == c.id ==> d == c)
            && (c !in m ==> forall d :: (d in m && d.sessionId == Some(sid)) || d in front ==> d.id < c.id)
  {
    FrontBelow(list);
    assert list[|list| - 1] in list;
  }

  lemma {:induction false} PutAllFresh(cs: seq<Checkpoint>)
    requires DistinctIds(cs)
    ensures PutAll([], cs) == cs
    decreases |cs|
  {
    if cs != [] {
      var n := |cs| - 1;
      PutAllFresh(cs[..n]);
      var i := IndexOf(cs[..n], cs[n].id);
      assert cs == cs[..n] + [cs[n]];
    }
  }

  lemma {:induction false} KeptDistinct(disk: seq<Checkpoint>, mine: Option<nat>, ids: set<nat>)
    requires DistinctIds(disk)
    ensures DistinctIds(Kept(disk, mine, ids))
    decreases |disk|
  {
    if disk != [] {
      var n := |disk| - 1;
      KeptDistinct(disk[..n], mine, ids);
      KeptIs(disk[..n], mine, ids);
      forall d | d in Kept(disk[..n], mine, ids) ensures d.id != disk[n].id {
        var j :| 0 <= j < n && disk[..n][j] == d;
      }
    }
  }

  lemma {:induction false} OwnOrderKept(disk: seq<Checkpoint>, sid: nat, ids: set<nat>)
    requires ById(Own(disk, sid))
    ensures ById(Own(Kept(disk, Some(sid), ids), sid))
    decreases |disk|
  {
    hide ById, Own, Kept, Removed;
    if disk == [] {
      KeptNone(sid, ids);
    } else {
      var n := |disk| - 1;
      var k, c, view := Kept(disk[..n], Some(sid), ids), disk[n], Own(disk[..n], sid);
      assert disk == disk[..n] + [c];
      OwnPush(disk[..n], c, sid);
      KeptPush(disk[..n], c, Some(sid), ids);
      OwnPush(k, c, sid);
      if c.sessionId == Some(sid) {
        FrontBelow(Own(disk, sid));
        assert Own(disk, sid)[..|Own(disk, sid)| - 1] == view;
        OwnOrderKept(disk[..n], sid, ids);
        OwnIs(k, sid);
        OwnIs(disk[..n], sid);
        KeptIs(disk[..n], Some(sid), ids);
        AppendById(Own(k, sid), c);
      } else {
        assert Own(disk, sid) == view;
        OwnOrderKept(disk[..n], sid, ids);
        assert Own(k, sid) + [] == Own(k, sid);
      }
    }
  }

  lemma KeptPush(disk: seq<Checkpoint>, c: Checkpoint, mine: Option<nat>, ids: set<nat>)
    ensures Kept(disk + [c], mine, ids) == if Removed(c, mine, ids) then Kept(disk, mine, ids)
                                           else Kept(disk, mine, ids) + [c]
  {
    assert (disk + [c])[..|disk|] == disk;
  }

  lemma KeptNone(sid: nat, ids: set<nat>)
    ensures ById(Own(Kept([], Some(sid), ids), sid))
  {
  }

  lemma FrontBelow(a: seq<Checkpoint>)
    requires a != [] && ById(a)
    ensures ById(a[..|a| - 1]) && forall d :: d in a[..|a| - 1] ==> d.id < a[|a| - 1].id
  {
    var n := |a| - 1;
    forall d | d in a[..n] ensures d.id < a[n].id {
      var i :| 0 <= i < n && a[..n][i] == d;
      assert a[i].id < a[n].id;
    }
  }

  lemma AppendById(a: seq<Checkpoint>, c: Checkpoint)
    requires ById(a) && forall d :: d in a ==> d.id < c.id
    ensures ById(a + [c])
  {
    forall i | 0 <= i < |a| ensures a[i].id < c.id { assert a[i] in a; }
  }

  /** Before the cap: the saving session's view of the merge is its list, and every other
      session's view is what it was. */
  lemma MergeViews(disk: seq<Checkpoint>, list: seq<Checkpoint>, sid: nat, t: nat)
    requires DistinctIds(disk) && OneMeaning(disk, list) && AddsNewer(disk, list, sid)
    requires ById(list) && InTime(list) && forall c :: c in list ==> c.sessionId == Some(sid)
    requires ById(Own(disk, sid)) && (t != sid ==> InTime(Own(disk, t)))
    ensures Own(Sort(Merge(disk, list, Some(sid))), t) == (if t == sid then list else Own(disk, t))
  {
    var ids := Ids(list);
    var kept := Kept(disk, Some(sid), ids);
    KeptDistinct(disk, Some(sid), ids);
    KeptIs(disk, Some(sid), ids);
    PutAllFresh(kept);
    OwnOrderKept(disk, sid, ids);
    forall c, d | c in kept && c.sessionId == Some(sid) && d in list && d !in kept ensures c.id < d.id {
      assert d.id in ids && d !in disk;
    }
    PutAllView(kept, list, sid, t);
    var m := PutAll(kept, list);
    assert Merge(disk, list, Some(sid)) == m;
    if t == sid {
      OwnIs(m, sid);
      forall d ensures d in Own(m, sid) <==> d in list {
        if d in kept && d.sessionId == Some(sid) {
          var e :| e in list && e.id == d.id;
        }
      }
      SortedUnique(Own(m, sid), list);
    } else {
      OwnKept(disk, Some(sid), ids, t);
    }
    SortKeepsView(m, t);
  }

  /** The cap: every view survives a save if and only if the merge fits in fifty entries. */
  lemma PruneViews(all: seq<Checkpoint>, sids: set<nat>)
    requires DistinctIds(all) && forall c :: c in all ==> c.sessionId.Some? && c.sessionId.value in sids
    ensures (forall t :: t in sids ==> Own(Prune(all), t) == Own(all, t)) <==> |all| <= MAX_CHECKPOINTS
  {
    if |all| > MAX_CHECKPOINTS {
      var cut := |all| - MAX_CHECKPOINTS;
      var c := all[0];
      assert c in all;
      var t := c.sessionId.value;
      OwnIs(all, t);
      OwnIs(Prune(all), t);
      assert forall i :: 0 <= i < MAX_CHECKPOINTS ==> all[cut..][i] == all[cut + i];
    }
  }
}
