/**
  The shared coordination board. Notes are evicted one at a time as new ones arrive; the laws
  say what is left after any number of posts, from the posts alone.
  */
module Blackboards {
  import opened Searching
  import opened Arithmetic
  import opened Options
  import opened Text

  const MAX_NOTES := 200
  const MAX_NOTE_CHARS := 2000

  datatype NoteKind = Claim | Decided | Conflict | Info

  datatype Note = Note(author: string, text: string, kind: NoteKind, at: int)

  predicate IsEvictable(note: Note) {
    note.kind == Info || note.kind == Claim
  }

  function FirstEvictable(notes: seq<Note>): (i: nat)
    ensures i <= |notes| && (i < |notes| ==> IsEvictable(notes[i]))
    ensures forall k :: 0 <= k < i ==> !IsEvictable(notes[k])
  {
    FirstIndex(notes, IsEvictable)
  }

  /** The note to give up is the oldest transient one, or else the oldest. */
  function Evict(notes: seq<Note>): seq<Note>
    requires notes != []
  {
    var i := FirstEvictable(notes);
    var at := if i == |notes| then 0 else i;
    notes[..at] + notes[at + 1..]
  }

  // ---------------------------------------------------------------- what is kept

  function CountHeavy(posts: seq<Note>): (n: nat)
    ensures n <= |posts|
  {
    if posts == [] then 0 else
    CountHeavy(posts[..|posts| - 1]) + if IsEvictable(posts[|posts| - 1]) then 0 else 1
  }

  /** Of the posts, in their order, the last `heavy` that bear load and the last `light`
      transient ones. */
  function Newest(posts: seq<Note>, heavy: nat, light: nat): seq<Note> {
    if posts == [] then [] else
    var init, last := posts[..|posts| - 1], posts[|posts| - 1];
    if IsEvictable(last) then
      if light == 0 then Newest(init, heavy, 0) else Newest(init, heavy, light - 1) + [last]
    else
      if heavy == 0 then Newest(init, 0, light) else Newest(init, heavy - 1, light) + [last]
  }

  /** Load-bearing posts first: the transient ones get what room is left. */
  function Kept(posts: seq<Note>): seq<Note> {
    var heavy := Smaller(MAX_NOTES, CountHeavy(posts));
    Newest(posts, heavy, Smaller(|posts| - CountHeavy(posts), MAX_NOTES - heavy))
  }

  class Blackboard {
    var notes: seq<Note>
    /** Everything posted since the board was last cleared. */
    ghost var posts: seq<Note>

    ghost predicate Valid()
      reads this
    {
      notes == Kept(posts)
    }

    constructor ()
      ensures Valid() && posts == []
    {
      notes, posts := [], [];
    }

    method Post(author: string, text: string, kind: NoteKind, now: int) returns (note: Note)
      requires Valid()
      modifies this
      ensures Valid() && posts == old(posts) + [note]
      ensures note.author == author && note.kind == kind && note.at == now
      ensures |note.text| <= 2000 && note.text <= Trimmed(text)
      ensures |note.text| < 2000 ==> note.text == Trimmed(text)
    {
      var trimmed := Trimmed(text);
      note := Note(author, if |trimmed| > MAX_NOTE_CHARS then trimmed[..MAX_NOTE_CHARS] else trimmed, kind, now);
      KeptSize(posts);
      notes := notes + [note];
      ghost var full := notes;
      while |notes| > MAX_NOTES
        invariant posts == old(posts)
        invariant notes == full || (|full| == MAX_NOTES + 1 && notes == Evict(full))
        decreases |notes|
      {
        var i := FirstEvictable(notes);
        var at := if i == |notes| then 0 else i;
        notes := notes[..at] + notes[at + 1..];
      }
      PostKeeps(posts, note);
      posts := posts + [note];
    }

    /** The newest notes of a kind, or of all kinds, newest last. */
    method Read(limit: Option<int>, kind: Option<NoteKind>) returns (r: seq<Note>)
      requires Valid()
      ensures r == if limit.Some? && limit.value > 0 then Last(Scoped(Kept(posts), kind), limit.value)
                   else Scoped(Kept(posts), kind)
    {
      var scoped := [];
      for i := 0 to |notes|
        invariant scoped == Scoped(notes[..i], kind)
      {
        ScopedPush(notes[..i], notes[i], kind);
        assert notes[..i + 1] == notes[..i] + [notes[i]];
        if kind.None? || notes[i].kind == kind.value {
          scoped := scoped + [notes[i]];
        }
      }
      assert notes[..|notes|] == notes;
      if limit.Some? && limit.value > 0 {
        return Last(scoped, limit.value);
      }
      return scoped;
    }

    method Clear()
      modifies this
      ensures Valid() && posts == []
    {
      notes, posts := [], [];
    }
  }

  function Scoped(notes: seq<Note>, kind: Option<NoteKind>): seq<Note> {
    if notes == [] then [] else
    var init, last := notes[..|notes| - 1], notes[|notes| - 1];
    if kind.None? || last.kind == kind.value then Scoped(init, kind) + [last] else Scoped(init, kind)
  }

  function Last(notes: seq<Note>, n: nat): seq<Note> {
    if n >= |notes| then notes else notes[|notes| - n..]
  }

  lemma ScopedPush(notes: seq<Note>, note: Note, kind: Option<NoteKind>)
    ensures Scoped(notes + [note], kind) ==
            if kind.None? || note.kind == kind.value then Scoped(notes, kind) + [note] else Scoped(notes, kind)
  {
    assert (notes + [note])[..|notes|] == notes;
  }

  // ---------------------------------------------------------------- eviction is the closed form

  lemma CountStep(posts: seq<Note>)
    ensures posts == [] ==> CountHeavy(posts) == 0
    ensures posts != [] ==>
              CountHeavy(posts) == CountHeavy(posts[..|posts| - 1]) + if IsEvictable(posts[|posts| - 1]) then 0 else 1
  {
  }

  lemma NewestNone(heavy: nat, light: nat)
    ensures Newest([], heavy, light) == []
  {
  }

  lemma NewestStep(posts: seq<Note>, heavy: nat, light: nat)
    requires posts != []
    ensures var init, last := posts[..|posts| - 1], posts[|posts| - 1];
            Newest(posts, heavy, light) ==
            if IsEvictable(last) then
              (if light == 0 then Newest(init, heavy, 0) else Newest(init, heavy, light - 1) + [last])
            else if heavy == 0 then Newest(init, 0, light) else Newest(init, heavy - 1, light) + [last]
  {
  }

  lemma {:induction false} NewestSize(posts: seq<Note>, heavy: nat, light: nat)
    requires heavy <= CountHeavy(posts) && light <= |posts| - CountHeavy(posts)
    ensures |Newest(posts, heavy, light)| == heavy + light
    ensures CountHeavy(Newest(posts, heavy, light)) == heavy
    decreases |posts|
  {
    hide Newest, CountHeavy, IsEvictable;
    CountStep(posts);
    if posts == [] {
      NewestNone(heavy, light);
    } else {
      NewestStep(posts, heavy, light);
      var init, last := posts[..|posts| - 1], posts[|posts| - 1];
      var h := if IsEvictable(last) || heavy == 0 then heavy else heavy - 1;
      var l := if IsEvictable(last) && light > 0 then light - 1 else light;
      NewestSize(init, h, l);
      CountPush(Newest(init, h, l), last);
    }
  }

  lemma CountPush(notes: seq<Note>, note: Note)
    ensures CountHeavy(notes + [note]) == CountHeavy(notes) + if IsEvictable(note) then 0 else 1
  {
    assert (notes + [note])[..|notes|] == notes;
  }

  lemma KeptSize(posts: seq<Note>)
    ensures |Kept(posts)| == Smaller(MAX_NOTES, |posts|)
  {
    var heavy := Smaller(MAX_NOTES, CountHeavy(posts));
    NewestSize(posts, heavy, Smaller(|posts| - CountHeavy(posts), MAX_NOTES - heavy));
  }

  lemma {:induction false} NewestAll(posts: seq<Note>)
    ensures Newest(posts, CountHeavy(posts), |posts| - CountHeavy(posts)) == posts
    decreases |posts|
  {
    hide Newest, CountHeavy, IsEvictable;
    CountStep(posts);
    if posts == [] {
      NewestNone(0, 0);
    } else {
      NewestStep(posts, CountHeavy(posts), |posts| - CountHeavy(posts));
      NewestAll(posts[..|posts| - 1]);
    }
  }

  lemma {:induction false} AllHeavy(notes: seq<Note>)
    ensures CountHeavy(notes) == |notes| <==> FirstEvictable(notes) == |notes|
    decreases |notes|
  {
    if notes != [] {
      var init, last := notes[..|notes| - 1], notes[|notes| - 1];
      AllHeavy(init);
      var i, j := FirstEvictable(init), FirstEvictable(notes);
      assert i < |init| ==> notes[i] == init[i];
      assert j < |init| ==> init[j] == notes[j];
      assert notes[|init|] == last;
    }
  }

  predicate HasLight(notes: seq<Note>) {
    FirstEvictable(notes) < |notes|
  }

  function WithoutLight(notes: seq<Note>): seq<Note> {
    var i := FirstEvictable(notes);
    if i < |notes| then notes[..i] + notes[i + 1..] else notes
  }

  lemma LightBefore(notes: seq<Note>, note: Note)
    requires HasLight(notes)
    ensures HasLight(notes + [note]) && WithoutLight(notes + [note]) == WithoutLight(notes) + [note]
  {
    hide FirstEvictable;
    FirstAfter(notes, note);
    DropMiddle(notes, note, FirstEvictable(notes));
  }

  lemma LightLast(notes: seq<Note>, note: Note)
    requires !HasLight(notes) && IsEvictable(note)
    ensures HasLight(notes + [note]) && WithoutLight(notes + [note]) == notes
  {
    FirstAfter(notes, note);
  }

  lemma DropMiddle<T>(s: seq<T>, x: T, i: nat)
    requires i < |s|
    ensures (s + [x])[..i] + (s + [x])[i + 1..] == s[..i] + s[i + 1..] + [x]
  {
  }

  lemma FirstAfter(notes: seq<Note>, note: Note)
    ensures FirstEvictable(notes) < |notes| ==> FirstEvictable(notes + [note]) == FirstEvictable(notes)
    ensures FirstEvictable(notes) == |notes| ==>
              FirstEvictable(notes + [note]) == if IsEvictable(note) then |notes| else |notes| + 1
  {
    hide IsEvictable;
    var all, i := notes + [note], FirstEvictable(notes);
    var j := FirstEvictable(all);
    assert i < |notes| ==> all[i] == notes[i];
    assert j < |notes| ==> all[j] == notes[j];
    assert all[|notes|] == note;
  }

  /** Giving up the oldest transient note leaves one transient note less to keep. */
  lemma {:induction false} EvictLight(posts: seq<Note>, heavy: nat, light: nat)
    requires heavy <= CountHeavy(posts) && 0 < light <= |posts| - CountHeavy(posts)
    ensures HasLight(Newest(posts, heavy, light))
    ensures WithoutLight(Newest(posts, heavy, light)) == Newest(posts, heavy, light - 1)
    decreases |posts|
  {
    hide Newest, CountHeavy, HasLight, WithoutLight, IsEvictable;
    CountStep(posts);
    NewestStep(posts, heavy, light);
    NewestStep(posts, heavy, light - 1);
    var init, last := posts[..|posts| - 1], posts[|posts| - 1];
    if IsEvictable(last) && light == 1 {
      NoLight(init, heavy);
      LightLast(Newest(init, heavy, 0), last);
    } else if IsEvictable(last) {
      EvictLight(init, heavy, light - 1);
      LightBefore(Newest(init, heavy, light - 1), last);
    } else if heavy > 0 {
      EvictLight(init, heavy - 1, light);
      LightBefore(Newest(init, heavy - 1, light), last);
    } else {
      EvictLight(init, 0, light);
    }
  }

  lemma NoLight(posts: seq<Note>, heavy: nat)
    requires heavy <= CountHeavy(posts)
    ensures !HasLight(Newest(posts, heavy, 0))
  {
    hide Newest, CountHeavy, FirstEvictable;
    NewestSize(posts, heavy, 0);
    AllHeavy(Newest(posts, heavy, 0));
  }

  /** With only load-bearing notes left, the oldest of them goes. */
  lemma {:induction false} EvictHeavy(posts: seq<Note>, heavy: nat)
    requires 0 < heavy <= CountHeavy(posts)
    ensures Newest(posts, heavy, 0) != [] && Newest(posts, heavy, 0)[1..] == Newest(posts, heavy - 1, 0)
    decreases |posts|
  {
    var init, last := posts[..|posts| - 1], posts[|posts| - 1];
    if IsEvictable(last) {
      EvictHeavy(init, heavy);
    } else if heavy > 1 {
      EvictHeavy(init, heavy - 1);
      assert (Newest(init, heavy - 1, 0) + [last])[1..] == Newest(init, heavy - 1, 0)[1..] + [last];
    } else {
      NewestSize(init, 0, 0);
    }
  }

  /** One post, and at most one eviction, leads from what is kept of the old posts to what is
      kept of the new ones. */
  lemma PostKeeps(posts: seq<Note>, note: Note)
    ensures Kept(posts + [note]) ==
            if |posts| < MAX_NOTES then Kept(posts) + [note] else Evict(Kept(posts) + [note])
  {
    hide Newest, CountHeavy, Kept;
    var all := posts + [note];
    if |posts| < MAX_NOTES {
      KeptAll(posts);
      KeptAll(all);
    } else {
      KeptSize(posts);
      PostEvicts(posts, note);
    }
  }

  lemma KeptAll(posts: seq<Note>)
    requires |posts| <= MAX_NOTES
    ensures Kept(posts) == posts
  {
    NewestAll(posts);
  }

  lemma EvictIs(notes: seq<Note>)
    requires notes != []
    ensures Evict(notes) == if HasLight(notes) then WithoutLight(notes) else notes[1..]
  {
    hide FirstEvictable;
    assert notes[..0] + notes[1..] == notes[1..];
  }

  lemma PostEvicts(posts: seq<Note>, note: Note)
    requires |posts| >= MAX_NOTES && Kept(posts) + [note] != []
    ensures Kept(posts + [note]) == Evict(Kept(posts) + [note])
  {
    hide Newest, CountHeavy, HasLight, WithoutLight, Evict, IsEvictable;
    var all := posts + [note];
    EvictIs(Kept(posts) + [note]);
    CountPush(posts, note);
    var heavy := Smaller(MAX_NOTES, CountHeavy(posts));
    var light := MAX_NOTES - heavy;
    assert all[..|posts|] == posts;
    if IsEvictable(note) {
      NewestStep(all, heavy, light + 1);
      EvictLight(all, heavy, light + 1);
    } else if CountHeavy(posts) < MAX_NOTES {
      NewestStep(all, heavy + 1, light);
      EvictLight(all, heavy + 1, light);
    } else {
      NewestStep(all, MAX_NOTES + 1, 0);
      EvictHeavy(all, MAX_NOTES + 1);
      NoLight(all, MAX_NOTES + 1);
    }
  }

  /** The board as it is run: each post appends and then evicts down to the cap. */
  function PostAll(posts: seq<Note>): seq<Note> {
    if posts == [] then [] else
    var full := PostAll(posts[..|posts| - 1]) + [posts[|posts| - 1]];
    if |full| > MAX_NOTES then Evict(full) else full
  }

  /** Whatever the interleaving of kinds, evicting one note per post leaves exactly the
      closed form. */
  lemma {:induction false} OnlineIsClosedForm(posts: seq<Note>)
    ensures PostAll(posts) == Kept(posts)
    decreases |posts|
  {
    if posts != [] {
      hide Kept, Evict;
      var init, last := posts[..|posts| - 1], posts[|posts| - 1];
      OnlineIsClosedForm(init);
      KeptSize(init);
      PostKeeps(init, last);
      assert init + [last] == posts;
    }
  }

  // ---------------------------------------------------------------- what the closed form says

  /** The posts that bear load, or the transient ones. */
  function Of(posts: seq<Note>, evictable: bool): seq<Note> {
    if posts == [] then [] else
    var init, last := posts[..|posts| - 1], posts[|posts| - 1];
    if IsEvictable(last) == evictable then Of(init, evictable) + [last] else Of(init, evictable)
  }

  lemma OfNone(evictable: bool)
    ensures Of([], evictable) == []
  {
  }

  lemma OfPush(notes: seq<Note>, note: Note, evictable: bool)
    ensures Of(notes + [note], evictable) ==
            if IsEvictable(note) == evictable then Of(notes, evictable) + [note] else Of(notes, evictable)
  {
    assert (notes + [note])[..|notes|] == notes;
  }

  lemma LastPush(notes: seq<Note>, note: Note, n: nat)
    ensures Last(notes + [note], n) == if n == 0 then [] else Last(notes, n - 1) + [note]
    ensures Last(notes, 0) == []
  {
  }

  /** The notes of each sort that `Newest` keeps are a suffix of the posts of that sort. */
  lemma {:induction false} NewestOf(posts: seq<Note>, heavy: nat, light: nat, evictable: bool)
    ensures Of(Newest(posts, heavy, light), evictable) == Last(Of(posts, evictable), if evictable then light else heavy)
    decreases |posts|
  {
    hide Newest, Of, IsEvictable, Last;
    if posts == [] {
      NewestNone(heavy, light);
      OfNone(evictable);
      LastIs([], if evictable then light else heavy);
    } else {
      NewestStep(posts, heavy, light);
      var init, last := posts[..|posts| - 1], posts[|posts| - 1];
      assert posts == init + [last];
      OfPush(init, last, evictable);
      var h := if IsEvictable(last) || heavy == 0 then heavy else heavy - 1;
      var l := if IsEvictable(last) && light > 0 then light - 1 else light;
      NewestOf(init, h, l, evictable);
      assert Newest(posts, heavy, light) ==
             if if IsEvictable(last) then light > 0 else heavy > 0 then Newest(init, h, l) + [last]
             else Newest(init, h, l);
      OfPush(Newest(init, h, l), last, evictable);
      LastPush(Of(init, evictable), last, if evictable then light else heavy);
    }
  }

  lemma {:induction false} OfSize(posts: seq<Note>)
    ensures |Of(posts, false)| == CountHeavy(posts) && |Of(posts, true)| == |posts| - CountHeavy(posts)
    decreases |posts|
  {
    if posts != [] {
      OfSize(posts[..|posts| - 1]);
    }
  }

  /** `notes` are the posts at these places, in posting order. */
  ghost predicate Picks(posts: seq<Note>, notes: seq<Note>, places: seq<nat>) {
    && |places| == |notes|
    && (forall i :: 0 <= i < |places| ==> places[i] < |posts| && notes[i] == posts[places[i]])
    && (forall i, j :: 0 <= i < j < |places| ==> places[i] < places[j])
  }

  lemma {:induction false} InOrder(posts: seq<Note>, heavy: nat, light: nat) returns (places: seq<nat>)
    ensures Picks(posts, Newest(posts, heavy, light), places)
    decreases |posts|
  {
    hide Newest, Picks, IsEvictable;
    places := [];
    if posts == [] {
      NewestNone(heavy, light);
      PicksNone();
    } else {
      NewestStep(posts, heavy, light);
      var init, last := posts[..|posts| - 1], posts[|posts| - 1];
      var h := if IsEvictable(last) || heavy == 0 then heavy else heavy - 1;
      var l := if IsEvictable(last) && light > 0 then light - 1 else light;
      var front := InOrder(init, h, l);
      assert posts == init + [last];
      PicksMore(init, last, Newest(init, h, l), front);
      places := if if IsEvictable(last) then light > 0 else heavy > 0 then front + [|init|] else front;
    }
  }

  lemma PicksNone()
    ensures Picks([], [], [])
  {
  }

  lemma PicksMore(posts: seq<Note>, last: Note, notes: seq<Note>, places: seq<nat>)
    requires Picks(posts, notes, places)
    ensures Picks(posts + [last], notes, places) && Picks(posts + [last], notes + [last], places + [|posts|])
    ensures |posts| !in places
  {
  }

  /** After any posts the board holds, in posting order, the last min(200, |L|) of the
      decisions and conflicts L and as many of the newest claims and infos as then fit. */
  lemma BoardAfterPosts(posts: seq<Note>) returns (places: seq<nat>)
    ensures var board, room := PostAll(posts), 200 - Smaller(200, |Of(posts, false)|);
            && Picks(posts, board, places)
            && Of(board, false) == Last(Of(posts, false), Smaller(200, |Of(posts, false)|))
            && Of(board, true) == Last(Of(posts, true), Smaller(|Of(posts, true)|, room))
            && |board| == Smaller(200, |posts|)
  {
    OnlineIsClosedForm(posts);
    OfSize(posts);
    KeptSize(posts);
    var heavy := Smaller(MAX_NOTES, CountHeavy(posts));
    var light := Smaller(|posts| - CountHeavy(posts), MAX_NOTES - heavy);
    NewestOf(posts, heavy, light, false);
    NewestOf(posts, heavy, light, true);
    places := InOrder(posts, heavy, light);
  }

  lemma {:induction false} ScopedOf(notes: seq<Note>, kind: NoteKind, evictable: bool)
    requires (kind == Claim || kind == Info) == evictable
    ensures Scoped(notes, Some(kind)) == Scoped(Of(notes, evictable), Some(kind))
    decreases |notes|
  {
    if notes != [] {
      var init, last := notes[..|notes| - 1], notes[|notes| - 1];
      ScopedOf(init, kind, evictable);
      ScopedPush(Of(init, evictable), last, Some(kind));
    }
  }

  /** While at most 200 decisions and conflicts were posted, a flood of claims and infos takes
      none of them: reading a load-bearing kind returns every one ever posted. */
  lemma DecisionsSurvive(posts: seq<Note>, kind: NoteKind)
    requires (kind == Decided || kind == Conflict) && |Of(posts, false)| <= 200
    ensures Scoped(PostAll(posts), Some(kind)) == Scoped(posts, Some(kind))
  {
    var places := BoardAfterPosts(posts);
    ScopedOf(PostAll(posts), kind, false);
    ScopedOf(posts, kind, false);
  }

  // ---------------------------------------------------------------- reading

  /** A scoped read has exactly the notes of the kind, in their order; a limit takes the newest
      of them. */
  lemma {:induction false} ScopedPicks(notes: seq<Note>, kind: Option<NoteKind>) returns (places: seq<nat>)
    ensures Picks(notes, Scoped(notes, kind), places)
    ensures forall i :: 0 <= i < |notes| ==> (i in places <==> kind.None? || notes[i].kind == kind.value)
    decreases |notes|
  {
    hide Scoped, Picks;
    if notes == [] {
      places := [];
      NoneScoped(kind);
    } else {
      var n := |notes| - 1;
      var front := ScopedPicks(notes[..n], kind);
      assert notes[..n] + [notes[n]] == notes;
      ScopedPush(notes[..n], notes[n], kind);
      PicksMore(notes[..n], notes[n], Scoped(notes[..n], kind), front);
      places := if kind.None? || notes[n].kind == kind.value then front + [n] else front;
    }
  }

  lemma NoneScoped(kind: Option<NoteKind>)
    ensures Picks([], Scoped([], kind), [])
  {
  }

  lemma LastIs(notes: seq<Note>, n: nat)
    ensures |Last(notes, n)| == Smaller(n, |notes|)
    ensures notes == notes[..|notes| - |Last(notes, n)|] + Last(notes, n)
  {
  }
}
