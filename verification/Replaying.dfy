/**
  Cursor replay of one session slot: frames are numbered by a counter that all slots of a
  workspace share, and the oldest are evicted when there are too many or they are too big.
  */
module Replaying {
  import opened Options

  const REPLAY_FRAMES: nat := 1024
  const REPLAY_BYTES: nat := 1024 * 1024

  datatype Frame<E> = Frame(sequence: nat, event: E, bytes: nat)

  datatype Cursor = Cursor(epoch: string, sequence: nat)

  /** The ready frame, and the frames after the cursor. */
  datatype Answer<E> = Answer(current: int, truncated: bool, frames: seq<Frame<E>>)

  function Bytes<E>(frames: seq<Frame<E>>): nat {
    if frames == [] then 0 else frames[0].bytes + Bytes(frames[1..])
  }

  predicate Fits<E>(frames: seq<Frame<E>>) {
    |frames| <= REPLAY_FRAMES && Bytes(frames) <= REPLAY_BYTES
  }

  function Evict<E>(frames: seq<Frame<E>>): seq<Frame<E>> {
    if frames == [] || Fits(frames) then frames else Evict(frames[1..])
  }

  function After<E>(frames: seq<Frame<E>>, c: int): seq<Frame<E>> {
    if frames == [] then [] else
    (if frames[0].sequence > c then [frames[0]] else []) + After(frames[1..], c)
  }

  function ReplayFrom<E>(frames: seq<Frame<E>>, epoch: string, cursor: Option<Cursor>): Answer<E> {
    var current := if frames == [] then 0 else frames[|frames| - 1].sequence;
    var truncated := cursor.Some? &&
      (cursor.value.epoch != epoch
       || cursor.value.sequence > current
       || (cursor.value.sequence < current && (frames == [] || cursor.value.sequence < frames[0].sequence - 1)));
    Answer(current, truncated, if cursor.Some? && !truncated then After(frames, cursor.value.sequence) else [])
  }

  /** `++this.#sequence`, shared by the slots of a workspace. */
  class SequenceCounter {
    var sequence: nat

    constructor ()
      ensures sequence == 0
    {
      sequence := 0;
    }

    method Next() returns (s: nat)
      modifies this
      ensures s == sequence == old(sequence) + 1
    {
      sequence := sequence + 1;
      s := sequence;
    }
  }

  class RuntimeSlot<E> {
    const epoch: string
    const counter: SequenceCounter
    var frames: seq<Frame<E>>
    var replayBytes: int
    /** Every frame the slot has seen. */
    ghost var log: seq<Frame<E>>

    ghost predicate Valid()
      reads this, counter
    {
      && frames == Buffer(log) && replayBytes == Bytes(frames)
      && Ascending(log) && forall f :: f in log ==> f.sequence <= counter.sequence
    }

    constructor (epoch: string, counter: SequenceCounter)
      ensures Valid() && log == [] && this.epoch == epoch && this.counter == counter
    {
      this.epoch, this.counter := epoch, counter;
      frames, replayBytes, log := [], 0, [];
    }

    /** One event of the stream; `bytes` is the length of its serialized frame. */
    method Consume(event: E, bytes: nat)
      requires Valid()
      modifies this, counter
      ensures Valid() && counter.sequence == old(counter.sequence) + 1
      ensures log == old(log) + [Frame(counter.sequence, event, bytes)]
    {
      var sequence := counter.Next();
      var frame := Frame(sequence, event, bytes);
      BytesPush(frames, frame);
      frames := frames + [frame];
      replayBytes := replayBytes + bytes;
      ghost var pushed := frames;
      while |frames| > REPLAY_FRAMES || replayBytes > REPLAY_BYTES
        invariant replayBytes == Bytes(frames) && Evict(frames) == Evict(pushed)
        invariant counter.sequence == sequence && log == old(log)
        decreases |frames|
      {
        var removed := frames[0];
        frames := frames[1..];
        replayBytes := replayBytes - removed.bytes;
      }
      BufferPush(log, frame);
      log := log + [frame];
    }

    /** A cursor is answered from everything the slot ever saw, unless the newest frame is too
        big to keep. */
    method Replay(cursor: Option<Cursor>) returns (answer: Answer<E>)
      requires Valid()
      ensures answer == ReplayFrom(Buffer(log), epoch, cursor)
      ensures Answered(log, epoch, cursor, answer)
    {
      hide Buffer, Answered, Ascending;
      var current := if frames == [] then 0 else frames[|frames| - 1].sequence;
      var truncated := false;
      if cursor.Some? {
        var c := cursor.value;
        truncated := c.epoch != epoch || c.sequence > current
          || (c.sequence < current && (frames == [] || c.sequence < frames[0].sequence - 1));
      }
      var replayed := if cursor.Some? && !truncated then After(frames, cursor.value.sequence) else [];
      answer := Answer(current, truncated, replayed);
      ReplayAnswers(log, epoch, cursor);
    }
  }

  // ---------------------------------------------------------------- the log behind the buffer

  lemma {:induction false} BytesPush<E>(frames: seq<Frame<E>>, f: Frame<E>)
    ensures Bytes(frames + [f]) == Bytes(frames) + f.bytes
    decreases |frames|
  {
    if frames == [] {
      assert ([] + [f])[1..] == [];
    } else {
      assert (frames + [f])[1..] == frames[1..] + [f];
      BytesPush(frames[1..], f);
    }
  }

  /** Events of the whole workspace: which slot, what, how big. */
  datatype Observed<E> = Observed(slot: nat, event: E, bytes: nat)

  /** Everything a slot has ever seen, numbered by the shared counter. */
  function Log<E>(events: seq<Observed<E>>, slot: nat): seq<Frame<E>> {
    if events == [] then [] else
    var e := events[|events| - 1];
    Log(events[..|events| - 1], slot)
    + (if e.slot == slot then [Frame(|events|, e.event, e.bytes)] else [])
  }

  /** What the slot still holds of its log. */
  function Buffer<E>(log: seq<Frame<E>>): seq<Frame<E>> {
    if log == [] then [] else Evict(Buffer(log[..|log| - 1]) + [log[|log| - 1]])
  }

  lemma BufferPush<E>(log: seq<Frame<E>>, f: Frame<E>)
    ensures Buffer(log + [f]) == Evict(Buffer(log) + [f])
  {
    assert (log + [f])[..|log|] == log;
  }

  ghost predicate Ascending<E>(log: seq<Frame<E>>) {
    (forall i :: 0 <= i < |log| ==> log[i].sequence >= 1) &&
    forall i, j :: 0 <= i < j < |log| ==> log[i].sequence < log[j].sequence
  }

  lemma {:induction false} LogAscends<E>(events: seq<Observed<E>>, slot: nat)
    ensures Ascending(Log(events, slot))
    ensures forall f :: f in Log(events, slot) ==> f.sequence <= |events|
    decreases |events|
  {
    if events != [] {
      LogAscends(events[..|events| - 1], slot);
      var front := Log(events[..|events| - 1], slot);
      forall i | 0 <= i < |front| ensures front[i].sequence < |events| { assert front[i] in front; }
    }
  }

  /** Where the retained part of the log starts: it has at most 1024 frames and a megabyte, and
      with one frame more it would not. */
  ghost predicate StartsAt<E>(log: seq<Frame<E>>, k: nat) {
    && k <= |log| && Buffer(log) == log[k..] && |log| - k <= 1024 && Bytes(log[k..]) <= 1_048_576
    && forall j :: 0 <= j < k ==> |log| - j > 1024 || Bytes(log[j..]) > 1_048_576
  }

  lemma {:induction false} EvictTo<E>(frames: seq<Frame<E>>) returns (k: nat)
    ensures k <= |frames| && Evict(frames) == frames[k..] && Fits(frames[k..])
    ensures forall j :: 0 <= j < k ==> !Fits(frames[j..])
    decreases |frames|
  {
    if frames == [] || Fits(frames) {
      k := 0;
      assert frames[0..] == frames;
    } else {
      var m := EvictTo(frames[1..]);
      k := m + 1;
      assert frames[1..][m..] == frames[k..];
      forall j | 0 <= j < k ensures !Fits(frames[j..]) {
        if j == 0 { assert frames[0..] == frames; } else { assert frames[j..] == frames[1..][j - 1..]; }
      }
    }
  }

  /** The buffer is the longest suffix of the log within both limits. */
  lemma {:induction false} LongestSuffix<E>(log: seq<Frame<E>>) returns (k: nat)
    ensures StartsAt(log, k)
    decreases |log|
  {
    hide Evict;
    if log == [] {
      k := 0;
      assert log[0..] == [];
    } else {
      var n := |log| - 1;
      var front, f := log[..n], log[n];
      var m := LongestSuffix(front);
      assert front[m..] + [f] == log[m..];
      var d := EvictTo(log[m..]);
      k := m + d;
      assert log[m..][d..] == log[k..];
      forall j | 0 <= j < k ensures !Fits(log[j..]) {
        if j < m {
          assert log[j..] == front[j..] + [f];
          assert !Fits(front[j..]);
          BytesPush(front[j..], f);
        } else {
          assert log[j..] == log[m..][j - m..];
        }
      }
    }
  }

  /** Nothing retained means nothing seen, or a last frame too big for the buffer. */
  lemma EmptyBuffer<E>(log: seq<Frame<E>>)
    ensures Buffer(log) == [] <==> log == [] || log[|log| - 1].bytes > 1_048_576
  {
    var k := LongestSuffix(log);
    if log != [] {
      var n := |log| - 1;
      assert log[n..] == [log[n]] && log[n..][1..] == [];
      assert Bytes(log[n..]) == log[n].bytes;
      forall j: nat | j <= n ensures log[n].bytes <= Bytes(log[j..]) {
        BytesTail(log[j..], n - j);
        assert log[j..][n - j..] == log[n..];
      }
    }
  }

  lemma {:induction false} BytesTail<E>(frames: seq<Frame<E>>, j: nat)
    requires j <= |frames|
    ensures Bytes(frames[j..]) <= Bytes(frames)
    decreases j
  {
    if j == 0 {
      assert frames[0..] == frames;
    } else {
      BytesTail(frames[1..], j - 1);
      assert frames[1..][j - 1..] == frames[j..];
    }
  }

  /** Frames at or before the cursor add nothing. */
  lemma {:induction false} AfterSkips<E>(log: seq<Frame<E>>, k: nat, c: int)
    requires k <= |log| && forall i :: 0 <= i < k ==> log[i].sequence <= c
    ensures After(log, c) == After(log[k..], c)
    decreases k
  {
    if k == 0 {
      assert log[0..] == log;
    } else {
      AfterSkips(log[1..], k - 1, c);
      assert log[1..][k - 1..] == log[k..];
      assert [] + After(log[1..], c) == After(log[1..], c);
    }
  }

  /** Replay is complete for this log: an answer that is not truncated has exactly the events
      after the cursor that the slot ever observed, in order. */
  ghost predicate Complete<E>(log: seq<Frame<E>>, epoch: string) {
    forall c: nat :: !ReplayFrom(Buffer(log), epoch, Some(Cursor(epoch, c))).truncated
      ==> ReplayFrom(Buffer(log), epoch, Some(Cursor(epoch, c))).frames == After(log, c)
  }

  lemma CompleteAt<E>(log: seq<Frame<E>>, epoch: string, c: nat)
    requires Ascending(log) && (log == [] || log[|log| - 1].bytes <= 1_048_576)
    requires !ReplayFrom(Buffer(log), epoch, Some(Cursor(epoch, c))).truncated
    ensures ReplayFrom(Buffer(log), epoch, Some(Cursor(epoch, c))).frames == After(log, c)
  {
    EmptyBuffer(log);
    var k := LongestSuffix(log);
    if log != [] {
      var frames := log[k..];
      assert frames[|frames| - 1] == log[|log| - 1] && frames[0] == log[k];
      AfterSkips(log, k, c);
    }
  }

  /** What a cursor gets, told from everything the slot ever saw. The ready frame has the last
      number. A cursor of this epoch, from one below the first retained number up to the last,
      gets exactly the later frames; all others are truncated. With nothing retained only
      cursor 0 is not. */
  ghost predicate Answered<E>(log: seq<Frame<E>>, epoch: string, cursor: Option<Cursor>, answer: Answer<E>) {
    var kept, n := Buffer(log), |log|;
    && (cursor.None? ==> !answer.truncated && answer.frames == [])
    && (answer.truncated ==> answer.frames == [])
    && (kept != [] ==>
          && |kept| <= n && log[n - |kept|..] == kept && answer.current == log[n - 1].sequence
          && (cursor.Some? ==>
                && (answer.truncated <==>
                      || cursor.value.epoch != epoch
                      || !(kept[0].sequence - 1 <= cursor.value.sequence <= log[n - 1].sequence))
                && (!answer.truncated ==> answer.frames == After(log, cursor.value.sequence))))
    && (kept == [] ==>
          && answer.current == 0 && answer.frames == []
          && (cursor.Some? ==> (answer.truncated <==> cursor.value.epoch != epoch || cursor.value.sequence > 0)))
  }

  lemma ReplayAnswers<E>(log: seq<Frame<E>>, epoch: string, cursor: Option<Cursor>)
    requires Ascending(log)
    ensures Answered(log, epoch, cursor, ReplayFrom(Buffer(log), epoch, cursor))
  {
    hide Buffer, Fits, After;
    var k := LongestSuffix(log);
    var kept := Buffer(log);
    if kept != [] {
      assert kept == log[k..] && |kept| == |log| - k;
      assert kept[|kept| - 1] == log[|log| - 1] && kept[0] == log[k];
      if cursor.Some? && kept[0].sequence - 1 <= cursor.value.sequence {
        AfterSkips(log, k, cursor.value.sequence);
      }
    } else {
      NoneAfter(cursor, kept);
    }
  }

  lemma NoneAfter<E>(cursor: Option<Cursor>, kept: seq<Frame<E>>)
    requires kept == []
    ensures cursor.Some? ==> After(kept, cursor.value.sequence) == []
  {
  }

  /** So the cursor a client holds works: the number of any retained frame is answered with
      exactly the later ones, and a cursor before an evicted frame never is. */
  lemma RetainedCursor<E>(log: seq<Frame<E>>, epoch: string, i: nat)
    requires Ascending(log) && i < |log|
    ensures var a := ReplayFrom(Buffer(log), epoch, Some(Cursor(epoch, log[i].sequence)));
            if log[i] in Buffer(log) then !a.truncated && a.frames == log[i + 1..]
            else forall c: nat :: c < log[i].sequence && Buffer(log) != [] ==>
                   ReplayFrom(Buffer(log), epoch, Some(Cursor(epoch, c))).truncated
  {
    hide Buffer, Fits, After, ReplayFrom;
    var k := LongestSuffix(log);
    var kept := Buffer(log);
    if log[i] in kept {
      var m :| 0 <= m < |kept| && kept[m] == log[i];
      assert kept[m] == log[k + m];
      ReplayAnswers(log, epoch, Some(Cursor(epoch, log[i].sequence)));
      assert kept[0] == log[k];
      AfterIs(log, i);
    } else if kept != [] {
      assert i < k by {
        assert forall j :: k <= j < |log| ==> kept[j - k] == log[j];
      }
      forall c: nat | c < log[i].sequence ensures ReplayFrom(kept, epoch, Some(Cursor(epoch, c))).truncated {
        ReplayAnswers(log, epoch, Some(Cursor(epoch, c)));
        assert kept[0] == log[k];
      }
    }
  }

  lemma AfterIs<E>(log: seq<Frame<E>>, i: nat)
    requires Ascending(log) && i < |log|
    ensures After(log, log[i].sequence) == log[i + 1..]
  {
    AfterSkips(log, i + 1, log[i].sequence);
    AllAfter(log[i + 1..], log[i].sequence);
  }

  lemma {:induction false} AllAfter<E>(frames: seq<Frame<E>>, c: int)
    requires forall k :: 0 <= k < |frames| ==> frames[k].sequence > c
    ensures After(frames, c) == frames
    decreases |frames|
  {
    if frames != [] {
      AllAfter(frames[1..], c);
      assert [frames[0]] + frames[1..] == frames;
    }
  }

  /** Whatever was evicted, by count or by bytes, and however the numbers are shared: replay
      is complete if and only if the last frame alone fits the byte limit. */
  lemma ReplayComplete<E>(events: seq<Observed<E>>, slot: nat, epoch: string)
    ensures var log := Log(events, slot);
            Complete(log, epoch) <==> log == [] || log[|log| - 1].bytes <= 1_048_576
  {
    var log := Log(events, slot);
    LogAscends(events, slot);
    if log == [] || log[|log| - 1].bytes <= 1_048_576 {
      forall c: nat | !ReplayFrom(Buffer(log), epoch, Some(Cursor(epoch, c))).truncated
        ensures ReplayFrom(Buffer(log), epoch, Some(Cursor(epoch, c))).frames == After(log, c)
      {
        CompleteAt(log, epoch, c);
      }
    } else {
      EmptyBuffer(log);
      var answer := ReplayFrom(Buffer(log), epoch, Some(Cursor(epoch, 0)));
      assert answer.frames == [] && !answer.truncated;
      assert log[0].sequence > 0;
    }
  }

  /** The first events in a slot: the class holds the buffer of its log. */
  lemma ConsumeExtends<E>(events: seq<Observed<E>>, e: Observed<E>)
    ensures Buffer(Log(events + [e], e.slot))
        == Evict(Buffer(Log(events, e.slot)) + [Frame(|events| + 1, e.event, e.bytes)])
    ensures forall slot :: slot != e.slot ==> Log(events + [e], slot) == Log(events, slot)
  {
    assert (events + [e])[..|events|] == events;
    BufferPush(Log(events, e.slot), Frame(|events| + 1, e.event, e.bytes));
  }
}
