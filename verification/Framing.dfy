/**
  Newline-delimited JSON with a hard limit on every frame. Decoding text to a message is a
  partial function given from outside; so is encoding, of which only what section 7 of
  RFC 8259 gives is used: the text has no raw newline.
  */
module Framing {
  import opened Options

  type Byte = b: int | 0 <= b < 256

  const NEWLINE: Byte := 10

  datatype End = Closed | Oversized | Malformed

  /** What reaches the consumer, and how the stream ends. */
  datatype Reading<M> = Reading(frames: seq<M>, end: End)

  type Parser<!M> = seq<Byte> -> Option<M>

  // ---------------------------------------------------------------- the whole stream

  function Flatten(chunks: seq<seq<Byte>>): seq<Byte> {
    if chunks == [] then [] else chunks[0] + Flatten(chunks[1..])
  }

  /** Position of the first newline, or the length. */
  function NewlineAt(s: seq<Byte>): (i: nat)
    ensures i <= |s| && (i < |s| ==> s[i] == NEWLINE) && NEWLINE !in s[..i]
    ensures i < |s| <==> NEWLINE in s
  {
    if s == [] then 0 else if s[0] == NEWLINE then 0 else
    var i := NewlineAt(s[1..]);
    assert s == [s[0]] + s[1..] && s[..1 + i] == [s[0]] + s[1..][..i];
    1 + i
  }

  /** The stream cut at every newline; what follows the last one is a piece too. */
  function Lines(s: seq<Byte>): (lines: seq<seq<Byte>>)
    ensures |lines| >= 1
  {
    if s == [] then [[]] else
    var rest := Lines(s[1..]);
    if s[0] == NEWLINE then [[]] + rest else [[s[0]] + rest[0]] + rest[1..]
  }

  /** Drop empty lines; stop at the first one that is too long or does not parse. */
  function Decode<M>(lines: seq<seq<Byte>>, max: nat, parse: Parser<M>): Reading<M> {
    if lines == [] then Reading([], Closed)
    else if |lines[0]| > max then Reading([], Oversized)
    else if lines[0] == [] then Decode(lines[1..], max, parse)
    else
      var m := parse(lines[0]);
      if m.None? then Reading([], Malformed) else
      var rest := Decode(lines[1..], max, parse);
      Reading([m.value] + rest.frames, rest.end)
  }

  function ReadStream<M>(s: seq<Byte>, max: nat, parse: Parser<M>): Reading<M> {
    Decode(Lines(s), max, parse)
  }

  lemma {:induction false} LinesAtNewline(line: seq<Byte>, rest: seq<Byte>)
    requires NEWLINE !in line
    ensures Lines(line + [NEWLINE] + rest) == [line] + Lines(rest)
    decreases |line|
  {
    var s := line + [NEWLINE] + rest;
    if line == [] {
      assert s[1..] == rest;
    } else {
      assert s[0] == line[0] && line[0] in line;
      assert s[1..] == line[1..] + [NEWLINE] + rest;
      LinesAtNewline(line[1..], rest);
      assert [line[0]] + line[1..] == line;
    }
  }

  /** What has no newline yet begins the first line. */
  lemma {:induction false} FirstLine(head: seq<Byte>, rest: seq<Byte>)
    requires NEWLINE !in head
    ensures head <= Lines(head + rest)[0] && (rest == [] ==> Lines(head) == [head])
    decreases |head|
  {
    if head != [] {
      var s := head + rest;
      assert s[0] == head[0] && head[0] in head && s[1..] == head[1..] + rest;
      FirstLine(head[1..], rest);
      assert [head[0]] + head[1..] == head;
    }
  }

  function Filled(lines: seq<seq<Byte>>): seq<seq<Byte>> {
    if lines == [] then [] else (if lines[0] == [] then [] else [lines[0]]) + Filled(lines[1..])
  }

  /** Reading gets to the first line that is too long or does not parse, or to the end; the
      frames are the nonempty lines before it, parsed, in order. */
  lemma {:induction false} DecodeIs<M>(lines: seq<seq<Byte>>, max: nat, parse: Parser<M>) returns (k: nat)
    ensures k <= |lines|
    ensures forall i :: 0 <= i < k ==> |lines[i]| <= max && (lines[i] == [] || parse(lines[i]).Some?)
    ensures var r := Decode(lines, max, parse);
            && |r.frames| == |Filled(lines[..k])|
            && (forall i :: 0 <= i < |r.frames| ==> parse(Filled(lines[..k])[i]) == Some(r.frames[i]))
            && (r.end == Closed <==> k == |lines|)
            && (r.end == Oversized <==> k < |lines| && |lines[k]| > max)
            && (r.end == Malformed <==> k < |lines| && |lines[k]| <= max && lines[k] != [] && parse(lines[k]).None?)
    decreases |lines|
  {
    hide Filled;
    k := 0;
    NoneFilled(lines);
    if lines != [] {
      hide Decode;
      assert lines == [lines[0]] + lines[1..];
      DecodeNext(lines[0], lines[1..], max, parse);
      if |lines[0]| <= max && (lines[0] == [] || parse(lines[0]).Some?) {
        var m := DecodeIs(lines[1..], max, parse);
        k := m + 1;
        FilledFirst(lines, k);
      }
    }
  }

  lemma NoneFilled(lines: seq<seq<Byte>>)
    ensures Filled(lines[..0]) == []
  {
  }

  lemma FilledFirst(lines: seq<seq<Byte>>, k: nat)
    requires 0 < k <= |lines|
    ensures Filled(lines[..k]) == (if lines[0] == [] then [] else [lines[0]]) + Filled(lines[1..][..k - 1])
    ensures forall i :: 0 < i < |lines| ==> lines[i] == lines[1..][i - 1]
  {
    assert lines[..k][1..] == lines[1..][..k - 1];
  }

  // ---------------------------------------------------------------- the reader

  /** Frames already handed on, then what the rest of the stream yields. */
  function Continue<M>(frames: seq<M>, rest: Reading<M>): Reading<M> {
    Reading(frames + rest.frames, rest.end)
  }

  /** `start` of the readable side: one growing buffer, cut at newlines after every chunk. */
  method ReadChunks<M>(chunks: seq<seq<Byte>>, max: nat, parse: Parser<M>) returns (r: Reading<M>)
    ensures r == ReadStream(Flatten(chunks), max, parse)
  {
    var frames: seq<M> := [];
    var buffered: seq<Byte> := [];
    assert chunks[0..] == chunks && [] + Flatten(chunks) == Flatten(chunks);
    assert forall fs: seq<M> :: [] + fs == fs;
    for i := 0 to |chunks|
      invariant ReadStream(Flatten(chunks), max, parse)
             == Continue(frames, ReadStream(buffered + Flatten(chunks[i..]), max, parse))
      invariant NEWLINE !in buffered && |buffered| <= max
    {
      ghost var later := Flatten(chunks[i + 1..]);
      assert chunks[i..][0] == chunks[i] && chunks[i..][1..] == chunks[i + 1..];
      assert buffered + (chunks[i] + later) == (buffered + chunks[i]) + later;
      buffered := buffered + chunks[i];
      var fault: End;
      frames, buffered, fault := CutLines(frames, buffered, max, parse, later);
      if fault != Closed {
        return Reading(frames, fault);
      }
      if |buffered| > max {
        FirstLine(buffered, later);
        return Reading(frames, Oversized);
      }
    }
    FirstLine(buffered, []);
    assert buffered + Flatten(chunks[|chunks|..]) == buffered;
    EmptyStream(max, parse);
    assert frames + [] == frames;
    if buffered != [] {
      LastLine(buffered, max, parse);
      var m := parse(buffered);
      if m.None? {
        return Reading(frames, Malformed);
      }
      frames := frames + [m.value];
    }
    r := Reading(frames, Closed);
  }

  lemma EmptyStream<M>(max: nat, parse: Parser<M>)
    ensures ReadStream([], max, parse) == Reading([], Closed)
  {
    var blank: seq<seq<Byte>> := [[]];
    assert Lines([]) == blank;
    assert |blank[0]| == 0 && blank[1..] == [];
    assert Decode(blank, max, parse) == Decode(blank[1..], max, parse);
  }

  lemma LastLine<M>(line: seq<Byte>, max: nat, parse: Parser<M>)
    requires line != [] && |line| <= max
    ensures Decode([line], max, parse)
         == if parse(line).None? then Reading([], Malformed) else Reading([parse(line).value], Closed)
  {
    assert [line][1..] == [];
  }

  /** The inner loop: hand on every complete line of the buffer. `Closed` means no fault. */
  method CutLines<M>(frames: seq<M>, input: seq<Byte>, max: nat, parse: Parser<M>, ghost later: seq<Byte>)
    returns (all: seq<M>, buffered: seq<Byte>, fault: End)
    ensures fault != Closed ==>
      Continue(frames, ReadStream(input + later, max, parse)) == Reading(all, fault)
    ensures fault == Closed ==> NEWLINE !in buffered
    ensures fault == Closed ==>
      Continue(frames, ReadStream(input + later, max, parse)) == Continue(all, ReadStream(buffered + later, max, parse))
  {
    hide Lines, Decode;
    all, buffered, fault := frames, input, Closed;
    while true
      invariant Continue(frames, ReadStream(input + later, max, parse))
          == Continue(all, ReadStream(buffered + later, max, parse))
      invariant fault == Closed
      decreases |buffered|
    {
      var newline := NewlineAt(buffered);
      if newline == |buffered| {
        return;
      }
      var line, rest := buffered[..newline], buffered[newline + 1..];
      assert buffered + later == line + [NEWLINE] + (rest + later);
      LinesAtNewline(line, rest + later);
      DecodeNext(line, Lines(rest + later), max, parse);
      buffered := rest;
      if |line| > max {
        fault := Oversized;
        return;
      }
      if line == [] {
        continue;
      }
      var m := parse(line);
      if m.None? {
        fault := Malformed;
        return;
      }
      Regroup(all, m.value, ReadStream(rest + later, max, parse));
      all := all + [m.value];
    }
  }

  lemma Regroup<M>(frames: seq<M>, m: M, rest: Reading<M>)
    ensures Continue(frames, Reading([m] + rest.frames, rest.end)) == Continue(frames + [m], rest)
  {
    assert frames + ([m] + rest.frames) == (frames + [m]) + rest.frames;
  }

  lemma DecodeNext<M>(line: seq<Byte>, rest: seq<seq<Byte>>, max: nat, parse: Parser<M>)
    ensures Decode([line] + rest, max, parse) ==
      if |line| > max then Reading([], Oversized)
      else if line == [] then Decode(rest, max, parse)
      else if parse(line).None? then Reading([], Malformed)
      else Reading([parse(line).value] + Decode(rest, max, parse).frames, Decode(rest, max, parse).end)
  {
    assert ([line] + rest)[1..] == rest;
  }

  // ---------------------------------------------------------------- the writer

  type Encoder<!M> = M -> seq<Byte>

  /** The text of a message is one nonempty line and parses back to it. */
  ghost predicate Faithful<M(!new)>(encode: Encoder<M>, parse: Parser<M>) {
    forall m: M :: NEWLINE !in encode(m) && encode(m) != [] && parse(encode(m)) == Some(m)
  }

  function Written<M>(messages: seq<M>, encode: Encoder<M>): seq<Byte> {
    if messages == [] then [] else encode(messages[0]) + [NEWLINE] + Written(messages[1..], encode)
  }

  /** The longest run of messages the writer takes before one exceeds the limit. */
  function Accepted<M>(messages: seq<M>, max: nat, encode: Encoder<M>): seq<M> {
    if messages == [] || |encode(messages[0])| > max then [] else
    [messages[0]] + Accepted(messages[1..], max, encode)
  }

  /** The writer takes exactly the messages before the first oversized one. */
  lemma {:induction false} AcceptedIs<M>(messages: seq<M>, max: nat, encode: Encoder<M>)
    ensures var k := |Accepted(messages, max, encode)|;
            && k <= |messages| && Accepted(messages, max, encode) == messages[..k]
            && (forall i :: 0 <= i < k ==> |encode(messages[i])| <= max)
            && (k < |messages| ==> |encode(messages[k])| > max)
    decreases |messages|
  {
    if messages != [] && |encode(messages[0])| <= max {
      AcceptedIs(messages[1..], max, encode);
      var k := |Accepted(messages[1..], max, encode)|;
      assert messages[..k + 1] == [messages[0]] + messages[1..][..k];
      assert forall i :: 0 < i < |messages| ==> messages[i] == messages[1..][i - 1];
    }
  }

  /** On the wire each message is one line, with nothing between them. */
  lemma {:induction false} WrittenLines<M>(messages: seq<M>, encode: Encoder<M>)
    requires forall m :: m in messages ==> NEWLINE !in encode(m)
    ensures var lines := Lines(Written(messages, encode));
            && |lines| == |messages| + 1 && lines[|messages|] == []
            && forall i :: 0 <= i < |messages| ==> lines[i] == encode(messages[i])
    decreases |messages|
  {
    if messages != [] {
      WrittenLines(messages[1..], encode);
      LinesAtNewline(encode(messages[0]), Written(messages[1..], encode));
      assert forall i :: 0 < i < |messages| ==> messages[i] == messages[1..][i - 1];
    }
  }

  /** Write one after another; the first oversized message throws, and the stream with it. */
  method WriteMessages<M>(messages: seq<M>, max: nat, encode: Encoder<M>) returns (output: seq<Byte>, failed: bool)
    ensures output == Written(Accepted(messages, max, encode), encode)
    ensures failed <==> |Accepted(messages, max, encode)| < |messages|
  {
    output, failed := [], false;
    var i := 0;
    while i < |messages|
      invariant 0 <= i <= |messages|
      invariant Accepted(messages, max, encode) == messages[..i] + Accepted(messages[i..], max, encode)
      invariant output == Written(messages[..i], encode)
    {
      var encoded := encode(messages[i]) + [NEWLINE];
      if |encoded| - 1 > max {
        assert Accepted(messages[i..], max, encode) == [];
        assert messages[..i] + [] == messages[..i];
        failed := true;
        return;
      }
      assert messages[i..][1..] == messages[i + 1..];
      assert messages[..i + 1] == messages[..i] + [messages[i]];
      WrittenPush(messages[..i], messages[i], encode);
      output := output + encoded;
      i := i + 1;
    }
    assert messages[..|messages|] == messages && messages[|messages|..] == [];
    assert messages + [] == messages;
  }

  lemma {:induction false} WrittenPush<M>(ms: seq<M>, m: M, encode: Encoder<M>)
    ensures Written(ms + [m], encode) == Written(ms, encode) + (encode(m) + [NEWLINE])
    decreases |ms|
  {
    if ms == [] {
      assert ([] + [m])[1..] == [];
    } else {
      assert (ms + [m])[1..] == ms[1..] + [m];
      WrittenPush(ms[1..], m, encode);
    }
  }

  /** Whatever the writer accepts is read back unchanged under the same limit, however the
      bytes are cut on the way. */
  lemma {:induction false} RoundTrip<M(!new)>(
    messages: seq<M>, max: nat, encode: Encoder<M>, parse: Parser<M>, chunks: seq<seq<Byte>>)
    requires Faithful(encode, parse)
    requires Flatten(chunks) == Written(Accepted(messages, max, encode), encode)
    ensures ReadStream(Flatten(chunks), max, parse) == Reading(Accepted(messages, max, encode), Closed)
    decreases |messages|
  {
    AcceptedIs(messages, max, encode);
    WrittenReads(Accepted(messages, max, encode), max, encode, parse);
  }

  lemma {:induction false} WrittenReads<M(!new)>(messages: seq<M>, max: nat, encode: Encoder<M>, parse: Parser<M>)
    requires Faithful(encode, parse) && forall m :: m in messages ==> |encode(m)| <= max
    ensures ReadStream(Written(messages, encode), max, parse) == Reading(messages, Closed)
    decreases |messages|
  {
    if messages == [] {
      EmptyStream(max, parse);
    } else {
      var m, rest := messages[0], messages[1..];
      WrittenReads(rest, max, encode, parse);
      LinesAtNewline(encode(m), Written(rest, encode));
      DecodeNext(encode(m), Lines(Written(rest, encode)), max, parse);
      assert [m] + rest == messages;
    }
  }

  /** Cutting the same bytes differently makes no difference. */
  lemma {:induction false} FlattenCut(chunks: seq<seq<Byte>>, i: nat, j: nat)
    requires i < |chunks| && j <= |chunks[i]|
    ensures Flatten(chunks[..i] + [chunks[i][..j], chunks[i][j..]] + chunks[i + 1..]) == Flatten(chunks)
    decreases i
  {
    var cut := chunks[..i] + [chunks[i][..j], chunks[i][j..]] + chunks[i + 1..];
    if i == 0 {
      assert cut[1..] == [chunks[0][j..]] + chunks[1..];
      assert cut[1..][1..] == chunks[1..];
      assert chunks[0][..j] + (chunks[0][j..] + Flatten(chunks[1..])) == chunks[0] + Flatten(chunks[1..]);
    } else {
      assert cut[1..] == chunks[1..][..i - 1] + [chunks[1..][i - 1][..j], chunks[1..][i - 1][j..]] + chunks[1..][i..];
      FlattenCut(chunks[1..], i - 1, j);
    }
  }
}
