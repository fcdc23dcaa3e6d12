/**
  Transcript compaction. Text is a sequence of UTF-16 code units, as the source counts it;
  JSON encoding, the tool-call index and the summarizer are parameters.
  */
module Compaction {
  import opened Options
  import Text

  type Unit = Text.Unit

  datatype Part =
    | TextPart(text: seq<Unit>)
    | CallPart(id: nat, input: seq<Unit>)
    | ResultPart(id: nat, output: seq<Unit>)
    | BinaryPart

  datatype Content = Plain(text: seq<Unit>) | Parts(parts: seq<Part>) | Malformed

  datatype Role = System | User | Assistant | Tool

  datatype Message = Message(role: Role, content: Content)

  /** `JSON.stringify`. */
  datatype Json = Json(part: Part -> seq<Unit>, message: Message -> seq<Unit>)

  // ---------------------------------------------------------------- the estimate

  const BINARY_PART_CHARS := 1_500

  predicate IsHigh(u: Unit) { 0xD800 <= u <= 0xDBFF }

  predicate IsLow(u: Unit) { 0xDC00 <= u <= 0xDFFF }

  /** `codePointAt`. */
  function CodePointAt(text: seq<Unit>, i: nat): nat
    requires i < |text|
  {
    if IsHigh(text[i]) && i + 1 < |text| && IsLow(text[i + 1]) then
      0x1_0000 + (text[i] as int - 0xD800) * 0x400 + (text[i + 1] as int - 0xDC00)
    else text[i] as nat
  }

  predicate IsCJK(cp: nat) {
    || 0x3000 <= cp <= 0x30FF || 0x3400 <= cp <= 0x4DBF || 0x4E00 <= cp <= 0x9FFF
    || 0xAC00 <= cp <= 0xD7AF || 0xF900 <= cp <= 0xFAFF || 0xFF00 <= cp <= 0xFFEF || 0x2_0000 <= cp <= 0x2_FFFF
  }

  /** The code points of a text; a surrogate without its partner is one by itself. */
  function CodePoints(text: seq<Unit>): seq<nat>
    decreases |text|
  {
    if text == [] then [] else
    var cp := CodePointAt(text, 0);
    [cp] + CodePoints(text[if cp > 0xFFFF then 2 else 1..])
  }

  function CountOf(cps: seq<nat>): (n: nat)
    ensures n <= |cps|
  {
    if cps == [] then 0 else (if IsCJK(cps[0]) then 1 else 0) + CountOf(cps[1..])
  }

  /** The loop steps over a pair only when it is CJK; otherwise it meets the second half
      again, which is in no CJK range. */
  method CountCJK(text: seq<Unit>) returns (count: nat)
    ensures count == CountOf(CodePoints(text))
  {
    count := 0;
    var i := 0;
    ghost var half := false;
    assert text[0..] == text;
    while i < |text|
      invariant i <= |text|
      invariant half ==> i < |text| && IsLow(text[i])
      invariant CountOf(CodePoints(text)) == count + CountOf(CodePoints(text[if half then i + 1 else i..]))
      decreases |text| - i
    {
      var cp := CodePointAt(text, i);
      ghost var rest := text[i..];
      if !half { UnfoldCount(text, i); }
      if IsCJK(cp) {
        count := count + 1;
        if cp > 0xFFFF {
          i := i + 1;
        }
        half := false;
      } else {
        half := !half && cp > 0xFFFF;
      }
      i := i + 1;
    }
  }

  lemma UnfoldCount(text: seq<Unit>, i: nat)
    requires i < |text|
    ensures var cp := CodePointAt(text, i);
            var next := if cp > 0xFFFF then i + 2 else i + 1;
            next <= |text| && CountOf(CodePoints(text[i..]))
                == (if IsCJK(cp) then 1 else 0) + CountOf(CodePoints(text[next..]))
  {
    hide IsCJK;
    var rest, cp := text[i..], CodePointAt(text, i);
    var n := if cp > 0xFFFF then 2 else 1;
    assert CodePointAt(rest, 0) == cp;
    assert rest[n..] == text[i + n..];
    assert CodePoints(rest) == [cp] + CodePoints(rest[n..]);
  }

  lemma {:induction false} CountFits(text: seq<Unit>)
    ensures |CodePoints(text)| <= |text|
    decreases |text|
  {
    if text != [] {
      CountFits(text[if CodePointAt(text, 0) > 0xFFFF then 2 else 1..]);
    }
  }

  /** Characters charged for a part or message, and how many of them are CJK. */
  datatype Charge = Charge(chars: nat, cjk: nat)

  function Plus(a: Charge, b: Charge): Charge {
    Charge(a.chars + b.chars, a.cjk + b.cjk)
  }

  function OfText(text: seq<Unit>, overhead: nat): Charge {
    Charge(|text| + overhead, CountOf(CodePoints(text)))
  }

  function OfParts(parts: seq<Part>, json: Json): Charge {
    if parts == [] then Charge(16, 0) else
    var last := parts[|parts| - 1];
    Plus(OfParts(parts[..|parts| - 1], json),
         if last.BinaryPart? then Charge(BINARY_PART_CHARS, 0) else OfText(json.part(last), 0))
  }

  function OfMessage(m: Message, json: Json): Charge {
    match m.content
    case Plain(text) => OfText(text, 16)
    case Parts(parts) => OfParts(parts, json)
    case Malformed => OfText(json.message(m), 0)
  }

  function OfMessages(ms: seq<Message>, json: Json): Charge {
    if ms == [] then Charge(0, 0) else Plus(OfMessages(ms[..|ms| - 1], json), OfMessage(ms[|ms| - 1], json))
  }

  /** A CJK character costs a token, four others cost one, rounded up. */
  function Tokens(c: Charge): nat
    requires c.cjk <= c.chars
  {
    c.cjk + (c.chars - c.cjk + 3) / 4
  }

  lemma {:induction false} PartsFit(parts: seq<Part>, json: Json)
    ensures OfParts(parts, json).cjk <= OfParts(parts, json).chars
    decreases |parts|
  {
    if parts != [] {
      PartsFit(parts[..|parts| - 1], json);
      var last := parts[|parts| - 1];
      if !last.BinaryPart? { CountFits(json.part(last)); }
    }
  }

  lemma MessageFits(m: Message, json: Json)
    ensures OfMessage(m, json).cjk <= OfMessage(m, json).chars
  {
    match m.content
    case Plain(text) => CountFits(text);
    case Parts(parts) => PartsFit(parts, json);
    case Malformed => CountFits(json.message(m));
  }

  lemma {:induction false} MessagesFit(ms: seq<Message>, json: Json)
    ensures OfMessages(ms, json).cjk <= OfMessages(ms, json).chars
    decreases |ms|
  {
    if ms != [] {
      MessagesFit(ms[..|ms| - 1], json);
      MessageFits(ms[|ms| - 1], json);
    }
  }

  function Estimate(ms: seq<Message>, json: Json): nat {
    MessagesFit(ms, json);
    Tokens(OfMessages(ms, json))
  }

  /** What a message is charged: text without CJK a token for every four characters, rounded
      up, CJK text a token each, and a binary part the same whatever it holds. */
  lemma EstimateOfOne(role: Role, text: seq<Unit>, json: Json)
    ensures var t, plain := Estimate([Message(role, Plain(text))], json), |text| + 16 - CountOf(CodePoints(text));
            4 * (t - CountOf(CodePoints(text)) - 1) < plain <= 4 * (t - CountOf(CodePoints(text)))
    ensures Estimate([Message(role, Parts([BinaryPart]))], json) == 379
  {
    hide CodePoints, CountOf, Estimate, OfParts;
    CountFits(text);
    EstimateIs(Message(role, Plain(text)), json);
    EstimateIs(Message(role, Parts([BinaryPart])), json);
    BinaryCharge(json);
  }

  lemma EstimateIs(m: Message, json: Json)
    ensures OfMessage(m, json).cjk <= OfMessage(m, json).chars
    ensures Estimate([m], json) == Tokens(OfMessage(m, json))
  {
    hide OfMessage;
    MessageFits(m, json);
    OneMessage(m, json);
  }

  lemma BinaryCharge(json: Json)
    ensures OfParts([BinaryPart], json) == Charge(1516, 0)
  {
    assert [BinaryPart][..0] == [];
    assert OfParts([], json) == Charge(16, 0);
  }

  lemma OneMessage(m: Message, json: Json)
    ensures OfMessages([m], json) == OfMessage(m, json)
  {
    assert [m][..0] == [] && OfMessages([], json) == Charge(0, 0);
  }

  /** Estimates add up: a longer transcript never costs less. */
  lemma EstimateGrows(ms: seq<Message>, m: Message, json: Json)
    ensures Estimate(ms, json) <= Estimate(ms + [m], json) <= Estimate(ms, json) + Estimate([m], json)
  {
    hide OfMessage;
    assert (ms + [m])[..|ms|] == ms;
    OneMessage(m, json);
    MessagesFit(ms, json);
    MessageFits(m, json);
  }

  method EstimateTokens(ms: seq<Message>, json: Json) returns (tokens: nat)
    ensures tokens == Estimate(ms, json)
  {
    hide CodePoints;
    var chars: nat, cjk: nat := 0, 0;
    for i := 0 to |ms|
      invariant Charge(chars, cjk) == OfMessages(ms[..i], json)
    {
      assert ms[..i + 1][..i] == ms[..i];
      match ms[i].content
      case Plain(text) =>
        chars := chars + |text| + 16;
        var n := CountCJK(text);
        cjk := cjk + n;
      case Parts(parts) =>
        ghost var before := cjk;
        var partChars: nat := 16;
        for k := 0 to |parts|
          invariant cjk >= before && Charge(partChars, cjk - before) == OfParts(parts[..k], json)
        {
          assert parts[..k + 1][..k] == parts[..k];
          if parts[k].BinaryPart? {
            partChars := partChars + BINARY_PART_CHARS;
          } else {
            var text := json.part(parts[k]);
            partChars := partChars + |text|;
            var n := CountCJK(text);
            cjk := cjk + n;
          }
        }
        assert parts[..|parts|] == parts;
        chars := chars + partChars;
      case Malformed =>
        var text := json.message(ms[i]);
        chars := chars + |text|;
        var n := CountCJK(text);
        cjk := cjk + n;
    }
    assert ms[..|ms|] == ms;
    MessagesFit(ms, json);
    tokens := cjk + (chars - cjk + 3) / 4;
  }

  // ---------------------------------------------------------------- compaction

  datatype CompactOptions = CompactOptions(
    contextWindow: nat, threshold: real, keep: nat, force: bool, currentTokens: Option<int>)

  /** `summarize` may fail; `toolIndex` is the index of the tool calls of the older part. */
  datatype Helpers = Helpers(
    summarize: seq<Message> -> Option<seq<Unit>>, toolIndex: seq<Message> -> seq<Unit>, json: Json)

  datatype Outcome =
    | Untouched
    | SummaryFailed
    | Compacted(messages: seq<Message>, freed: nat, overrun: bool)

  predicate Blank(text: seq<Unit>) {
    forall i :: 0 <= i < |text| ==> !IsHigh(text[i]) && !IsLow(text[i]) && Text.IsSpace(text[i] as char)
  }

  /** Whether the prompt is below the trigger and nobody insists. */
  predicate Quiet(ms: seq<Message>, opts: CompactOptions, json: Json) {
    var known := opts.currentTokens.Some? && opts.currentTokens.value > 0;
    var trigger := if known then opts.currentTokens.value else Estimate(ms, json);
    !opts.force && trigger as real < Threshold(opts)
  }

  function Threshold(opts: CompactOptions): real {
    opts.threshold * opts.contextWindow as real
  }

  function EffectiveKeep(ms: seq<Message>, opts: CompactOptions): nat {
    if |ms| <= opts.keep then 1 else opts.keep
  }

  /** Steps back from `cut` over tool messages. */
  function Boundary(ms: seq<Message>, cut: nat): (r: nat)
    requires cut <= |ms|
    ensures r <= cut
    ensures forall k :: r < k <= cut && k < |ms| ==> ms[k].role == Tool
    ensures r > 0 ==> r == |ms| || ms[r].role != Tool
    ensures r == |ms| ==> cut == |ms|
    ensures r < cut == |ms| ==> ms == []
  {
    if cut > 0 && cut < |ms| && ms[cut].role == Tool then Boundary(ms, cut - 1) else cut
  }

  const HEADER := Text.Units("[Summary of earlier conversation]" + "\n")
  const CALLS := Text.Units(
    "\n\n" + "## TOOL CALLS (already executed \U{2014} don't repeat unless the file changed)" + "\n")
  const GAP := Text.Units("\n\n")

  function Note(summary: seq<Unit>, index: seq<Unit>): seq<Unit> {
    HEADER + summary + if index == [] then [] else CALLS + index
  }

  /** The summary goes into a leading user turn, or before any other one. */
  function Fold(note: seq<Unit>, recent: seq<Message>): seq<Message> {
    if recent != [] && recent[0].role == User && recent[0].content.Plain? then
      [Message(User, Plain(note + GAP + recent[0].content.text))] + recent[1..]
    else if recent != [] && recent[0].role == User && recent[0].content.Parts? then
      [Message(User, Parts([TextPart(note)] + recent[0].content.parts))] + recent[1..]
    else [Message(User, Plain(note))] + recent
  }

  function Compact(ms: seq<Message>, opts: CompactOptions, h: Helpers): Outcome {
    if Quiet(ms, opts, h.json) then Untouched
    else if |ms| <= opts.keep && |ms| < 3 then Untouched else
    var cut := Boundary(ms, |ms| - EffectiveKeep(ms, opts));
    if cut == 0 then Untouched else Replace(ms, cut, opts, h)
  }

  /** The older part is summarized; a blank summary replaces nothing. */
  function Replace(ms: seq<Message>, cut: nat, opts: CompactOptions, h: Helpers): Outcome
    requires cut <= |ms|
  {
    var summary := h.summarize(ms[..cut]);
    if summary.None? then SummaryFailed
    else if Blank(summary.value) then Untouched else
    var next := Fold(Note(summary.value, h.toolIndex(ms[..cut])), ms[cut..]);
    var kept, now := Estimate(ms, h.json), Estimate(next, h.json);
    Compacted(next, if kept > now then kept - now else 0, |ms| <= opts.keep)
  }

  method CompactMessages(ms: seq<Message>, opts: CompactOptions, h: Helpers) returns (r: Outcome)
    ensures r == Compact(ms, opts, h)
  {
    hide Estimate, Replace, Threshold;
    var estimate := EstimateTokens(ms, h.json);
    var known := opts.currentTokens.Some? && opts.currentTokens.value > 0;
    var trigger := if known then opts.currentTokens.value else estimate;
    if !opts.force && trigger as real < Threshold(opts) {
      return Untouched;
    }
    var overrun := false;
    var effectiveKeep := opts.keep;
    if |ms| <= opts.keep {
      if |ms| < 3 {
        return Untouched;
      }
      overrun := true;
      effectiveKeep := 1;
    }
    var cut := |ms| - effectiveKeep;
    while cut > 0 && cut < |ms| && ms[cut].role == Tool
      invariant 0 <= cut <= |ms| - effectiveKeep
      invariant Boundary(ms, cut) == Boundary(ms, |ms| - effectiveKeep)
    {
      cut := cut - 1;
    }
    if cut <= 0 {
      return Untouched;
    }
    r := ReplaceOlder(ms, cut, estimate, overrun, opts, h);
  }

  method ReplaceOlder(
    ms: seq<Message>, cut: nat, estimate: nat, overrun: bool, opts: CompactOptions, h: Helpers) returns (r: Outcome)
    requires cut <= |ms| && estimate == Estimate(ms, h.json) && (overrun <==> |ms| <= opts.keep)
    ensures r == Replace(ms, cut, opts, h)
  {
    hide Estimate, Fold, Note, Blank;
    var older, recent := ms[..cut], ms[cut..];
    var summary := h.summarize(older);
    if summary.None? {
      return SummaryFailed;
    }
    if Blank(summary.value) {
      return Untouched;
    }
    var next := Fold(Note(summary.value, h.toolIndex(older)), recent);
    var now := EstimateTokens(next, h.json);
    r := Compacted(next, if estimate > now then estimate - now else 0, overrun);
  }

  // ---------------------------------------------------------------- transcripts stay valid

  predicate Calls(m: Message, id: nat) {
    m.content.Parts? &&
    exists k :: 0 <= k < |m.content.parts| && m.content.parts[k].CallPart? && m.content.parts[k].id == id
  }

  predicate Answers(m: Message, id: nat) {
    m.content.Parts? &&
    exists k :: 0 <= k < |m.content.parts| && m.content.parts[k].ResultPart? && m.content.parts[k].id == id
  }

  /** `j` is the assistant message that made the calls answered at `i`, with only tool
      messages in between. */
  ghost predicate OwnedBy(ms: seq<Message>, i: nat, j: nat) {
    && j < i < |ms| && ms[j].role == Assistant
    && (forall k :: j < k < i ==> ms[k].role == Tool)
    && (forall id :: Answers(ms[i], id) ==> Calls(ms[j], id))
  }

  /** Every tool message follows its assistant call in one contiguous block. */
  ghost predicate NoOrphans(ms: seq<Message>) {
    forall i :: 0 <= i < |ms| && ms[i].role == Tool ==> exists j: nat :: OwnedBy(ms, i, j)
  }

  ghost predicate NoAdjacentUsers(ms: seq<Message>) {
    forall i :: 0 <= i < |ms| - 1 ==> !(ms[i].role == User && ms[i + 1].role == User)
  }

  /** The content the summary was put in front of. */
  predicate PrefixedBy(note: seq<Unit>, was: Content, now: Content) {
    match was
    case Plain(text) => now == Plain(note + GAP + text)
    case Parts(parts) => now == Parts([TextPart(note)] + parts)
    case Malformed => false
  }

  /** `next` is the note and then `recent` verbatim: as a message of its own, or in front of
      a leading user message. */
  predicate Leads(note: seq<Unit>, recent: seq<Message>, next: seq<Message>) {
    next != [] && next[0].role == User &&
    if recent != [] && recent[0].role == User && recent[0].content != Malformed then
      next[1..] == recent[1..] && PrefixedBy(note, recent[0].content, next[0].content)
    else next == [Message(User, Plain(note))] + recent
  }

  lemma FoldLeads(note: seq<Unit>, recent: seq<Message>)
    ensures Leads(note, recent, Fold(note, recent))
  {
  }

  /** The first message is a user turn that tells the summary under its header, then the tool
      calls if there are any, then whatever a leading user turn said itself. */
  predicate Tells(first: Message, summary: seq<Unit>, index: seq<Unit>, recent: seq<Message>) {
    var calls := if index == [] then [] else CALLS + index;
    var told := HEADER + summary + calls;
    first.role == User && first.content ==
      if recent != [] && recent[0].role == User && recent[0].content.Plain?
        then Plain(told + GAP + recent[0].content.text)
      else if recent != [] && recent[0].role == User && recent[0].content.Parts?
        then Parts([TextPart(told)] + recent[0].content.parts)
      else Plain(told)
  }

  /** When compaction replaces a transcript: it keeps, verbatim behind the summary, the suffix
      from the greatest index at or below n - effectiveKeep that holds no tool message; nothing
      but the older part is lost. */
  lemma CompactKeepsSuffix(ms: seq<Message>, opts: CompactOptions, h: Helpers) returns (cut: nat)
    requires Compact(ms, opts, h).Compacted?
    ensures var keep := if |ms| <= opts.keep then 1 else opts.keep;
            && 0 < cut <= |ms| - keep && (cut < |ms| ==> ms[cut].role != Tool)
            && forall k :: cut < k <= |ms| - keep && k < |ms| ==> ms[k].role == Tool
    ensures h.summarize(ms[..cut]).Some? && !OnlySpace(h.summarize(ms[..cut]).value)
    ensures Compact(ms, opts, h).messages != []
    ensures Tells(Compact(ms, opts, h).messages[0], h.summarize(ms[..cut]).value, h.toolIndex(ms[..cut]), ms[cut..])
    ensures Leads(Note(h.summarize(ms[..cut]).value, h.toolIndex(ms[..cut])), ms[cut..], Compact(ms, opts, h).messages)
    ensures Compact(ms, opts, h).overrun <==> |ms| <= opts.keep
    ensures var r := Compact(ms, opts, h);
            var before, after := Estimate(ms, h.json), Estimate(r.messages, h.json);
            if after <= before then after + r.freed == before else r.freed == 0
  {
    hide Blank, OnlySpace, Note, Fold, Leads, Estimate, Tells;
    cut := Boundary(ms, |ms| - EffectiveKeep(ms, opts));
    FoldLeads(Note(h.summarize(ms[..cut]).value, h.toolIndex(ms[..cut])), ms[cut..]);
    BlankIs(h.summarize(ms[..cut]).value);
    FoldTells(h.summarize(ms[..cut]).value, h.toolIndex(ms[..cut]), ms[cut..]);
  }

  lemma FoldTells(summary: seq<Unit>, index: seq<Unit>, recent: seq<Message>)
    ensures Fold(Note(summary, index), recent) != []
    ensures Tells(Fold(Note(summary, index), recent)[0], summary, index, recent)
  {
  }

  /** The size of the prompt: as the provider told it, else the estimate. */
  function Prompt(ms: seq<Message>, opts: CompactOptions, json: Json): int {
    if opts.currentTokens.Some? && opts.currentTokens.value > 0 then opts.currentTokens.value else Estimate(ms, json)
  }

  /** The greatest place at or below `limit` that holds no tool message. */
  ghost predicate CutAt(ms: seq<Message>, limit: int, cut: nat) {
    && 0 < cut <= limit && cut <= |ms| && !IsTool(ms, cut)
    && forall k :: cut < k <= limit ==> IsTool(ms, k)
  }

  predicate IsTool(ms: seq<Message>, k: int) {
    0 <= k < |ms| && ms[k].role == Tool
  }

  /** Nothing is left of it when it is trimmed. */
  predicate OnlySpace(text: seq<Unit>) {
    forall i :: 0 <= i < |text| ==>
      || 9 <= text[i] <= 13 || text[i] in [0x20, 0xA0, 0x1680, 0x2028, 0x2029, 0x202F, 0x205F, 0x3000, 0xFEFF]
      || 0x2000 <= text[i] <= 0x200A
  }

  lemma BlankIs(text: seq<Unit>)
    ensures Blank(text) <==> OnlySpace(text)
  {
  }

  /** Exactly when a transcript is left alone: below the trigger, too short to cut, all tool
      results back to its start, or an empty summary. */
  lemma UntouchedIff(ms: seq<Message>, opts: CompactOptions, h: Helpers)
    ensures var limit := |ms| - (if |ms| <= opts.keep then 1 else opts.keep);
            Compact(ms, opts, h) == Untouched <==>
            || (!opts.force && Prompt(ms, opts, h.json) as real < opts.threshold * opts.contextWindow as real)
            || (|ms| <= opts.keep && |ms| < 3)
            || (forall k :: 0 < k <= limit ==> IsTool(ms, k))
            || (exists cut: nat :: CutAt(ms, limit, cut) && h.summarize(ms[..cut]).Some?
                                   && OnlySpace(h.summarize(ms[..cut]).value))
  {
    hide Blank, OnlySpace, Note, Fold, Estimate;
    forall text ensures Blank(text) <==> OnlySpace(text) { BlankIs(text); }
    if |ms| >= EffectiveKeep(ms, opts) {
      var limit := |ms| - EffectiveKeep(ms, opts);
      var cut := Boundary(ms, limit);
      assert cut > 0 ==> CutAt(ms, limit, cut);
      assert cut == 0 && limit > 0 ==> limit < |ms|;
      forall other | CutAt(ms, limit, other) ensures other == cut {
        assert cut < other ==> IsTool(ms, other);
        assert other < cut ==> IsTool(ms, cut);
      }
    }
  }

  lemma SuffixOwned(ms: seq<Message>, cut: nat)
    requires NoOrphans(ms) && cut <= |ms| && (cut < |ms| ==> ms[cut].role != Tool)
    ensures NoOrphans(ms[cut..])
  {
    hide OwnedBy;
    var recent := ms[cut..];
    forall i | 0 <= i < |recent| && recent[i].role == Tool ensures exists j: nat :: OwnedBy(recent, i, j) {
      var j: nat :| OwnedBy(ms, i + cut, j);
      OwnerInside(ms, cut, i, j);
    }
  }

  lemma OwnerInside(ms: seq<Message>, cut: nat, i: nat, j: nat)
    requires cut + i < |ms| && ms[cut].role != Tool && ms[cut + i].role == Tool && OwnedBy(ms, i + cut, j)
    ensures j >= cut && OwnedBy(ms[cut..], i, j - cut)
  {
    hide Calls, Answers;
    assert j < cut < i + cut ==> IsTool(ms, cut);
  }

  /** `next` is `recent` moved up by `shift`, behind or with a leading user message. */
  ghost predicate Aligned(recent: seq<Message>, next: seq<Message>, shift: nat) {
    && |next| == |recent| + shift > 0 && next[0].role == User
    && (shift == 0 ==> recent[0].role == User)
    && (forall k :: 0 < k < |next| && k >= shift ==> next[k] == recent[k - shift])
  }

  lemma LeadsAligned(note: seq<Unit>, recent: seq<Message>, next: seq<Message>)
    requires Leads(note, recent, next)
    ensures var shift := if recent != [] && recent[0].role == User && recent[0].content != Malformed then 0 else 1;
            Aligned(recent, next, shift)
  {
    hide PrefixedBy;
    assert forall k :: 0 < k < |next| ==> next[k] == next[1..][k - 1];
  }

  lemma OwnerMoves(recent: seq<Message>, next: seq<Message>, shift: nat, i: nat, j: nat)
    requires Aligned(recent, next, shift) && shift <= 1 && 0 < i < |next| && i >= shift && OwnedBy(recent, i - shift, j)
    ensures OwnedBy(next, i, j + shift)
  {
    hide Calls, Answers;
    assert j + shift > 0;
    assert next[i] == recent[i - shift] && next[j + shift] == recent[j];
    forall k | j + shift < k < i ensures next[k].role == Tool {
      assert next[k] == recent[k - shift];
    }
  }

  lemma LeadsOwned(note: seq<Unit>, recent: seq<Message>, next: seq<Message>)
    requires NoOrphans(recent) && Leads(note, recent, next)
    ensures NoOrphans(next)
  {
    hide OwnedBy, Leads;
    LeadsAligned(note, recent, next);
    var shift := if recent != [] && recent[0].role == User && recent[0].content != Malformed then 0 else 1;
    forall i | 0 <= i < |next| && next[i].role == Tool ensures exists j: nat :: OwnedBy(next, i, j) {
      assert next[i] == recent[i - shift];
      var j: nat :| OwnedBy(recent, i - shift, j);
      OwnerMoves(recent, next, shift, i, j);
    }
  }

  /** No orphaned tool result, and a user message first. */
  lemma CompactKeepsPairs(ms: seq<Message>, opts: CompactOptions, h: Helpers)
    requires Compact(ms, opts, h).Compacted? && NoOrphans(ms)
    ensures var next := Compact(ms, opts, h).messages;
            NoOrphans(next) && next != [] && next[0].role == User
  {
    hide NoOrphans, Compact, Blank, OnlySpace, Note, Tells, Estimate;
    var cut := CompactKeepsSuffix(ms, opts, h);
    SuffixOwned(ms, cut);
    LeadsOwned(Note(h.summarize(ms[..cut]).value, h.toolIndex(ms[..cut])), ms[cut..], Compact(ms, opts, h).messages);
  }

  /** No two user messages in a row, unless the kept part starts with a malformed one. */
  lemma CompactKeepsTurns(ms: seq<Message>, opts: CompactOptions, h: Helpers) returns (cut: nat)
    requires Compact(ms, opts, h).Compacted? && NoAdjacentUsers(ms)
    ensures 0 < cut <= |ms| - EffectiveKeep(ms, opts)
    ensures NoAdjacentUsers(Compact(ms, opts, h).messages) <==>
            !(cut < |ms| && ms[cut].role == User && ms[cut].content == Malformed)
    ensures forall k :: cut < k <= |ms| - EffectiveKeep(ms, opts) && k < |ms| ==> ms[k].role == Tool
    ensures cut < |ms| ==> ms[cut].role != Tool
  {
    hide Compact, Blank, OnlySpace, Note, Tells, Estimate;
    cut := CompactKeepsSuffix(ms, opts, h);
    LeadsTurns(Note(h.summarize(ms[..cut]).value, h.toolIndex(ms[..cut])), ms, cut, Compact(ms, opts, h).messages);
  }

  lemma LeadsTurns(note: seq<Unit>, ms: seq<Message>, cut: nat, next: seq<Message>)
    requires NoAdjacentUsers(ms) && cut <= |ms| && Leads(note, ms[cut..], next)
    ensures NoAdjacentUsers(next) <==> !(cut < |ms| && ms[cut].role == User && ms[cut].content == Malformed)
  {
    hide PrefixedBy;
    var recent := ms[cut..];
    var shift := if recent != [] && recent[0].role == User && recent[0].content != Malformed then 0 else 1;
    assert forall k :: 0 < k < |next| ==> next[k] == next[1..][k - 1] == recent[k - shift] == ms[cut + k - shift];
    if cut < |ms| && ms[cut].role == User && ms[cut].content == Malformed {
      assert next[0].role == User && next[1] == ms[cut];
    } else {
      forall i | 0 <= i < |next| - 1 ensures !(next[i].role == User && next[i + 1].role == User) {
        assert next[i + 1] == ms[cut + i + 1 - shift];
        if i == 0 {
          assert shift == 0 ==> ms[cut].role == User && next[1] == ms[cut + 1];
        } else {
          assert next[i] == ms[cut + i - shift];
        }
      }
    }
  }

  /** The exception is real: here the summary of the first two messages becomes a user message
      right before a malformed one. */
  lemma MalformedStaysBehind(h: Helpers, window: nat, threshold: real)
    requires var older := [Message(User, Plain([97])), Message(Assistant, Plain([98]))];
             h.summarize(older).Some? && !Blank(h.summarize(older).value)
    ensures var ms := [Message(User, Plain([97])), Message(Assistant, Plain([98])), Message(User, Malformed)];
            var r := Compact(ms, CompactOptions(window, threshold, 1, true, None), h);
            && NoAdjacentUsers(ms) && r.Compacted? && !NoAdjacentUsers(r.messages)
  {
    hide Blank, Note, Fold, Estimate;
    var older := [Message(User, Plain([97])), Message(Assistant, Plain([98]))];
    var ms := older + [Message(User, Malformed)];
    var opts := CompactOptions(window, threshold, 1, true, None);
    assert ms == [Message(User, Plain([97])), Message(Assistant, Plain([98])), Message(User, Malformed)];
    assert Boundary(ms, 2) == 2 && ms[..2] == older;
    assert NoAdjacentUsers(ms);
    assert Compact(ms, opts, h).Compacted?;
    var cut := CompactKeepsTurns(ms, opts, h);
    assert ms[2].role == User;
    assert cut == 2;
  }
}
