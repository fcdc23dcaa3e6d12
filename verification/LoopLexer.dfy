/**
  The option lexer of the `/loop` command. A word is read one step at a time from the rest of
  the input; the loops of the source are proved against that reading, and the laws are about
  it: quoting is undone, and taking ranges out leaves the other words as they were, with one
  exact exception.
  */
module LoopLexer {
  import opened Options
  import opened Text

  datatype Token = Token(start: nat, end: nat, value: string, fullyQuoted: bool)

  /** What is known of the word being read. */
  datatype Scan = Scan(value: string, quote: Option<char>, quoted: bool, bare: bool)

  const FRESH := Scan("", None, false, false)

  predicate IsQuote(c: char) {
    c == '"' || c == '\''
  }

  predicate Stops(text: string, w: Scan) {
    text == [] || (w.quote.None? && IsSpace(text[0]))
  }

  /** One step, and how many characters it takes. */
  function Advance(text: string, w: Scan): (r: (Scan, nat))
    requires text != []
    ensures 1 <= r.1 <= 2 && r.1 <= |text|
  {
    var ch := text[0];
    if w.quote.Some? then
      if ch == '\\' then
        if |text| > 1 && (text[1] == w.quote.value || text[1] == '\\') then (w.(value := w.value + [text[1]]), 2)
        else (w.(value := w.value + [ch]), 1)
      else if ch == w.quote.value then (w.(quote := None), 1)
      else (w.(value := w.value + [ch]), 1)
    else if IsQuote(ch) then (w.(quote := Some(ch), quoted := true), 1)
    else if ch == '\\' && |text| > 1 then (w.(value := w.value + [text[1]], bare := true), 2)
    else (w.(value := w.value + [ch], bare := true), 1)
  }

  /** A word up to unquoted white space or the end, and its length. */
  function Word(text: string, w: Scan): (r: (Scan, nat))
    ensures r.1 <= |text|
    decreases |text|
  {
    if Stops(text, w) then (w, 0) else
    var (w1, n) := Advance(text, w);
    var (w2, m) := Word(text[n..], w1);
    (w2, n + m)
  }

  function TokenOf(w: Scan, start: nat, end: nat): Token {
    Token(start, end, w.value, w.quoted && !w.bare)
  }

  lemma WordMoves(text: string, w: Scan)
    requires !Stops(text, w)
    ensures Word(text, w).1 > 0
  {
  }

  function Prepend(ts: seq<Token>, r: Option<seq<Token>>): Option<seq<Token>> {
    if r.None? then None else Some(ts + r.value)
  }

  /** The tokens of what is left of the input from `base`; `None` when a quote stays open. */
  function Lex(text: string, base: nat): Option<seq<Token>>
    decreases |text|
  {
    var s := Spaces(text);
    if s == |text| then Some([]) else
    var (w, n) := Word(text[s..], FRESH);
    if w.quote.Some? then None else
    WordMoves(text[s..], FRESH);
    Prepend([TokenOf(w, base + s, base + s + n)], Lex(text[s + n..], base + s + n))
  }

  // ---------------------------------------------------------------- the loops

  method LexLoopArgs(input: string) returns (r: Option<seq<Token>>)
    ensures r == Lex(input, 0)
  {
    hide Lex, Word, IsSpace;
    var tokens: seq<Token> := [];
    var i := 0;
    assert input[0..] == input;
    PrependNone(Lex(input, 0));
    while i < |input|
      invariant i <= |input|
      invariant Lex(input, 0) == Prepend(tokens, Lex(input[i..], i))
      decreases |input| - i
    {
      var start := SkipSpaces(input, i);
      LexStep(input[i..], i);
      ghost var text := input[i..];
      ghost var s := start - i;
      assert text[s..] == input[start..];
      if start >= |input| {
        break;
      }
      var w, end := ReadWord(input, start);
      assert text[s + (end - start)..] == input[end..];
      if w.quote.Some? {
        return None;
      }
      PrependTo(tokens, TokenOf(w, start, end), Lex(input[end..], end));
      tokens := tokens + [TokenOf(w, start, end)];
      i := end;
    }
    if i >= |input| {
      LexStep(input[i..], i);
    }
    assert tokens + [] == tokens;
    r := Some(tokens);
  }

  lemma LexStep(text: string, base: nat)
    ensures var s := Spaces(text);
            if s == |text| then Lex(text, base) == Some([]) else
            var (w, n) := Word(text[s..], FRESH);
            && n > 0
            && Lex(text, base) ==
               if w.quote.Some? then None
               else Prepend([TokenOf(w, base + s, base + s + n)], Lex(text[s + n..], base + s + n))
  {
    hide IsSpace, Word, Advance, Spaces, Prepend, TokenOf;
    var s := Spaces(text);
    if s < |text| { WordMoves(text[s..], FRESH); }
  }

  lemma PrependNone(r: Option<seq<Token>>)
    ensures Prepend([], r) == r
  {
    if r.Some? { assert [] + r.value == r.value; }
  }

  method SkipSpaces(input: string, from: nat) returns (i: nat)
    requires from < |input|
    ensures i == from + Spaces(input[from..])
  {
    i := from;
    while i < |input| && IsSpace(input[i])
      invariant from <= i <= |input|
      invariant from + Spaces(input[from..]) == i + Spaces(input[i..])
    {
      assert input[i..][1..] == input[i + 1..];
      i := i + 1;
    }
  }

  method ReadWord(input: string, start: nat) returns (w: Scan, i: nat)
    requires start < |input|
    ensures i <= |input| && start <= i && Word(input[start..], FRESH) == (w, i - start)
  {
    hide Word, Advance, IsSpace;
    w, i := FRESH, start;
    while i < |input| && (w.quote.Some? || !IsSpace(input[i]))
      invariant start <= i <= |input|
      invariant Word(input[start..], FRESH) == Onward(i - start, Word(input[i..], w))
      decreases |input| - i
    {
      WordStep(input[i..], w);
      ghost var n := Advance(input[i..], w).1;
      assert input[i..][n..] == input[i + n..];
      w, i := ReadStep(input, i, w);
    }
    WordEnds(input[i..], w);
  }

  method ReadStep(input: string, at: nat, was: Scan) returns (w: Scan, i: nat)
    requires at < |input|
    ensures (w, i) == (Advance(input[at..], was).0, at + Advance(input[at..], was).1)
  {
    w, i := was, at;
    var ch := input[i];
    if w.quote.Some? {
      if ch == '\\' {
        if i + 1 < |input| && (input[i + 1] == w.quote.value || input[i + 1] == '\\') {
          w := w.(value := w.value + [input[i + 1]]);
          return w, i + 2;
        }
        w := w.(value := w.value + [ch]);
        return w, i + 1;
      }
      if ch == w.quote.value {
        w := w.(quote := None);
        return w, i + 1;
      }
      w := w.(value := w.value + [ch]);
      return w, i + 1;
    }
    if ch == '"' || ch == '\'' {
      w := w.(quote := Some(ch), quoted := true);
      return w, i + 1;
    }
    w := w.(bare := true);
    if ch == '\\' && i + 1 < |input| {
      w := w.(value := w.value + [input[i + 1]]);
      i := i + 2;
    } else {
      w := w.(value := w.value + [ch]);
      i := i + 1;
    }
  }

  lemma WordStep(text: string, w: Scan)
    requires !Stops(text, w)
    ensures Word(text, w) == Onward(Advance(text, w).1, Word(text[Advance(text, w).1..], Advance(text, w).0))
  {
    hide Advance, IsSpace;
  }

  lemma WordEnds(text: string, w: Scan)
    requires Stops(text, w)
    ensures Word(text, w) == (w, 0)
  {
  }

  lemma PrependTo(ts: seq<Token>, t: Token, r: Option<seq<Token>>)
    ensures Prepend(ts + [t], r) == Prepend(ts, Prepend([t], r))
  {
    if r.Some? {
      assert ts + [t] + r.value == ts + ([t] + r.value);
    }
  }

  function Onward(n: nat, r: (Scan, nat)): (Scan, nat) {
    (r.0, n + r.1)
  }

  // ---------------------------------------------------------------- words standing alone

  predicate InQuotes(w: Scan) {
    w.quote.Some? ==> IsQuote(w.quote.value)
  }

  lemma AdvanceKeeps(text: string, w: Scan)
    requires text != [] && InQuotes(w)
    ensures InQuotes(Advance(text, w).0)
  {
  }

  /** A word that closed its quotes reads the same before any other stop, unless it ran to the
      end of the input and something follows it now. */
  lemma {:induction false} SameWord(text: string, other: string, w: Scan)
    requires var (w', n) := Word(text, w);
             && w'.quote.None? && n <= |other| && other[..n] == text[..n]
             && (n < |other| ==> IsSpace(other[n]) && n < |text|)
    ensures Word(other, w) == Word(text, w)
    decreases |text|
  {
    hide Word, Advance, IsSpace;
    var (w', n) := Word(text, w);
    if Stops(text, w) {
      WordEnds(text, w);
      WordEnds(other, w);
    } else {
      var (w1, k) := Advance(text, w);
      WordStep(text, w);
      SameStep(text, other, w);
      WordStep(other, w);
      assert other[k..][..n - k] == other[..n][k..] == text[k..][..n - k];
      SameWord(text[k..], other[k..], w1);
    }
  }

  /** A step of a word that is read to its end looks no further than the word. */
  lemma SameStep(text: string, other: string, w: Scan)
    requires !Stops(text, w) && Word(text, w).0.quote.None?
    requires var n := Word(text, w).1;
             n <= |other| && other[..n] == text[..n] && (n < |other| ==> n < |text| && IsSpace(other[n]))
    ensures !Stops(other, w) && Advance(other, w) == Advance(text, w)
  {
    hide IsSpace;
    var n := Word(text, w).1;
    assert other[0] == other[..n][0] == text[0];
    assert n >= 2 ==> other[1] == other[..n][1] == text[1];
  }

  /** A word that ends in white space ends in an escaped one; without that last character its
      backslash stands for itself. */
  lemma {:induction false} EscapedEnd(text: string, w: Scan)
    requires InQuotes(w) && Word(text, w).0.quote.None? && Word(text, w).1 == |text| > 0 && IsSpace(text[|text| - 1])
    ensures var (w', n) := Word(text, w);
            && n >= 2 && text[n - 2] == '\\' && w'.bare
            && w'.value != [] && w'.value[|w'.value| - 1] == text[n - 1]
            && Word(text[..n - 1], w) == (w'.(value := w'.value[..|w'.value| - 1] + ['\\']), n - 1)
    decreases |text|
  {
    hide Word, Advance, IsSpace, IsQuote;
    var n := |text|;
    var (w1, k) := Advance(text, w);
    AdvanceKeeps(text, w);
    WordMeets(text, w);
    WordStep(text, w);
    var rest := text[k..];
    if k == n {
      WordEnds(rest, w1);
      LastEscape(text, w);
    } else {
      EscapedEnd(rest, w1);
      assert text[..n - 1][k..] == rest[..n - 1 - k];
      AdvanceShorter(text, n - 1, w);
      WordStep(text[..n - 1], w);
    }
  }

  lemma WordMeets(text: string, w: Scan)
    requires Word(text, w).1 > 0
    ensures !Stops(text, w)
  {
  }

  lemma AdvanceShorter(text: string, m: nat, w: Scan)
    requires 2 <= m <= |text|
    ensures Advance(text[..m], w) == Advance(text, w)
    ensures Stops(text[..m], w) <==> Stops(text, w)
  {
    assert text[..m][0] == text[0] && text[..m][1] == text[1];
  }

  lemma LastEscape(text: string, w: Scan)
    requires InQuotes(w) && !Stops(text, w) && IsSpace(text[|text| - 1])
    requires Advance(text, w).1 == |text| && Advance(text, w).0.quote.None?
    ensures |text| == 2 && text[0] == '\\'
    ensures Word(text, w) == (w.(value := w.value + [text[1]], bare := true), 2)
    ensures Word(text[..1], w) == (w.(value := w.value + ['\\'], bare := true), 1)
  {
    WordEnds(text[|text|..], Advance(text, w).0);
    WordStep(text, w);
    if |text| == 2 {
      var one := text[..1];
      WordStep(one, w);
      assert one[0] == '\\' && |one| == 1;
      WordEnds(one[1..], Advance(one, w).0);
    }
  }

  /** `src` on its own is one word with this value; unless it is to come last, also before
      white space. */
  predicate Reads(src: string, value: string, fullyQuoted: bool, last: bool) {
    && src != [] && !IsSpace(src[0])
    && Word(src, FRESH).1 == |src|
    && Word(src, FRESH).0.quote.None?
    && TokenOf(Word(src, FRESH).0, 0, 0) == Token(0, 0, value, fullyQuoted)
    && (!last ==> Word(src + " ", FRESH) == Word(src, FRESH))
  }

  /** Sources joined by single spaces. */
  function Joined(srcs: seq<string>): string {
    if srcs == [] then "" else if |srcs| == 1 then srcs[0] else srcs[0] + " " + Joined(srcs[1..])
  }

  ghost predicate AllRead(srcs: seq<string>, ts: seq<Token>) {
    && |srcs| == |ts|
    && forall k :: 0 <= k < |srcs| ==> Reads(srcs[k], ts[k].value, ts[k].fullyQuoted, k == |srcs| - 1)
  }

  /** The same words with the same quoting, wherever they stand. */
  ghost predicate SameTokens(ts: seq<Token>, ts': seq<Token>) {
    |ts| == |ts'| && forall k :: 0 <= k < |ts| ==>
        ts'[k].value == ts[k].value && ts'[k].fullyQuoted == ts[k].fullyQuoted
  }

  /** Words joined by spaces are read back one by one. */
  lemma {:induction false} LexJoined(srcs: seq<string>, ts: seq<Token>, base: nat)
    requires AllRead(srcs, ts)
    ensures Lex(Joined(srcs), base).Some? && SameTokens(ts, Lex(Joined(srcs), base).value)
    decreases |srcs|
  {
    hide Word, Lex, IsSpace;
    var text := Joined(srcs);
    LexStep(text, base);
    if |srcs| == 1 {
      assert text[0..] == text && text[|text|..] == "";
      LexStep("", base + |text|);
    } else if |srcs| > 1 {
      assert Reads(srcs[0], ts[0].value, ts[0].fullyQuoted, false);
      BeforeMore(srcs[0], Joined(srcs[1..]));
      var n := |srcs[0]|;
      assert text[0..] == text;
      LexJoined(srcs[1..], ts[1..], base + n + 1);
      assert text[n..] == " " + Joined(srcs[1..]);
      JoinedStarts(srcs[1..], ts[1..]);
      LexSpace(Joined(srcs[1..]), base + n);
    }
  }

  lemma BeforeMore(src: string, more: string)
    requires src != [] && !IsSpace(src[0]) && Word(src, FRESH).1 == |src| && Word(src, FRESH).0.quote.None?
    requires Word(src + " ", FRESH) == Word(src, FRESH)
    ensures Word(src + " " + more, FRESH) == Word(src, FRESH)
    ensures Spaces(src + " " + more) == 0
  {
    hide Word;
    assert (src + " ")[..|src|] == (src + " " + more)[..|src|];
    assert (src + " " + more)[|src|] == ' ';
    SameWord(src + " ", src + " " + more, FRESH);
    assert (src + " " + more)[0] == src[0];
  }

  lemma JoinedStarts(srcs: seq<string>, ts: seq<Token>)
    requires AllRead(srcs, ts) && srcs != []
    ensures Joined(srcs) != [] && Joined(srcs)[0] == srcs[0][0] && !IsSpace(srcs[0][0])
  {
    hide Word, IsSpace;
    assert Reads(srcs[0], ts[0].value, ts[0].fullyQuoted, 0 == |srcs| - 1);
  }

  lemma LexSpace(text: string, base: nat)
    requires text != [] && !IsSpace(text[0])
    ensures Lex(" " + text, base) == Lex(text, base + 1)
  {
    hide Word, Lex;
    var more := " " + text;
    LexStep(more, base);
    LexStep(text, base + 1);
    assert more[1..] == text && text[0..] == text;
    assert Spaces(more) == 1 && Spaces(text) == 0;
    var n := Word(text, FRESH).1;
    assert more[1 + n..] == text[n..];
  }

  // ---------------------------------------------------------------- quoting is undone

  /** Quote and backslash get a backslash before them. */
  function Escaped(v: string, q: char): string {
    if v == [] then [] else
    (if v[0] == q || v[0] == '\\' then ['\\', v[0]] else [v[0]]) + Escaped(v[1..], q)
  }

  function Quote(v: string, q: char): string {
    [q] + Escaped(v, q) + [q]
  }

  predicate Escapes(v: string, q: char) {
    |v| > 1 && v[0] == '\\' && (v[1] == q || v[1] == '\\')
  }

  /** What text stands for inside quotes: a backslash goes where it stands before the active
      quote or another backslash, and stays everywhere else. */
  function Unescaped(v: string, q: char): string
    decreases |v|
  {
    if v == [] then []
    else if Escapes(v, q) then [v[1]] + Unescaped(v[2..], q)
    else [v[0]] + Unescaped(v[1..], q)
  }

  /** The quote after `v` is the first that closes. */
  predicate StaysOpen(v: string, q: char)
    decreases |v|
  {
    v == [] ||
    (if Escapes(v, q) then StaysOpen(v[2..], q)
     else v[0] != q && (v[0] == '\\' ==> |v| > 1) && StaysOpen(v[1..], q))
  }

  lemma BodyStep(v: string, q: char, rest: string, w: Scan)
    requires w.quote == Some(q) && IsQuote(q) && StaysOpen(v, q)
    ensures v == [] ==> Unescaped(v, q) == [] && Advance([q] + rest, w) == (w.(quote := None), 1)
    ensures v != [] ==>
              var k := if Escapes(v, q) then 2 else 1;
              && k <= |v| && StaysOpen(v[k..], q) && Unescaped(v, q) == [v[k - 1]] + Unescaped(v[k..], q)
              && Advance(v + [q] + rest, w) == (w.(value := w.value + [v[k - 1]]), k)
  {
  }

  lemma {:induction false} BodyReads(v: string, q: char, rest: string, w: Scan)
    requires w.quote == Some(q) && IsQuote(q) && StaysOpen(v, q)
    ensures Word(v + [q] + rest, w) ==
            Onward(|v| + 1, Word(rest, w.(value := w.value + Unescaped(v, q), quote := None)))
    decreases |v|
  {
    hide Word, Advance, Unescaped, StaysOpen, Escapes;
    var text := v + [q] + rest;
    WordStep(text, w);
    BodyStep(v, q, rest, w);
    if v == [] {
      assert text == [q] + rest;
      assert text[1..] == rest && w.value + [] == w.value;
    } else {
      var k := if Escapes(v, q) then 2 else 1;
      var w1 := w.(value := w.value + [v[k - 1]]);
      assert text[k..] == v[k..] + [q] + rest;
      BodyReads(v[k..], q, rest, w1);
      assert w.value + Unescaped(v, q) == w1.value + Unescaped(v[k..], q);
    }
  }

  /** Unescaping undoes escaping. */
  lemma {:induction false} EscapedStays(v: string, q: char)
    requires IsQuote(q)
    ensures StaysOpen(Escaped(v, q), q) && Unescaped(Escaped(v, q), q) == v
    decreases |v|
  {
    if v != [] {
      var e := Escaped(v, q);
      var k := if v[0] == q || v[0] == '\\' then 2 else 1;
      assert e[k..] == Escaped(v[1..], q);
      EscapedStays(v[1..], q);
    }
  }

  lemma OpensQuote(q: char, rest: string)
    requires IsQuote(q)
    ensures !IsSpace(q) && Word([q] + rest, FRESH) == Onward(1, Word(rest, Scan("", Some(q), true, false)))
  {
    hide Word;
    var text := [q] + rest;
    assert text[1..] == rest;
    WordStep(text, FRESH);
  }

  lemma QuoteReads(v: string, q: char, rest: string)
    requires IsQuote(q) && (rest == [] || IsSpace(rest[0]))
    ensures Word(Quote(v, q) + rest, FRESH) == (Scan(v, None, true, false), |Quote(v, q)|)
  {
    hide Word, Escaped, Advance, Unescaped, StaysOpen;
    var text := Quote(v, q) + rest;
    assert text == [q] + (Escaped(v, q) + [q] + rest);
    OpensQuote(q, Escaped(v, q) + [q] + rest);
    EscapedStays(v, q);
    BodyReads(Escaped(v, q), q, rest, Scan("", Some(q), true, false));
    assert "" + v == v;
    WordEnds(rest, Scan(v, None, true, false));
  }

  datatype Arg = Arg(value: string, quote: char)

  function Quotes(args: seq<Arg>): (srcs: seq<string>)
    ensures |srcs| == |args| && forall k :: 0 <= k < |args| ==> srcs[k] == Quote(args[k].value, args[k].quote)
  {
    if args == [] then [] else [Quote(args[0].value, args[0].quote)] + Quotes(args[1..])
  }

  /** Any values, each in quotes of either sort with quote and backslash escaped, joined by
      spaces: the lexer gives them back, every one marked as fully quoted. */
  lemma LexUndoesQuoting(args: seq<Arg>)
    requires forall k :: 0 <= k < |args| ==> args[k].quote == '"' || args[k].quote == '\''
    ensures var r := Lex(Joined(Quotes(args)), 0);
            && r.Some? && |r.value| == |args|
            && forall k :: 0 <= k < |args| ==> r.value[k].value == args[k].value && r.value[k].fullyQuoted
  {
    hide Word, Lex, Quote;
    var srcs := Quotes(args);
    var ts := seq(|args|, k requires 0 <= k < |args| => Token(0, 0, args[k].value, true));
    forall k | 0 <= k < |srcs| ensures Reads(srcs[k], ts[k].value, ts[k].fullyQuoted, k == |srcs| - 1) {
      QuoteStands(args[k].value, args[k].quote);
    }
    LexJoined(srcs, ts, 0);
  }

  lemma QuoteStands(v: string, q: char)
    requires IsQuote(q)
    ensures Reads(Quote(v, q), v, true, false)
  {
    hide Word, Escaped;
    QuoteReads(v, q, "");
    QuoteReads(v, q, " ");
    assert Quote(v, q) + "" == Quote(v, q);
  }

  /** Text in quotes is one token; of its backslashes only those before the active quote or
      another backslash go, and all are kept where there is no such pair. */
  lemma QuotesKeepVerbatim(v: string, q: char)
    requires (q == '"' || q == '\'') && StaysOpen(v, q)
    ensures Lex([q] + v + [q], 0) == Some([Token(0, |v| + 2, Unescaped(v, q), true)])
    ensures (forall k :: 0 <= k < |v| ==> !Escapes(v[k..], q)) ==> Unescaped(v, q) == v
  {
    hide Word, Lex, IsSpace, Advance, Unescaped, StaysOpen, Escapes;
    var text := [q] + v + [q];
    assert text == [q] + (v + [q] + []);
    OpensQuote(q, v + [q] + []);
    var open := Scan("", Some(q), true, false);
    BodyReads(v, q, [], open);
    assert "" + Unescaped(v, q) == Unescaped(v, q);
    WordEnds([], open.(value := Unescaped(v, q), quote := None));
    LexAlone(text, Unescaped(v, q), true);
    if forall k :: 0 <= k < |v| ==> !Escapes(v[k..], q) {
      NothingEscaped(v, q);
    }
  }

  lemma {:induction false} NothingEscaped(v: string, q: char)
    requires forall k :: 0 <= k < |v| ==> !Escapes(v[k..], q)
    ensures Unescaped(v, q) == v
    decreases |v|
  {
    hide Escapes;
    if v != [] {
      assert v[0..] == v;
      forall k | 0 <= k < |v[1..]| ensures !Escapes(v[1..][k..], q) {
        assert v[1..][k..] == v[k + 1..];
      }
      NothingEscaped(v[1..], q);
    }
  }

  /** A quote that stays open makes the whole input unreadable, and it is then only trimmed. */
  lemma OpenQuoteFails(v: string, q: char, ranges: seq<(nat, nat)>)
    requires (q == '"' || q == '\'') && StaysOpen(v, q)
    ensures Lex([q] + v, 0) == None
    ensures WithoutRanges([q] + v, ranges) == Trimmed([q] + v)
  {
    hide Word, Lex, IsSpace, Advance, Unescaped, StaysOpen, Trimmed;
    var text := [q] + v;
    OpensQuote(q, v);
    BodyOpen(v, q, Scan("", Some(q), true, false));
    NotBlank(text);
    LexStep(text, 0);
    assert text[0..] == text;
  }

  lemma NotBlank(text: string)
    requires text != [] && !IsSpace(text[0])
    ensures Spaces(text) == 0
  {
  }

  lemma {:induction false} BodyOpen(v: string, q: char, w: Scan)
    requires w.quote == Some(q) && IsQuote(q) && StaysOpen(v, q)
    ensures Word(v, w).0.quote.Some?
    decreases |v|
  {
    hide Word, Advance, Unescaped, StaysOpen, Escapes;
    if v == [] {
      WordEnds(v, w);
    } else {
      var k := if Escapes(v, q) then 2 else 1;
      BodyStep(v, q, [], w);
      OpenStep(v, q, w);
      WordStep(v, w);
      BodyOpen(v[k..], q, w.(value := w.value + [v[k - 1]]));
    }
  }

  lemma OpenStep(v: string, q: char, w: Scan)
    requires w.quote == Some(q) && IsQuote(q) && StaysOpen(v, q) && v != []
    ensures var k := if Escapes(v, q) then 2 else 1;
            k <= |v| && Advance(v, w) == (w.(value := w.value + [v[k - 1]]), k)
  {
  }

  lemma LexAlone(src: string, value: string, fullyQuoted: bool)
    requires Reads(src, value, fullyQuoted, true)
    ensures Lex(src, 0) == Some([Token(0, |src|, value, fullyQuoted)])
  {
    hide Word, Lex, IsSpace;
    LexStep(src, 0);
    assert src[0..] == src && src[|src|..] == "";
    LexStep("", |src|);
    var t := Token(0, |src|, value, fullyQuoted);
    assert [t] + [] == [t];
  }

  // ---------------------------------------------------------------- taking ranges out

  predicate Within(t: Token, ranges: seq<(nat, nat)>) {
    exists k :: 0 <= k < |ranges| && t.start >= ranges[k].0 && t.end <= ranges[k].1
  }

  function Outside(ts: seq<Token>, ranges: seq<(nat, nat)>): seq<Token> {
    if ts == [] then [] else
    (if Within(ts[0], ranges) then [] else [ts[0]]) + Outside(ts[1..], ranges)
  }

  /** Exactly the tokens that lie in no range are kept, each where it stood. */
  lemma OutsideIs(before: seq<Token>, t: Token, after: seq<Token>, ranges: seq<(nat, nat)>)
    ensures Outside(before + [t] + after, ranges)
         == Outside(before, ranges) + Outside([t], ranges) + Outside(after, ranges)
    ensures Outside([t], ranges) == [t] || Outside([t], ranges) == []
    ensures Outside([t], ranges) == [] <==> exists r :: 0 <= r < |ranges| && Spans(ranges[r], t)
  {
    hide Spans;
    OutsideSplits(before + [t], after, ranges);
    OutsideSplits(before, [t], ranges);
    OutsideAlone(t, ranges);
  }

  predicate Spans(range: (nat, nat), t: Token) {
    range.0 <= t.start && t.end <= range.1
  }

  lemma OutsideAlone(t: Token, ranges: seq<(nat, nat)>)
    ensures Outside([t], ranges) == if exists r :: 0 <= r < |ranges| && Spans(ranges[r], t) then [] else [t]
  {
    assert [t][1..] == [] && Outside([], ranges) == [];
    WithinIs(t, ranges);
  }

  lemma {:induction false} OutsideSplits(a: seq<Token>, b: seq<Token>, ranges: seq<(nat, nat)>)
    ensures Outside(a + b, ranges) == Outside(a, ranges) + Outside(b, ranges)
    decreases |a|
  {
    hide Within;
    if a == [] {
      assert a + b == b;
    } else {
      assert (a + b)[0] == a[0] && (a + b)[1..] == a[1..] + b;
      OutsideSplits(a[1..], b, ranges);
    }
  }

  lemma WithinIs(t: Token, ranges: seq<(nat, nat)>)
    ensures Within(t, ranges) <==> exists r :: 0 <= r < |ranges| && Spans(ranges[r], t)
  {
    if Within(t, ranges) {
      var k :| 0 <= k < |ranges| && t.start >= ranges[k].0 && t.end <= ranges[k].1;
      assert Spans(ranges[k], t);
    }
    if r :| 0 <= r < |ranges| && Spans(ranges[r], t) {
      assert t.start >= ranges[r].0 && t.end <= ranges[r].1;
    }
  }

  function Slice(input: string, t: Token): string {
    if t.start <= t.end <= |input| then input[t.start..t.end] else ""
  }

  function Slices(input: string, ts: seq<Token>): (r: seq<string>)
    ensures |r| == |ts| && forall k :: 0 <= k < |ts| ==> r[k] == Slice(input, ts[k])
  {
    if ts == [] then [] else [Slice(input, ts[0])] + Slices(input, ts[1..])
  }

  function WithoutRanges(input: string, ranges: seq<(nat, nat)>): string {
    var tokens := Lex(input, 0);
    if tokens.None? then Trimmed(input) else Trimmed(Joined(Slices(input, Outside(tokens.value, ranges))))
  }

  lemma {:induction false} WordStops(text: string, w: Scan)
    ensures var (w', n) := Word(text, w); n < |text| ==> w'.quote.None? && IsSpace(text[n])
    decreases |text|
  {
    hide Word, Advance, IsSpace;
    if Stops(text, w) {
      WordEnds(text, w);
    } else {
      WordStep(text, w);
      WordStops(text[Advance(text, w).1..], Advance(text, w).0);
    }
  }

  /** Each token's slice of the input is a word on its own. */
  lemma {:induction false} LexReads(input: string, at: nat)
    requires at <= |input| && Lex(input[at..], at).Some?
    ensures var ts := Lex(input[at..], at).value; AllRead(Slices(input, ts), ts)
    decreases |input| - at
  {
    hide Lex, Word, IsSpace, Reads;
    var text := input[at..];
    LexStep(text, at);
    var s := Spaces(text);
    if s < |text| {
      var (w, n) := Word(text[s..], FRESH);
      var e := at + s + n;
      var ts, rest := Lex(text, at).value, Lex(input[e..], e);
      assert text[s + n..] == input[e..];
      LexReads(input, e);
      assert ts == [ts[0]] + rest.value;
      EmptyLex(e);
      SliceReads(text[s..], rest.value == []);
      SliceOf(input, at, s, n, ts[0]);
      forall k | 0 <= k < |ts| ensures Reads(Slice(input, ts[k]), ts[k].value, ts[k].fullyQuoted, k == |ts| - 1) {
        if k > 0 {
          assert ts[k] == rest.value[k - 1];
        }
      }
    }
  }

  lemma SliceOf(input: string, at: nat, s: nat, n: nat, t: Token)
    requires at + s + n <= |input| && t.start == at + s && t.end == at + s + n
    ensures Slice(input, t) == input[at..][s..][..n]
  {
  }

  lemma EmptyLex(base: nat)
    ensures Lex("", base) == Some([])
  {
  }

  lemma SliceReads(text: string, last: bool)
    requires text != [] && !IsSpace(text[0]) && Word(text, FRESH).0.quote.None?
    requires !last ==> Word(text, FRESH).1 < |text|
    ensures var (w, n) := Word(text, FRESH); Reads(text[..n], w.value, w.quoted && !w.bare, last)
  {
    WordMoves(text, FRESH);
    hide Word;
    var n := Word(text, FRESH).1;
    var src := text[..n];
    SameWord(text, src, FRESH);
    if !last {
      WordStops(text, FRESH);
      assert (src + " ")[..n] == text[..n];
      SameWord(text, src + " ", FRESH);
    }
  }

  /** What is left out may be anything: only the last word need not stand before a space. */
  lemma {:induction false} OutsideReads(input: string, ts: seq<Token>, ranges: seq<(nat, nat)>)
    requires AllRead(Slices(input, ts), ts)
    ensures var kept := Outside(ts, ranges); AllRead(Slices(input, kept), kept)
    decreases |ts|
  {
    hide Word, IsSpace, Within;
    if ts != [] {
      var rest := ts[1..];
      forall k | 0 <= k < |rest|
        ensures Reads(Slices(input, rest)[k], rest[k].value, rest[k].fullyQuoted, k == |rest| - 1)
      {
        assert rest[k] == ts[k + 1];
        assert Reads(Slices(input, ts)[k + 1], ts[k + 1].value, ts[k + 1].fullyQuoted, k + 1 == |ts| - 1);
      }
      OutsideReads(input, rest, ranges);
      var t, more, kept := ts[0], Outside(rest, ranges), Outside(ts, ranges);
      if !Within(t, ranges) {
        assert Reads(Slices(input, ts)[0], t.value, t.fullyQuoted, 0 == |ts| - 1);
        OutsideNone(rest, ranges);
        assert kept == [t] + more;
        forall k | 0 <= k < |kept|
          ensures Reads(Slices(input, kept)[k], kept[k].value, kept[k].fullyQuoted, k == |kept| - 1)
        {
          if k > 0 {
            assert kept[k] == more[k - 1];
            assert Reads(Slices(input, more)[k - 1], more[k - 1].value, more[k - 1].fullyQuoted, k - 1 == |more| - 1);
          }
        }
      }
    }
  }

  lemma OutsideNone(ts: seq<Token>, ranges: seq<(nat, nat)>)
    ensures ts == [] ==> Outside(ts, ranges) == []
  {
  }

  lemma TrimKeeps(s: string)
    requires s != [] && !IsSpace(s[0])
    ensures !IsSpace(s[|s| - 1]) ==> Trimmed(s) == s
    ensures |s| > 1 && IsSpace(s[|s| - 1]) && !IsSpace(s[|s| - 2]) ==> Trimmed(s) == s[..|s| - 1]
  {
    hide IsSpace;
    assert TrimLeft(s) == s;
    var cut := s[..|s| - 1];
    assert |s| > 1 ==> cut[|cut| - 1] == s[|s| - 2];
    assert |s| > 1 && !IsSpace(s[|s| - 2]) ==> TrimRight(cut) == cut;
  }

  lemma {:induction false} JoinedTail(head: seq<string>, tail: string)
    ensures Joined(head + [tail]) == Joined(head + [""]) + tail
    decreases |head|
  {
    if head != [] {
      JoinedTail(head[1..], tail);
      assert (head + [tail])[1..] == head[1..] + [tail];
      assert (head + [""])[1..] == head[1..] + [""];
    }
  }

  lemma JoinedStartsSolid(srcs: seq<string>, ts: seq<Token>)
    requires AllRead(srcs, ts) && srcs != []
    ensures var text, src := Joined(srcs), srcs[|srcs| - 1];
            && text != [] && !IsSpace(text[0])
            && src != [] && |text| >= |src| && text[|text| - |src|..] == src
  {
    hide Word, IsSpace;
    JoinedStarts(srcs, ts);
    var m := |srcs| - 1;
    assert Reads(srcs[m], ts[m].value, ts[m].fullyQuoted, m == |srcs| - 1);
    JoinedTail(srcs[..m], srcs[m]);
    assert srcs == srcs[..m] + [srcs[m]];
  }

  /** What the last word reads as once its trailing white space is trimmed. */
  function Worn(t: Token): Token {
    if t.value == "" then t else t.(value := t.value[..|t.value| - 1] + ['\\'])
  }

  predicate EndsInSpace(src: string) {
    src != [] && IsSpace(src[|src| - 1])
  }

  /** Trimming the joined words only ever wears down the last one. */
  lemma TrimJoined(srcs: seq<string>, ts: seq<Token>)
    requires AllRead(srcs, ts) && srcs != []
    ensures srcs[|srcs| - 1] != []
    ensures var m := |srcs| - 1;
            if !EndsInSpace(srcs[m]) then Trimmed(Joined(srcs)) == Joined(srcs) else
            var srcs' := srcs[..m] + [srcs[m][..|srcs[m]| - 1]];
            Trimmed(Joined(srcs)) == Joined(srcs') && AllRead(srcs', ts[..m] + [Worn(ts[m])])
            && Worn(ts[m]).value != ts[m].value && !Worn(ts[m]).fullyQuoted && !ts[m].fullyQuoted
  {
    hide Word, IsSpace, Trimmed, Reads, Joined, Worn;
    var m := |srcs| - 1;
    var src, text := srcs[m], Joined(srcs);
    JoinedStartsSolid(srcs, ts);
    TrimKeeps(text);
    assert Reads(src, ts[m].value, ts[m].fullyQuoted, m == |srcs| - 1);
    assert text[|text| - 1] == text[|text| - |src|..][|src| - 1];
    if EndsInSpace(src) {
      WornReads(src, ts[m]);
      assert text[|text| - 2] == text[|text| - |src|..][|src| - 2];
      WornJoined(srcs, src[..|src| - 1], src[|src| - 1]);
      WornRead(srcs, ts, src[..|src| - 1]);
    }
  }

  lemma WornJoined(srcs: seq<string>, cut: string, c: char)
    requires srcs != [] && srcs[|srcs| - 1] == cut + [c]
    ensures Joined(srcs) == Joined(srcs[..|srcs| - 1] + [cut]) + [c]
  {
    hide Joined;
    var m := |srcs| - 1;
    JoinedTail(srcs[..m], srcs[m]);
    JoinedTail(srcs[..m], cut);
    assert srcs == srcs[..m] + [srcs[m]];
  }

  lemma WornRead(srcs: seq<string>, ts: seq<Token>, cut: string)
    requires AllRead(srcs, ts) && srcs != []
    requires var t := Worn(ts[|srcs| - 1]); Reads(cut, t.value, t.fullyQuoted, true)
    ensures AllRead(srcs[..|srcs| - 1] + [cut], ts[..|srcs| - 1] + [Worn(ts[|srcs| - 1])])
  {
    hide Reads, Worn;
    var m := |srcs| - 1;
    var srcs', ts' := srcs[..m] + [cut], ts[..m] + [Worn(ts[m])];
    forall k | 0 <= k < |srcs'| ensures Reads(srcs'[k], ts'[k].value, ts'[k].fullyQuoted, k == |srcs'| - 1) {
      assert k < m ==> Reads(srcs[k], ts[k].value, ts[k].fullyQuoted, k == |srcs| - 1);
    }
  }

  lemma WornReads(src: string, t: Token)
    requires Reads(src, t.value, t.fullyQuoted, true) && EndsInSpace(src)
    ensures |src| > 1 && src[|src| - 2] == '\\' && !IsSpace('\\')
    ensures Reads(src[..|src| - 1], Worn(t).value, Worn(t).fullyQuoted, true)
    ensures Worn(t).value != t.value && !t.fullyQuoted && !Worn(t).fullyQuoted
  {
    hide Word;
    EscapedEnd(src, FRESH);
    assert t.value[|t.value| - 1] != '\\';
    assert Worn(t).value[|t.value| - 1] == '\\';
  }

  /** Every token comes back, in order and with its quoting. Values come back too, except the
      last one's when it is worn: there the backslash of the escape is left in place of what it
      escaped. */
  ghost predicate ComesBack(kept: seq<Token>, again: seq<Token>, worn: bool) {
    && |again| == |kept| && (worn ==> kept != [])
    && (forall k :: 0 <= k < |kept| ==> again[k].fullyQuoted == kept[k].fullyQuoted)
    && (forall k :: 0 <= k < |kept| && !(worn && k == |kept| - 1) ==> again[k].value == kept[k].value)
    && (worn ==> again[|kept| - 1].value == Worn(kept[|kept| - 1]).value != kept[|kept| - 1].value)
  }

  /** Taking ranges out of an input and lexing again is always possible and brings back the
      tokens outside the ranges: all of them exactly, if and only if the source of the last one
      does not end in escaped white space. */
  lemma WithoutRangesKeeps(input: string, ranges: seq<(nat, nat)>)
    requires Lex(input, 0).Some?
    ensures var kept := Outside(Lex(input, 0).value, ranges);
            var worn := kept != [] && EndsInSpace(Slice(input, kept[|kept| - 1]));
            && Lex(WithoutRanges(input, ranges), 0).Some?
            && ComesBack(kept, Lex(WithoutRanges(input, ranges), 0).value, worn)
            && (SameTokens(kept, Lex(WithoutRanges(input, ranges), 0).value) <==> !worn)
  {
    hide Lex, AllRead, Joined, Trimmed, EndsInSpace, ComesBack, SameTokens, Outside;
    assert input[0..] == input;
    LexReads(input, 0);
    var ts := Lex(input, 0).value;
    OutsideReads(input, ts, ranges);
    var kept := Outside(ts, ranges);
    TrimmedComesBack(Slices(input, kept), kept);
  }

  lemma TrimmedComesBack(srcs: seq<string>, kept: seq<Token>)
    requires AllRead(srcs, kept)
    ensures var worn := kept != [] && EndsInSpace(srcs[|kept| - 1]);
            && Lex(Trimmed(Joined(srcs)), 0).Some?
            && ComesBack(kept, Lex(Trimmed(Joined(srcs)), 0).value, worn)
            && (SameTokens(kept, Lex(Trimmed(Joined(srcs)), 0).value) <==> !worn)
  {
    hide Lex, Reads, EndsInSpace, Joined, Trimmed, Worn;
    if kept == [] {
      NothingLeft();
    } else {
      TrimJoined(srcs, kept);
      var m := |kept| - 1;
      if EndsInSpace(srcs[m]) {
        var kept' := kept[..m] + [Worn(kept[m])];
        LexJoined(srcs[..m] + [srcs[m][..|srcs[m]| - 1]], kept', 0);
        WornComesBack(kept, kept', Lex(Trimmed(Joined(srcs)), 0).value);
      } else {
        LexJoined(srcs, kept, 0);
      }
    }
  }

  lemma WornComesBack(kept: seq<Token>, kept': seq<Token>, again: seq<Token>)
    requires kept != [] && kept' == kept[..|kept| - 1] + [Worn(kept[|kept| - 1])] && SameTokens(kept', again)
    requires Worn(kept[|kept| - 1]).value != kept[|kept| - 1].value
    requires !Worn(kept[|kept| - 1]).fullyQuoted && !kept[|kept| - 1].fullyQuoted
    ensures ComesBack(kept, again, true) && !SameTokens(kept, again)
  {
    hide Worn;
    forall k | 0 <= k < |kept| ensures again[k].fullyQuoted == kept[k].fullyQuoted {
      assert again[k].fullyQuoted == kept'[k].fullyQuoted;
    }
    forall k | 0 <= k < |kept| - 1 ensures again[k].value == kept[k].value {
      assert again[k].value == kept'[k].value;
    }
    assert again[|kept| - 1].value == kept'[|kept| - 1].value;
  }

  lemma NothingLeft()
    ensures Joined([]) == "" && Trimmed("") == "" && Lex("", 0) == Some([])
  {
  }

  const UNLIMITED := "--unlimited"

  /** The exception is real: in `\<space> --unlimited` taking out the flag turns a space into a
      backslash. */
  lemma EscapedSpaceLost()
    ensures Lex(['\\', ' ', ' '] + UNLIMITED, 0) == Some([Token(0, 2, " ", false), Token(3, 14, UNLIMITED, false)])
    ensures WithoutRanges(['\\', ' ', ' '] + UNLIMITED, [(3, 14)]) == ['\\']
    ensures Lex(['\\'], 0) == Some([Token(0, 1, ['\\'], false)])
  {
    hide Lex, Trimmed, Reads;
    var input, t, x := ['\\', ' ', ' '] + UNLIMITED, Token(0, 2, " ", false), Token(3, 14, UNLIMITED, false);
    EscapedSpaceLexed();
    assert [t, x][1..] == [x] && [x][1..] == [];
    assert Within(x, [(3, 14)]) by { assert x.start >= [(3, 14)][0].0 && x.end <= [(3, 14)][0].1; }
    assert !Within(t, [(3, 14)]) && Outside([x], [(3, 14)]) == [];
    assert Outside([t, x], [(3, 14)]) == [t];
    assert Slice(input, t) == ['\\', ' '] by { assert input[0..2] == ['\\', ' ']; }
    assert Slices(input, [t]) == [['\\', ' ']];
    TrimKeeps(['\\', ' ']);
    assert ['\\', ' '][..1] == ['\\'];
    LoneBackslash();
    LexAlone(['\\'], ['\\'], false);
  }

  lemma LoneBackslash()
    ensures Reads(['\\'], ['\\'], false, true)
  {
    hide Word;
    var text: string := ['\\'];
    assert "" + ['\\'] == ['\\'] && text[1..] == [];
    WordStep(text, FRESH);
    WordEnds([], Scan(['\\'], None, false, true));
  }

  lemma EscapedSpaceLexed()
    ensures Lex(['\\', ' ', ' '] + UNLIMITED, 0) == Some([Token(0, 2, " ", false), Token(3, 14, UNLIMITED, false)])
  {
    hide Lex, Word, Advance, IsSpace;
    var text: string := ['\\', ' ', ' '] + UNLIMITED;
    var rest: string := [' '] + UNLIMITED;
    EscapedSpaceRead();
    FlagLexed();
    LexStep(text, 0);
    assert text[0..] == text && text[2..] == rest;
    WordStep(text, FRESH);
    WordEnds(rest, Scan(" ", None, false, true));
    assert [Token(0, 2, " ", false)] + [Token(3, 14, UNLIMITED, false)]
        == [Token(0, 2, " ", false), Token(3, 14, UNLIMITED, false)];
  }

  lemma EscapedSpaceRead()
    ensures var text: string := ['\\', ' ', ' '] + UNLIMITED;
            Spaces(text) == 0 && IsSpace(' ') && Advance(text, FRESH) == (Scan(" ", None, false, true), 2)
  {
    hide IsSpace;
    Blank();
    assert "" + [' '] == " ";
  }

  lemma FlagLexed()
    ensures Lex([' '] + UNLIMITED, 2) == Some([Token(3, 14, UNLIMITED, false)])
  {
    hide Lex, Word, IsSpace;
    var text: string := [' '] + UNLIMITED;
    FlagPlain();
    Blank();
    assert text[0] == ' ' && text[1..] == UNLIMITED && Spaces(UNLIMITED) == 0;
    assert Spaces(text) == 1 + Spaces(text[1..]);
    LexStep(text, 2);
    PlainReads(UNLIMITED, FRESH);
    assert "" + UNLIMITED == UNLIMITED && text[12..] == [];
    EmptyLex(14);
    assert [Token(3, 14, UNLIMITED, false)] + [] == [Token(3, 14, UNLIMITED, false)];
  }

  /** A word without quotes and backslashes stands for itself. */
  lemma {:induction false} PlainReads(text: string, w: Scan)
    requires w.quote.None? && forall k :: 0 <= k < |text| ==>
               !IsSpace(text[k]) && !IsQuote(text[k]) && text[k] != '\\'
    ensures Word(text, w) == (w.(value := w.value + text, bare := w.bare || text != []), |text|)
    decreases |text|
  {
    hide Word, IsSpace;
    if text == [] {
      WordEnds(text, w);
      assert w.value + text == w.value;
    } else {
      WordStep(text, w);
      var w1 := w.(value := w.value + [text[0]], bare := true);
      PlainReads(text[1..], w1);
      assert w.value + text == w1.value + text[1..];
    }
  }

  lemma FlagPlain()
    ensures forall k :: 0 <= k < |UNLIMITED| ==>
              !IsSpace(UNLIMITED[k]) && !IsQuote(UNLIMITED[k]) && UNLIMITED[k] != '\\'
  {
    hide IsSpace, IsQuote;
    forall k | 0 <= k < |UNLIMITED| ensures !IsSpace(UNLIMITED[k]) && !IsQuote(UNLIMITED[k]) && UNLIMITED[k] != '\\' {
      FlagChar(UNLIMITED[k]);
    }
  }

  lemma FlagChar(c: char)
    requires c == '-' || 'a' <= c <= 'z'
    ensures !IsSpace(c) && !IsQuote(c) && c != '\\'
  {
  }

  lemma Blank()
    ensures IsSpace(' ') && !IsSpace('\\')
  {
  }
}
