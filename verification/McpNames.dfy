/** The names under which tools are exposed: sanitized, at most 64 long, hashed on a clash. */
module McpNames {
  import opened Text

  type Hash = h: nat | h < 0x1_0000_0000

  predicate IsNameChar(c: char) {
    'A' <= c <= 'Z' || 'a' <= c <= 'z' || '0' <= c <= '9' || c == '_' || c == '-'
  }

  function SafeChar(unit: Unit): (c: char)
    ensures IsNameChar(c)
  {
    if unit < 128 && IsNameChar(unit as char) then unit as char else '_'
  }

  function Sanitized(units: seq<Unit>): (s: string)
    ensures |s| == |units| && forall k :: 0 <= k < |s| ==> s[k] == SafeChar(units[k])
  {
    seq(|units|, k requires 0 <= k < |units| => SafeChar(units[k]))
  }

  // ---------------------------------------------------------------- hashing

  function Djb2(units: seq<Unit>): Hash
    decreases |units|
  {
    if units == [] then 5381 else (Djb2(units[..|units| - 1]) * 33 + units[|units| - 1] as int) % 0x1_0000_0000
  }

  /** What a 32-bit shift does to an integer. */
  function ToInt32(n: nat): (i: int)
    ensures i % 0x1_0000_0000 == n % 0x1_0000_0000 && -0x8000_0000 <= i < 0x8000_0000
  {
    var m := n % 0x1_0000_0000;
    if m < 0x8000_0000 then m else m - 0x1_0000_0000
  }

  method Hashed(units: seq<Unit>) returns (h: Hash)
    ensures h == Djb2(units)
  {
    h := 5381;
    for i := 0 to |units|
      invariant h == Djb2(units[..i])
    {
      var shifted := ToInt32(h * 32);
      assert units[..i + 1][..i] == units[..i];
      SameResidue(shifted + h + units[i] as int, h * 33 + units[i] as int, (shifted - h * 32) / 0x1_0000_0000);
      h := (shifted + h + units[i] as int) % 0x1_0000_0000;
    }
    assert units[..|units|] == units;
  }

  lemma SameResidue(a: int, b: int, k: int)
    requires a == b + k * 0x1_0000_0000
    ensures a % 0x1_0000_0000 == b % 0x1_0000_0000
  {
  }

  /** Equal hashes stay equal whatever follows. */
  lemma {:induction false} SameHash(u: seq<Unit>, v: seq<Unit>, rest: seq<Unit>)
    requires Djb2(u) == Djb2(v)
    ensures Djb2(u + rest) == Djb2(v + rest)
    decreases |rest|
  {
    if rest == [] {
      assert u + [] == u && v + [] == v;
    } else {
      var n := |rest| - 1;
      SameHash(u, v, rest[..n]);
      assert (u + rest)[..|u| + n] == u + rest[..n] && (v + rest)[..|v| + n] == v + rest[..n];
    }
  }

  lemma HashOne(u: seq<Unit>, c: Unit)
    ensures Djb2(u + [c]) == (Djb2(u) * 33 + c as int) % 0x1_0000_0000
  {
    assert (u + [c])[..|u|] == u;
  }

  lemma HashTwo(u: seq<Unit>, c: Unit, d: Unit)
    ensures Djb2(u + [c, d]) == (Djb2(u) * 1089 + c as int * 33 + d as int) % 0x1_0000_0000
  {
    hide Djb2;
    HashOne(u, c);
    HashOne(u + [c], d);
    assert u + [c] + [d] == u + [c, d];
    TwoSteps(Djb2(u), c as int, d as int);
  }

  lemma TwoSteps(h: nat, c: nat, d: nat)
    ensures ((h * 33 + c) % 0x1_0000_0000 * 33 + d) % 0x1_0000_0000 == (h * 1089 + c * 33 + d) % 0x1_0000_0000
  {
    var a := h * 33 + c;
    SameResidue(a * 33 + d, a % 0x1_0000_0000 * 33 + d, 33 * (a / 0x1_0000_0000));
  }

  /** Any two units clash with the pair one above and 33 below, anywhere in a string. */
  lemma NeighboursClash(before: seq<Unit>, c: Unit, d: Unit, after: seq<Unit>)
    requires c < 0xFFFF && d >= 33
    ensures Djb2(before + [c, d] + after) == Djb2(before + [c + 1, d - 33] + after)
  {
    HashTwo(before, c, d);
    HashTwo(before, c + 1, d - 33);
    SameHash(before + [c, d], before + [c + 1, d - 33], after);
  }

  // ---------------------------------------------------------------- base 36

  function Digit(d: nat): (c: char)
    requires d < 36
    ensures IsNameChar(c) && c != '_'
  {
    if d < 10 then '0' + d as char else 'a' + (d - 10) as char
  }

  function Base36(n: nat): (s: string)
    ensures |s| > 0 && forall k :: 0 <= k < |s| ==> IsNameChar(s[k]) && s[k] != '_'
  {
    if n < 36 then [Digit(n)] else Base36(n / 36) + [Digit(n % 36)]
  }

  function DigitValue(c: char): int {
    if '0' <= c <= '9' then c as int - '0' as int else c as int - 'a' as int + 10
  }

  /** The number a numeral in base 36 stands for. */
  function Read36(s: string): int {
    if s == [] then 0 else Read36(s[..|s| - 1]) * 36 + DigitValue(s[|s| - 1])
  }

  lemma {:induction false} Base36Reads(n: nat)
    ensures Read36(Base36(n)) == n
  {
    var s := Base36(n);
    if n >= 36 {
      Base36Reads(n / 36);
      assert s[..|s| - 1] == Base36(n / 36);
    } else {
      assert s[..|s| - 1] == [];
    }
  }

  /** A known value: the hash of `s.[`, a null and `t`. */
  lemma KnownHash()
    ensures Djb2([115, 46, 91, 0, 116]) == 272285461
  {
    hide Djb2;
    KnownStart();
    HashOne([115, 46, 91], 0);
    HashOne([115, 46, 91, 0], 116);
    assert [115, 46, 91] + [0] == [115, 46, 91, 0] && [115, 46, 91, 0] + [116] == [115, 46, 91, 0, 116];
    assert Djb2([115, 46, 91, 0]) == 2_090_659_457;
  }

  lemma KnownStart()
    ensures Djb2([115, 46, 91]) == 193_503_841
  {
    var empty: seq<Unit> := [];
    assert Djb2(empty) == 5381;
    hide Djb2;
    HashOne(empty, 115);
    HashOne([115], 46);
    HashOne([115, 46], 91);
    assert empty + [115] == [115] && [115] + [46] == [115, 46] && [115, 46] + [91] == [115, 46, 91];
    assert Djb2([115]) == 177_688 && Djb2([115, 46]) == 5_863_750;
  }

  lemma {:induction false} SameDigits(m: nat, n: nat)
    requires Base36(m) == Base36(n)
    ensures m == n
  {
    var a, b := Base36(m), Base36(n);
    assert a[|a| - 1] == b[|b| - 1];
    if m >= 36 && n >= 36 {
      assert a[..|a| - 1] == Base36(m / 36) && b[..|b| - 1] == Base36(n / 36);
      SameDigits(m / 36, n / 36);
    }
  }

  /** A 32-bit hash has at most seven digits. */
  lemma SevenDigits(h: Hash)
    ensures |Base36(h)| <= 7
  {
    var h1 := h / 36;
    var h2 := h1 / 36;
    var h3 := h2 / 36;
    var h4 := h3 / 36;
    var h5 := h4 / 36;
    var h6 := h5 / 36;
    assert h6 < 2;
    assert |Base36(h6)| == 1;
    assert |Base36(h5)| <= 2;
    assert |Base36(h4)| <= 3;
    assert |Base36(h3)| <= 4;
    assert |Base36(h2)| <= 5;
    assert |Base36(h1)| <= 6;
  }

  // ---------------------------------------------------------------- names

  function HashSuffix(hash: Hash): (s: string)
    ensures 2 <= |s| <= 8 && s[0] == '_' && forall k :: 0 < k < |s| ==> IsNameChar(s[k]) && s[k] != '_'
  {
    SevenDigits(hash);
    ['_'] + Base36(hash)
  }

  /** `slice(0, n)`. */
  function Cut(s: string, n: nat): string {
    if |s| <= n then s else s[..n]
  }

  function WithHashSuffix(sanitized: string, hash: Hash): string {
    Cut(sanitized, 64 - |HashSuffix(hash)|) + HashSuffix(hash)
  }

  function RawName(server: string, tool: string): string {
    ['m', 'c', 'p', '_', '_'] + server + ['_', '_'] + tool
  }

  function McpToolName(server: string, tool: string): string {
    var raw := Units(RawName(server, tool));
    var sanitized := Sanitized(raw);
    if |sanitized| <= 64 then sanitized else WithHashSuffix(sanitized, Djb2(raw))
  }

  function HashKey(server: string, tool: string): seq<Unit> {
    Units(server + ['\0'] + tool)
  }

  /** The name of a tool whose readable name is taken. */
  function HashedName(server: string, tool: string): string {
    WithHashSuffix(McpToolName(server, tool), Djb2(HashKey(server, tool)))
  }

  /** What hosted providers accept: `^[a-zA-Z0-9_-]+$`, at most 64 characters. */
  predicate ProviderName(name: string) {
    1 <= |name| <= 64 && forall k :: 0 <= k < |name| ==> IsNameChar(name[k])
  }

  /** A tool is exposed under its readable name or the hashed one. */
  predicate NameOf(name: string, server: string, tool: string) {
    name == McpToolName(server, tool) || name == HashedName(server, tool)
  }

  /** Names that are fine already are kept readable as long as they fit. */
  lemma ReadableKept(server: string, tool: string)
    requires forall c :: c in server + tool ==> IsNameChar(c)
    ensures var raw := RawName(server, tool);
            McpToolName(server, tool) == raw <==> |raw| <= 64
  {
    var raw := RawName(server, tool);
    forall k | 0 <= k < |raw| ensures IsNameChar(raw[k]) {
      if |server| + 7 <= k { LaterChar(server, tool, k); }
      assert 5 <= k < |server| + 5 ==> raw[k] == (server + tool)[k - 5];
    }
    PlainUnits(raw);
    hide Units, HashSuffix, Djb2;
    assert Sanitized(Units(raw)) == raw;
    SuffixAccepted(raw, Djb2(Units(raw)));
  }

  lemma LaterChar(server: string, tool: string, k: nat)
    requires |server| + 7 <= k < |RawName(server, tool)|
    ensures RawName(server, tool)[k] in server + tool
  {
    assert RawName(server, tool)[k] == tool[k - |server| - 7] == (server + tool)[k - 7];
  }

  lemma {:induction false} PlainUnits(s: string)
    requires forall k :: 0 <= k < |s| ==> IsNameChar(s[k])
    ensures |Units(s)| == |s| && forall k :: 0 <= k < |s| ==> SafeChar(Units(s)[k]) == s[k]
    decreases |s|
  {
    if s != [] {
      PlainUnits(s[1..]);
      assert UnitsOf(s[0]) == [s[0] as int as Unit];
    }
  }

  /** Whatever a server and its tools are called, providers accept the exposed names. */
  lemma NamesAccepted(server: string, tool: string, name: string)
    requires NameOf(name, server, tool)
    ensures ProviderName(name)
  {
    hide Units, Djb2, HashSuffix;
    var raw := Units(RawName(server, tool));
    SuffixAccepted(Sanitized(raw), Djb2(raw));
    SuffixAccepted(McpToolName(server, tool), Djb2(HashKey(server, tool)));
  }

  lemma SuffixAccepted(s: string, hash: Hash)
    requires forall k :: 0 <= k < |s| ==> IsNameChar(s[k])
    ensures ProviderName(WithHashSuffix(s, hash))
  {
  }

  /** Two suffixed names are equal only if the hashes are. */
  lemma SuffixedEqualIff(a: string, h: Hash, b: string, k: Hash)
    ensures WithHashSuffix(a, h) == WithHashSuffix(b, k)
       <==> h == k && Cut(a, 64 - |HashSuffix(h)|) == Cut(b, 64 - |HashSuffix(h)|)
  {
    if WithHashSuffix(a, h) == WithHashSuffix(b, k) {
      var x, y := Cut(a, 64 - |HashSuffix(h)|), Cut(b, 64 - |HashSuffix(k)|);
      SplitAtSuffix(x, HashSuffix(h), y, HashSuffix(k));
      assert Base36(h) == HashSuffix(h)[1..] && Base36(k) == HashSuffix(k)[1..];
      SameDigits(h, k);
    }
  }

  lemma SplitAtSuffix(x: string, s: string, y: string, t: string)
    requires x + s == y + t && |s| > 0 && |t| > 0 && s[0] == '_' && t[0] == '_'
    requires forall k :: 0 < k < |s| ==> s[k] != '_'
    requires forall k :: 0 < k < |t| ==> t[k] != '_'
    ensures x == y && s == t
  {
    LastMark(x, s, y, t);
    LastMark(y, t, x, s);
    var all := x + s;
    assert x == all[..|x|] && y == all[..|y|] && s == all[|x|..] && t == all[|y|..];
  }

  lemma LastMark(x: string, s: string, y: string, t: string)
    requires x + s == y + t && |t| > 0 && t[0] == '_' && forall k :: 0 < k < |s| ==> s[k] != '_'
    ensures |y| <= |x|
  {
    assert (y + t)[|y|] == '_';
    assert forall i :: |x| < i < |x| + |s| ==> (x + s)[i] == s[i - |x|];
  }

  // ---------------------------------------------------------------- clashes

  /** Three texts that sanitize alike, of which the last two hash alike. */
  const BARS := ['_', '_']
  const DOT := ['.', '[']
  const SLASH := ['/', ':']

  lemma {:induction false} UnitsAppend(s: string, t: string)
    ensures Units(s + t) == Units(s) + Units(t)
    decreases |s|
  {
    hide Units, UnitsOf;
    UnitsFirst(s);
    if s == [] {
      assert s + t == t && [] + Units(t) == Units(t);
    } else {
      UnitsFirst(s + t);
      UnitsAppend(s[1..], t);
      assert (s + t)[0] == s[0] && (s + t)[1..] == s[1..] + t;
    }
  }

  lemma UnitsFirst(s: string)
    ensures Units(s) == if s == [] then [] else UnitsOf(s[0]) + Units(s[1..])
  {
  }

  lemma UnitsInside(before: string, mid: string, after: string)
    ensures Units(before + mid + after) == Units(before) + Units(mid) + Units(after)
  {
    UnitsAppend(before + mid, after);
    UnitsAppend(before, mid);
  }

  lemma UnitsOfTwo(c: char, d: char)
    requires c < 128 as char && d < 128 as char
    ensures Units([c, d]) == [c as Unit, d as Unit]
  {
    assert [c, d][1..] == [d] && [d][1..] == [];
    assert Units([d]) == [d as Unit] + Units([]);
  }

  lemma SameReadable(before: string, after: string)
    ensures Sanitized(Units(before + DOT + after)) == Sanitized(Units(before + BARS + after))
         == Sanitized(Units(before + SLASH + after))
    ensures |Units(before + DOT + after)| <= 2 * (|before| + 2 + |after|)
  {
    UnitsInside(before, DOT, after);
    UnitsInside(before, BARS, after);
    UnitsInside(before, SLASH, after);
    UnitsOfTwo('.', '[');
    UnitsOfTwo('_', '_');
    UnitsOfTwo('/', ':');
    hide Units;
    AllBars(Units(before), Units(after), Units(BARS), Units(DOT));
    AllBars(Units(before), Units(after), Units(BARS), Units(SLASH));
  }

  lemma AllBars(before: seq<Unit>, after: seq<Unit>, u: seq<Unit>, v: seq<Unit>)
    requires |u| == |v| && forall k :: 0 <= k < |u| ==> SafeChar(u[k]) == SafeChar(v[k])
    ensures Sanitized(before + u + after) == Sanitized(before + v + after)
  {
  }

  lemma SameKey(before: string, after: string)
    ensures Djb2(Units(before + DOT + after)) == Djb2(Units(before + SLASH + after))
  {
    UnitsInside(before, DOT, after);
    UnitsInside(before, SLASH, after);
    UnitsOfTwo('.', '[');
    UnitsOfTwo('/', ':');
    NeighboursClash(Units(before), 46, 91, Units(after));
  }

  /** Three tools share their readable name, and two of them the hashed one. */
  predicate Rivals(a: (string, string), b: (string, string), c: (string, string)) {
    && McpToolName(a.0, a.1) == McpToolName(b.0, b.1) == McpToolName(c.0, c.1)
    && HashedName(b.0, b.1) == HashedName(c.0, c.1) != McpToolName(a.0, a.1)
  }

  lemma RivalTools(server: string, tool: string)
    requires |server| + |tool| <= 19
    ensures Rivals((server, tool + BARS), (server, tool + DOT), (server, tool + SLASH))
  {
    hide Units, Djb2, Sanitized, HashSuffix;
    var before := RawName(server, tool);
    assert forall v :: RawName(server, tool + v) == before + v + [];
    SameReadable(before, []);
    SameKey(server + ['\0'] + tool, []);
    assert forall v :: server + ['\0'] + (tool + v) == server + ['\0'] + tool + v + [];
  }

  lemma RivalServers(server: string, tool: string)
    requires |server| + |tool| <= 19
    ensures Rivals((server + BARS, tool), (server + DOT, tool), (server + SLASH, tool))
  {
    hide Units, Djb2, Sanitized, HashSuffix;
    var before, after := ['m', 'c', 'p', '_', '_'] + server, ['_', '_'] + tool;
    assert forall v :: RawName(server + v, tool) == before + v + after;
    SameReadable(before, after);
    SameKey(server, ['\0'] + tool);
    assert forall v :: server + v + ['\0'] + tool == server + v + (['\0'] + tool);
  }
}
