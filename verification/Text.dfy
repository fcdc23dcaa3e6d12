/** Characters as the source's `\s` and `trim` see them, and strings as UTF-16 code units. */
module Text {
  newtype Unit = u: int | 0 <= u < 0x1_0000

  /** The UTF-16 code units of a string, on which JavaScript works. */
  function Units(s: string): (u: seq<Unit>)
    ensures |s| <= |u| <= 2 * |s|
  {
    if s == [] then [] else UnitsOf(s[0]) + Units(s[1..])
  }

  /** One unit, or a surrogate pair. */
  function UnitsOf(x: char): (u: seq<Unit>)
    ensures 1 <= |u| <= 2
  {
    var c := x as int;
    if c < 0x1_0000 then [c as Unit]
    else [(0xD800 + (c - 0x1_0000) / 0x400) as Unit, (0xDC00 + (c - 0x1_0000) % 0x400) as Unit]
  }

  predicate IsSpace(c: char) {
    '\t' <= c <= '\r' || c in " \U{00A0}\U{1680}\U{2028}\U{2029}\U{202F}\U{205F}\U{3000}\U{FEFF}"
    || '\U{2000}' <= c <= '\U{200A}'
  }

  function TrimLeft(s: string): string {
    if s != [] && IsSpace(s[0]) then TrimLeft(s[1..]) else s
  }

  function TrimRight(s: string): string {
    if s != [] && IsSpace(s[|s| - 1]) then TrimRight(s[..|s| - 1]) else s
  }

  function Trimmed(s: string): string {
    TrimRight(TrimLeft(s))
  }

  predicate AllSpace(s: string) {
    forall i :: 0 <= i < |s| ==> IsSpace(s[i])
  }

  /** Trimming takes the white space at both ends and nothing else. */
  lemma {:induction false} TrimmedIs(s: string) returns (before: string, after: string)
    ensures s == before + Trimmed(s) + after && AllSpace(before) && AllSpace(after)
    ensures Trimmed(s) != [] ==> !IsSpace(Trimmed(s)[0]) && !IsSpace(Trimmed(s)[|Trimmed(s)| - 1])
  {
    hide IsSpace;
    var left := TrimLeft(s);
    before := LeftIs(s);
    after := RightIs(left);
    var mid := TrimRight(left);
    assert mid != [] ==> mid[0] == left[0];
  }

  lemma {:induction false} LeftIs(s: string) returns (before: string)
    ensures s == before + TrimLeft(s) && AllSpace(before)
    ensures TrimLeft(s) != [] ==> !IsSpace(TrimLeft(s)[0])
    decreases |s|
  {
    hide IsSpace;
    before := [];
    if s != [] && IsSpace(s[0]) {
      var more := LeftIs(s[1..]);
      before := [s[0]] + more;
    }
  }

  lemma {:induction false} RightIs(s: string) returns (after: string)
    ensures s == TrimRight(s) + after && AllSpace(after)
    ensures TrimRight(s) != [] ==> !IsSpace(TrimRight(s)[|TrimRight(s)| - 1])
    decreases |s|
  {
    hide IsSpace;
    after := [];
    if s != [] && IsSpace(s[|s| - 1]) {
      var more := RightIs(s[..|s| - 1]);
      after := more + [s[|s| - 1]];
    }
  }

  /** White space around a text that neither starts nor ends with any is what trimming takes. */
  lemma {:induction false} TrimmedMiddle(before: string, s: string, after: string)
    requires AllSpace(before) && AllSpace(after) && s != [] && !IsSpace(s[0]) && !IsSpace(s[|s| - 1])
    ensures Trimmed(before + s + after) == s
    decreases |before| + |after|
  {
    hide IsSpace;
    var all := before + s + after;
    if before != [] {
      assert all[0] == before[0] && all[1..] == before[1..] + s + after;
      TrimmedMiddle(before[1..], s, after);
    } else {
      assert all[0] == s[0] && all == s + after;
      RightEnds(s, after);
    }
  }

  lemma {:induction false} RightEnds(s: string, after: string)
    requires AllSpace(after) && s != [] && !IsSpace(s[|s| - 1])
    ensures TrimRight(s + after) == s
    decreases |after|
  {
    hide IsSpace;
    var all := s + after;
    if after == [] {
      assert all == s;
    } else {
      assert all[|all| - 1] == after[|after| - 1] && all[..|all| - 1] == s + after[..|after| - 1];
      RightEnds(s, after[..|after| - 1]);
    }
  }

  /** How many white-space characters a text starts with. */
  function Spaces(text: string): (n: nat)
    ensures n <= |text| && (n < |text| ==> !IsSpace(text[n]))
    ensures forall k :: 0 <= k < n ==> IsSpace(text[k])
  {
    if text == [] || !IsSpace(text[0]) then 0 else
    var n := Spaces(text[1..]);
    assert forall k :: 0 < k < 1 + n ==> text[k] == text[1..][k - 1];
    1 + n
  }
}
