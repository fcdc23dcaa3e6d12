/** `Array.findIndex`. */
module Searching {
  function FirstIndex<T>(s: seq<T>, p: T -> bool): (i: nat)
    ensures i <= |s| && (i < |s| ==> p(s[i]))
    ensures forall k :: 0 <= k < i ==> !p(s[k])
  {
    if s == [] || p(s[0]) then 0 else
    var i := FirstIndex(s[1..], p);
    assert forall k :: 0 < k < 1 + i ==> s[k] == s[1..][k - 1];
    1 + i
  }
}
