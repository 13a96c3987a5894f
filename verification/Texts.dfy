/** Characters and runs of them. */
module Texts {
  predicate IsDigit(c: char) {
    '0' <= c <= '9'
  }

  /** The end of the longest run of characters in `p` from `i`. */
  function RunEnd(s: string, i: nat, p: char -> bool): (end: nat)
    requires i <= |s|
    ensures i <= end <= |s|
    ensures forall j :: i <= j < end ==> p(s[j])
    ensures end < |s| ==> !p(s[end])
    decreases |s| - i
  {
    if i < |s| && p(s[i]) then RunEnd(s, i + 1, p) else i
  }
}
