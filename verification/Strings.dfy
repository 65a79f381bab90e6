/** String searching and replacing, as the standard strings package defines them. */
module Strings {

  predicate IsSpaceChar(c: char) {
    var n := c as int;
    || 0x09 <= n <= 0x0D || n == 0x20 || n == 0x85 || n == 0xA0 || n == 0x1680 || 0x2000 <= n <= 0x200A
    || n == 0x2028 || n == 0x2029 || n == 0x202F || n == 0x205F || n == 0x3000
  }

  /** Nothing remains after trimming white space. */
  predicate IsBlank(s: string) {
    forall i :: 0 <= i < |s| ==> IsSpaceChar(s[i])
  }

  predicate StartsWith(s: string, head: string) {
    |head| <= |s| && s[..|head|] == head
  }

  predicate EndsWith(s: string, tail: string) {
    |tail| <= |s| && s[|s| - |tail|..] == tail
  }

  predicate Contains(s: string, part: string) {
    StartsWith(s, part) || (s != "" && Contains(s[1..], part))
  }

  /** Replaces every occurrence, from the left and without overlaps. */
  function ReplaceAll(s: string, part: string, by_: string): string
    requires part != ""
  {
    if |s| < |part| then s
    else if StartsWith(s, part) then by_ + ReplaceAll(s[|part|..], part, by_)
    else [s[0]] + ReplaceAll(s[1..], part, by_)
  }
}
