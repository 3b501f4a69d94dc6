/** Python's `needle in haystack` on strings. */
module Substring {

  /** `needle` occurs in `haystack` starting at index `i`. */
  ghost predicate OccursAt(haystack: string, needle: string, i: nat) {
    i + |needle| <= |haystack| && haystack[i..i + |needle|] == needle
  }

  /** `needle` occurs somewhere in `haystack`. */
  ghost predicate Contains(haystack: string, needle: string) {
    exists i: nat :: OccursAt(haystack, needle, i)
  }

  /** Naive left-to-right search. */
  method Find(haystack: string, needle: string) returns (found: bool)
    ensures found <==> Contains(haystack, needle)
  {
    var i: nat := 0;
    while i + |needle| <= |haystack|
      invariant forall j: nat :: j < i ==> !OccursAt(haystack, needle, j)
      decreases |haystack| - i
    {
      if haystack[i..i + |needle|] == needle {
        assert OccursAt(haystack, needle, i);
        return true;
      }
      i := i + 1;
    }
    found := false;
  }
}
