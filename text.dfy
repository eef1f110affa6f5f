/** Substring search on strings, the meaning of Python's `needle in haystack` for `str`. */
module Text {

  /** True when `needle` occurs somewhere in `haystack` (the empty needle occurs everywhere). */
  predicate Contains(haystack: string, needle: string)
    decreases |haystack|
  {
    needle <= haystack || (haystack != [] && Contains(haystack[1..], needle))
  }

  /** `needle` occurs in `haystack` starting at position `i`. */
  predicate OccursAt(haystack: string, needle: string, i: int)
  {
    0 <= i <= |haystack| - |needle| && haystack[i..i + |needle|] == needle
  }

  /** Contains agrees with the positional definition of an occurrence. */
  lemma {:induction false} ContainsIffOccurs(haystack: string, needle: string)
    ensures Contains(haystack, needle) <==> exists i :: OccursAt(haystack, needle, i)
    decreases |haystack|
  {
    var n := |needle|;
    if needle <= haystack {
      assert OccursAt(haystack, needle, 0);
    } else if haystack != [] {
      var tail := haystack[1..];
      ContainsIffOccurs(tail, needle);
      if Contains(tail, needle) {
        var i :| OccursAt(tail, needle, i);
        forall k | 0 <= k < n
          ensures haystack[i + 1..i + 1 + n][k] == needle[k]
        {
          assert tail[i..i + n][k] == tail[i + k];
        }
        assert haystack[i + 1..i + 1 + n] == needle;
        assert OccursAt(haystack, needle, i + 1);
      }
      if exists i :: OccursAt(haystack, needle, i) {
        var i :| OccursAt(haystack, needle, i);
        assert i > 0;
        forall k | 0 <= k < n
          ensures tail[i - 1..i - 1 + n][k] == needle[k]
        {
          assert haystack[i..i + n][k] == haystack[i + k];
        }
        assert tail[i - 1..i - 1 + n] == needle;
        assert OccursAt(tail, needle, i - 1);
      }
    }
  }
}
