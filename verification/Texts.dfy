/** Trimming, for whatever a language takes for white space. */
module Texts {

  /** The text without the white space at both ends. */
  function Trim(s: string, space: char -> bool): (r: string)
    decreases |s|
  {
    if s == "" then ""
    else if space(s[0]) then Trim(s[1..], space)
    else if space(s[|s| - 1]) then Trim(s[..|s| - 1], space)
    else s
  }

  /** Only white space goes, all of it at both ends, and nothing else. */
  lemma {:induction false} TrimExactly(s: string, space: char -> bool) returns (i: nat, j: nat)
    ensures i <= j <= |s| && Trim(s, space) == s[i..j]
    ensures forall k :: 0 <= k < i || j <= k < |s| ==> space(s[k])
    ensures i < j ==> !space(s[i]) && !space(s[j - 1])
    decreases |s|
  {
    if s == "" {
      i, j := 0, 0;
    } else if space(s[0]) {
      var a, b := TrimExactly(s[1..], space);
      i, j := a + 1, b + 1;
      assert s[i..j] == s[1..][a..b];
    } else if space(s[|s| - 1]) {
      i, j := TrimExactly(s[..|s| - 1], space);
      assert s[..|s| - 1][i..j] == s[i..j];
    } else {
      i, j := 0, |s|;
      assert s[0..|s|] == s;
    }
  }
}
