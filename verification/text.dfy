/** Java's `String.trim()` and the "null or blank" test the services apply to free-text
    request fields. `trim()` strips every leading and trailing character whose code is at
    most U+0020. */
module Text {
  import opened Results

  predicate IsTrimmable(c: char) { c <= ' ' }

  /** Drops the leading trimmable characters: the result is a suffix of `s`. */
  function TrimStart(s: string): (r: string)
    ensures |r| <= |s| && r == s[|s| - |r|..]
    ensures |r| == 0 || !IsTrimmable(r[0])
    ensures forall i :: 0 <= i < |s| - |r| ==> IsTrimmable(s[i])
    decreases |s|
  {
    if |s| > 0 && IsTrimmable(s[0]) then TrimStart(s[1..]) else s
  }

  /** Drops the trailing trimmable characters: the result is a prefix of `s`. */
  function TrimEnd(s: string): (r: string)
    ensures |r| <= |s| && r == s[..|r|]
    ensures |r| == 0 || !IsTrimmable(r[|r| - 1])
    ensures forall i :: |r| <= i < |s| ==> IsTrimmable(s[i])
    decreases |s|
  {
    if |s| > 0 && IsTrimmable(s[|s| - 1]) then TrimEnd(s[..|s| - 1]) else s
  }

  function Trim(s: string): string
  {
    TrimEnd(TrimStart(s))
  }

  /** `s == null || s.trim().isEmpty()` */
  predicate IsBlank(s: Option<string>)
  {
    s.None? || |Trim(s.value)| == 0
  }

  /** A present string is blank exactly when every one of its characters is trimmable. */
  lemma BlankIffAllTrimmable(s: string)
    ensures IsBlank(Some(s)) <==> forall i :: 0 <= i < |s| ==> IsTrimmable(s[i])
  {
    var t := TrimStart(s);
    if |t| > 0 {
      // the first kept character is not trimmable, so neither side of the iff holds
      assert t[0] == s[|s| - |t|];
      assert |TrimEnd(t)| > 0;
    }
  }
}
