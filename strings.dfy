/** The string operations the bot relies on: ASCII lower-casing, substring search and replacement. */
module Strings {

  /** Lower-cases an ASCII capital letter; every other character is returned unchanged. */
  function LowerChar(c: char): char {
    if 'A' <= c <= 'Z' then (c as int + 32) as char else c
  }

  /** ASCII lower-casing of a whole string, character by character. */
  function Lower(s: string): (r: string)
    ensures |r| == |s|
    ensures forall k :: 0 <= k < |r| ==> !('A' <= r[k] <= 'Z')
    ensures forall k :: 0 <= k < |s| && !('A' <= s[k] <= 'Z') ==> r[k] == s[k]
    ensures forall k :: 0 <= k < |s| && 'A' <= s[k] <= 'Z' ==> r[k] as int == s[k] as int + 32
  {
    seq(|s|, k requires 0 <= k < |s| => LowerChar(s[k]))
  }

  /** `p` occurs in `s` at some position (the `in` operator on strings). */
  predicate Contains(s: string, p: string) {
    exists i :: 0 <= i <= |s| && p <= s[i..]
  }

  /**
   * Replaces every occurrence of the non-empty pattern `p` by `r`, scanning left to right
   * and resuming after each replaced occurrence, so occurrences never overlap.
   */
  function Replace(s: string, p: string, r: string): (t: string)
    requires |p| > 0
    ensures |p| <= |r| ==> |s| <= |t|
    ensures |r| <= |p| ==> |t| <= |s|
    ensures p <= s ==> r <= t
    decreases |s|
  {
    if |s| < |p| then s
    else if p <= s then r + Replace(s[|p|..], p, r)
    else [s[0]] + Replace(s[1..], p, r)
  }

  lemma ContainsFits(s: string, p: string)
    requires Contains(s, p)
    ensures |p| <= |s|
  {
    var i :| 0 <= i <= |s| && p <= s[i..];
  }

  /** An occurrence in a suffix is an occurrence in the whole string. */
  lemma ContainsOfSuffix(s: string, n: nat, q: string)
    requires n <= |s| && Contains(s[n..], q)
    ensures Contains(s, q)
  {
    var i :| 0 <= i <= |s[n..]| && q <= s[n..][i..];
    assert s[n..][i..] == s[n + i..];
  }

  /** An occurrence at `j` lies in every suffix that starts at or before `j`. */
  lemma OccurrenceInSuffix(t: string, n: nat, j: nat, q: string)
    requires n <= j <= |t| && q <= t[j..]
    ensures Contains(t[n..], q)
  {
    assert t[n..][j - n..] == t[j..];
  }

  /** Replacing a pattern that does not occur leaves the string as it is. */
  lemma {:induction false} ReplaceWithoutOccurrence(s: string, p: string, r: string)
    requires |p| > 0
    requires !Contains(s, p)
    ensures Replace(s, p, r) == s
    decreases |s|
  {
    if |s| < |p| {
    } else {
      assert s[0..] == s;
      forall i | 0 <= i <= |s[1..]|
        ensures !(p <= s[1..][i..])
      {
        assert s[1..][i..] == s[i + 1..];
      }
      ReplaceWithoutOccurrence(s[1..], p, r);
      assert [s[0]] + s[1..] == s;
    }
  }

  /**
   * A prefix of the result that avoids the pattern's first character, when the replacement
   * starts with that character, was already a prefix of the input.
   */
  lemma {:induction false} PrefixSurvivesReplace(t: string, p: string, r: string, v: string)
    requires |p| > 0 && |r| > 0 && r[0] == p[0]
    requires forall k :: 0 <= k < |v| ==> v[k] != p[0]
    requires v <= Replace(t, p, r)
    ensures v <= t
    decreases |t|
  {
    if |v| == 0 || |t| < |p| {
    } else {
      // the result starts with r[0] == p[0] when t starts with p, and v does not start with p[0]
      assert v[0] == Replace(t, p, r)[0] != p[0];
      assert !(p <= t);
      var rest := Replace(t[1..], p, r);
      assert Replace(t, p, r) == [t[0]] + rest;
      assert v[1..] <= rest;
      PrefixSurvivesReplace(t[1..], p, r, v[1..]);
      assert v == [v[0]] + v[1..];
    }
  }
}
