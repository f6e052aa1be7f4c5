/**
 * The two string operations of Rust's `str` that the banner choice in
 * src/main.rs relies on: `to_lowercase` (over ASCII letters only) and
 * substring search with `contains`.
 */
module Ascii {

  predicate IsUpper(c: char) {
    'A' <= c <= 'Z'
  }

  /** Lowercase one character: 'A'..'Z' go to 'a'..'z', every other character is kept. */
  function LowerChar(c: char): (d: char)
    ensures !IsUpper(d)
    ensures IsUpper(c) ==> d as int == c as int + ('a' as int - 'A' as int)
    ensures !IsUpper(c) ==> d == c
  {
    if IsUpper(c) then (c as int - 'A' as int + 'a' as int) as char else c
  }

  /** The model of `str::to_lowercase`: every character lowercased, in place. */
  function ToLower(s: string): (r: string)
    ensures |r| == |s|
    ensures forall i :: 0 <= i < |s| ==> r[i] == LowerChar(s[i])
    ensures forall i :: 0 <= i < |r| ==> !IsUpper(r[i])
  {
    if s == [] then [] else [LowerChar(s[0])] + ToLower(s[1..])
  }

  /**
   * Reference definition of case-insensitive equality, character by
   * character, independent of `ToLower`.
   */
  predicate EqualsIgnoringCase(a: string, b: string) {
    |a| == |b| && forall i :: 0 <= i < |a| ==> LowerChar(a[i]) == LowerChar(b[i])
  }

  /** A string without capitals is its own lowercase form. */
  lemma ToLowerOfLower(s: string)
    requires forall i :: 0 <= i < |s| ==> !IsUpper(s[i])
    ensures ToLower(s) == s
  {
  }

  /** Lowercasing is idempotent. */
  lemma ToLowerIdempotent(s: string)
    ensures ToLower(ToLower(s)) == ToLower(s)
  {
  }

  /** Lowercasing commutes with taking a slice. */
  lemma ToLowerSlice(s: string, i: nat, j: nat)
    requires i <= j <= |s|
    ensures ToLower(s)[i..j] == ToLower(s[i..j])
  {
    var l, m := ToLower(s)[i..j], ToLower(s[i..j]);
    forall k | 0 <= k < |l| ensures l[k] == m[k] {
      assert s[i..j][k] == s[i + k];
    }
  }

  /** Two strings have the same lowercase form exactly when they agree ignoring case. */
  lemma ToLowerEqualIff(a: string, b: string)
    ensures ToLower(a) == ToLower(b) <==> EqualsIgnoringCase(a, b)
  {
  }
}

module Search {
  import opened Ascii

  /** `pat` occurs in `s` starting at index `i`. */
  predicate OccursAt(s: string, pat: string, i: nat) {
    i + |pat| <= |s| && s[i..i + |pat|] == pat
  }

  /**
   * The model of `str::contains` with a string pattern: the pattern occurs as
   * a contiguous substring somewhere (the empty pattern occurs everywhere).
   */
  function Contains(s: string, pat: string): (b: bool)
    ensures b <==> exists i: nat :: OccursAt(s, pat, i)
    decreases |s|
  {
    if |s| < |pat| then false
    else if s[..|pat|] == pat then
      assert OccursAt(s, pat, 0);
      true
    else
      OccursAfterFirst(s, pat);
      Contains(s[1..], pat)
  }

  /** An occurrence past index 0 is an occurrence in the tail, one index earlier. */
  lemma OccursAfterFirst(s: string, pat: string)
    requires s != []
    ensures forall i: nat :: OccursAt(s, pat, i + 1) <==> OccursAt(s[1..], pat, i)
    ensures (exists i: nat :: OccursAt(s, pat, i)) <==>
            OccursAt(s, pat, 0) || exists i: nat :: OccursAt(s[1..], pat, i)
  {
    forall i: nat ensures OccursAt(s, pat, i + 1) <==> OccursAt(s[1..], pat, i) {
      if i + 1 + |pat| <= |s| {
        assert s[1..][i..i + |pat|] == s[i + 1..i + 1 + |pat|];
      }
    }
    if i: nat :| OccursAt(s, pat, i) {
      if i > 0 {
        assert OccursAt(s[1..], pat, i - 1);
      }
    }
  }

  /**
   * Reference definition of a case-insensitive substring test: some
   * window of `s` of the pattern's length equals the pattern ignoring case.
   */
  ghost predicate ContainsIgnoringCase(s: string, pat: string) {
    exists i: nat :: OccursIgnoringCaseAt(s, pat, i)
  }

  /** The window of `s` at index `i` equals `pat` ignoring case. */
  predicate OccursIgnoringCaseAt(s: string, pat: string, i: nat) {
    i + |pat| <= |s| && EqualsIgnoringCase(s[i..i + |pat|], pat)
  }

  /**
   * Searching the lowercased string for a lowercase pattern is the
   * case-insensitive substring test.
   */
  lemma ContainsLowerIff(s: string, pat: string)
    requires ToLower(pat) == pat
    ensures Contains(ToLower(s), pat) <==> ContainsIgnoringCase(s, pat)
  {
    var ls := ToLower(s);
    forall i: nat ensures OccursAt(ls, pat, i) <==> OccursIgnoringCaseAt(s, pat, i) {
      if i + |pat| <= |s| {
        ToLowerSlice(s, i, i + |pat|);
        ToLowerEqualIff(s[i..i + |pat|], pat);
      }
    }
  }
}
