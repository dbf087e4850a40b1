/**
 * Case folding as the user lookups need it: `str.lower()` on the e-mail that
 * is stored, and `ilike` for the duplicate checks, both over ASCII letters.
 */
module Text {

  function LowerChar(c: char): (r: char)
    ensures 'A' <= c <= 'Z' ==> r as int == c as int + 32
    ensures !('A' <= c <= 'Z') ==> r == c
    ensures !('A' <= r <= 'Z')
  {
    if 'A' <= c <= 'Z' then (c as int + 32) as char else c
  }

  /** The string with every ASCII capital replaced by its small letter. */
  function Lower(s: string): (r: string)
    ensures |r| == |s|
    ensures forall i :: 0 <= i < |s| ==> r[i] == LowerChar(s[i])
  {
    if s == [] then [] else [LowerChar(s[0])] + Lower(s[1..])
  }

  /** The string has no ASCII capital. */
  predicate IsLower(s: string) {
    forall i :: 0 <= i < |s| ==> !('A' <= s[i] <= 'Z')
  }

  /** `a ilike b` for a pattern `b` without wildcards. */
  predicate EqualsIgnoreCase(a: string, b: string) {
    Lower(a) == Lower(b)
  }

  lemma {:induction false} LowerIsLower(s: string)
    ensures IsLower(Lower(s))
  {
    if s != [] {
      LowerIsLower(s[1..]);
    }
  }

  /** Lower-casing a string that has no capital leaves it as it is. */
  lemma {:induction false} LowerOfLower(s: string)
    requires IsLower(s)
    ensures Lower(s) == s
  {
    if s != [] {
      assert IsLower(s[1..]) by {
        forall i | 0 <= i < |s[1..]| ensures !('A' <= s[1..][i] <= 'Z') {
          assert s[1..][i] == s[i + 1];
        }
      }
      LowerOfLower(s[1..]);
    }
  }

  /** For a string stored lower-cased, `ilike` is plain equality with the lower-cased probe. */
  lemma StoredLowerMatches(stored: string, probe: string)
    requires IsLower(stored)
    ensures EqualsIgnoreCase(stored, probe) <==> stored == Lower(probe)
  {
    LowerOfLower(stored);
  }
}
