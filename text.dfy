/**
 * String helpers the activity logger relies on from the JavaScript runtime:
 * `toLowerCase`, `String.prototype.includes` and `lastIndexOf`.
 * Lower-casing is modelled on ASCII letters only; every other character is
 * left unchanged.
 */
module Text {

  /** ASCII lower-casing of one character. */
  function LowerChar(c: char): (r: char)
    ensures 'A' <= c <= 'Z' ==> r as int == c as int + 32
    ensures !('A' <= c <= 'Z') ==> r == c
    ensures !('A' <= r <= 'Z')
  {
    if 'A' <= c <= 'Z' then (c as int + 32) as char else c
  }

  /** `s.toLowerCase()`, restricted to ASCII letters. */
  function Lower(s: string): (r: string)
    ensures |r| == |s|
    ensures forall i :: 0 <= i < |s| ==> r[i] == LowerChar(s[i])
  {
    seq(|s|, i requires 0 <= i < |s| => LowerChar(s[i]))
  }

  /** `p` occurs in `s` starting at index `i`. */
  predicate OccursAt(s: string, p: string, i: int)
  {
    0 <= i && i + |p| <= |s| && s[i..i + |p|] == p
  }

  /** `s.includes(p)`. */
  predicate Contains(s: string, p: string)
  {
    exists i | 0 <= i <= |s| - |p| :: OccursAt(s, p, i)
  }

  /** The last start index `j <= i` at which `p` occurs in `s`, or -1. */
  function LastFrom(s: string, p: string, i: int): (r: int)
    decreases i + 1
    ensures r == -1 || 0 <= r <= i
    ensures r != -1 ==> OccursAt(s, p, r)
    ensures forall j :: r < j <= i ==> !OccursAt(s, p, j)
  {
    if i < 0 then -1
    else if OccursAt(s, p, i) then i
    else LastFrom(s, p, i - 1)
  }

  /** `s.lastIndexOf(p)`: the largest start index of an occurrence of `p`, or -1. */
  function LastIndexOf(s: string, p: string): (r: int)
    ensures -1 <= r && (r == -1 <==> !Contains(s, p))
    ensures r != -1 ==> OccursAt(s, p, r)
    ensures forall j :: r < j ==> !OccursAt(s, p, j)
  {
    LastFrom(s, p, |s| - |p|)
  }

  /** A pattern holding a character that the text lacks does not occur in it. */
  lemma {:induction false} MissingCharNotContained(s: string, p: string, k: nat)
    requires k < |p|
    requires forall i :: 0 <= i < |s| ==> s[i] != p[k]
    ensures !Contains(s, p)
  {
    forall i | 0 <= i <= |s| - |p|
      ensures !OccursAt(s, p, i)
    {
      assert s[i..i + |p|][k] == s[i + k];
    }
  }

  /** An explicit occurrence witnesses containment. */
  lemma OccurrenceContained(s: string, p: string, i: int)
    requires OccursAt(s, p, i)
    ensures Contains(s, p)
  {
  }

  /**
   * The regular expression `/p/i` matching at index `i`, for a pattern written
   * in lower case: each character of `s` there, lower-cased, is the pattern's.
   */
  predicate MatchesIgnoringCaseAt(s: string, p: string, i: int)
  {
    0 <= i && i + |p| <= |s| && forall k :: 0 <= k < |p| ==> LowerChar(s[i + k]) == p[k]
  }

  /** `/p/i.test(s)` for a pattern written in lower case. */
  predicate ContainsIgnoringCase(s: string, p: string)
  {
    exists i | 0 <= i <= |s| - |p| :: MatchesIgnoringCaseAt(s, p, i)
  }

  /** Lower-casing the whole text first finds `p` exactly where a case-blind match does. */
  lemma OccursInLowerIff(s: string, p: string, i: int)
    requires 0 <= i && i + |p| <= |s|
    ensures OccursAt(Lower(s), p, i) <==> MatchesIgnoringCaseAt(s, p, i)
  {
    var window := Lower(s)[i..i + |p|];
    assert forall k :: 0 <= k < |p| ==> window[k] == LowerChar(s[i + k]);
    if MatchesIgnoringCaseAt(s, p, i) {
      assert window == p;
    }
  }

  /** `s.toLowerCase().includes(p)` is a case-blind search for `p`. */
  lemma ContainsLowerIff(s: string, p: string)
    ensures Contains(Lower(s), p) <==> ContainsIgnoringCase(s, p)
  {
    forall i | 0 <= i <= |s| - |p|
      ensures OccursAt(Lower(s), p, i) <==> MatchesIgnoringCaseAt(s, p, i)
    {
      OccursInLowerIff(s, p, i);
    }
  }

  /**
   * When the character `p[k]` appears in `s` only where an occurrence of `p`
   * at `i` puts it, that occurrence is the last one.
   */
  lemma {:induction false} SoleOccurrence(s: string, p: string, k: nat, i: int)
    requires k < |p| && OccursAt(s, p, i)
    requires forall j :: 0 <= j < |s| && s[j] == p[k] ==> j == i + k
    ensures LastIndexOf(s, p) == i
  {
    forall j | i < j && OccursAt(s, p, j)
      ensures s[j + k] == p[k]
    {
      assert s[j..j + |p|][k] == s[j + k];
    }
    assert s[i..i + |p|][k] == s[i + k];
  }
}
