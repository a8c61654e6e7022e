/**
 * The three JavaScript string operations the chat components rely on:
 * `toLowerCase`, `includes` and `trim`. Strings are sequences of characters.
 */
module JsString {

  // ---------------------------------------------------------------------------
  // toLowerCase
  // ---------------------------------------------------------------------------

  /** Lower-cases one character; only the ASCII letters A-Z change. */
  function LowerChar(c: char): char {
    if 'A' <= c <= 'Z' then (c as int - 'A' as int + 'a' as int) as char else c
  }

  /** `s.toLowerCase()`, character by character. */
  function Lower(s: string): (r: string)
    ensures |r| == |s|
    ensures forall i :: 0 <= i < |s| ==> r[i] == LowerChar(s[i])
  {
    if s == [] then [] else [LowerChar(s[0])] + Lower(s[1..])
  }

  predicate IsLowerCase(s: string) {
    forall i :: 0 <= i < |s| ==> !('A' <= s[i] <= 'Z')
  }

  /** Lower-casing an already lower-cased string changes nothing. */
  lemma LowerIdempotent(s: string)
    ensures Lower(Lower(s)) == Lower(s)
  {
  }

  /** The result of Lower holds no upper-case ASCII letter. */
  lemma LowerIsLowerCase(s: string)
    ensures IsLowerCase(Lower(s))
  {
  }

  /** A string with no upper-case ASCII letter is its own lower-case form. */
  lemma LowerOfLowerCase(s: string)
    requires IsLowerCase(s)
    ensures Lower(s) == s
  {
  }

  /** Lower-casing commutes with concatenation. */
  lemma LowerConcat(a: string, b: string)
    ensures Lower(a + b) == Lower(a) + Lower(b)
  {
    assert forall i :: 0 <= i < |a + b| ==> Lower(a + b)[i] == (Lower(a) + Lower(b))[i];
  }

  // ---------------------------------------------------------------------------
  // includes
  // ---------------------------------------------------------------------------

  /** `w` occurs in `s` starting at index `k`. */
  predicate OccursAt(s: string, w: string, k: nat) {
    k + |w| <= |s| && s[k..k + |w|] == w
  }

  /** The reference meaning of `includes`: `w` occurs at some position of `s`. */
  ghost predicate OccursIn(s: string, w: string) {
    exists k: nat :: OccursAt(s, w, k)
  }

  /** `s.includes(w)`: scans the start positions of `s` from left to right. */
  predicate Includes(s: string, w: string): (found: bool)
    ensures found ==> |w| <= |s|
    ensures w == [] ==> found
    decreases |s|
  {
    if |w| > |s| then false
    else if s[..|w|] == w then true
    else Includes(s[1..], w)
  }

  /** Includes agrees with the reference definition: some position holds `w`. */
  lemma {:induction false} IncludesIff(s: string, w: string)
    ensures Includes(s, w) <==> OccursIn(s, w)
    decreases |s|
  {
    if |w| > |s| {
      forall k: nat ensures !OccursAt(s, w, k) { }
    } else if s[..|w|] == w {
      assert OccursAt(s, w, 0);
    } else {
      IncludesIff(s[1..], w);
      if Includes(s[1..], w) {
        var k: nat :| OccursAt(s[1..], w, k);
        assert s[k + 1..k + 1 + |w|] == s[1..][k..k + |w|];
        assert OccursAt(s, w, k + 1);
      } else {
        forall k: nat | OccursAt(s, w, k) ensures false {
          if k > 0 {
            assert s[1..][k - 1..k - 1 + |w|] == s[k..k + |w|];
            assert OccursAt(s[1..], w, k - 1);
          }
        }
      }
    }
  }

  /** A string that occurs in the middle part occurs in the whole. */
  lemma IncludesInside(pre: string, w: string, post: string)
    ensures Includes(pre + w + post, w)
  {
    var s := pre + w + post;
    assert s[|pre|..|pre| + |w|] == w;
    assert OccursAt(s, w, |pre|);
    IncludesIff(s, w);
  }

  /** Every character of a found text occurs in the text searched. */
  lemma IncludesOnlyPresentChars(s: string, w: string, i: nat)
    requires Includes(s, w) && i < |w|
    ensures w[i] in s
  {
    IncludesIff(s, w);
    var k: nat :| OccursAt(s, w, k);
    assert s[k..k + |w|][i] == w[i];
  }

  // ---------------------------------------------------------------------------
  // trim
  // ---------------------------------------------------------------------------

  /** ECMAScript WhiteSpace and LineTerminator code points, the set `trim` removes. */
  predicate IsWhitespace(c: char): (ws: bool)
    ensures ws ==> !('!' <= c <= '~')
  {
    c == '\t' || c == '\n' || c == '\U{B}' || c == '\U{C}' || c == '\r' || c == ' '
    || c == '\U{A0}' || c == '\U{1680}' || ('\U{2000}' <= c <= '\U{200A}')
    || c == '\U{2028}' || c == '\U{2029}' || c == '\U{202F}' || c == '\U{205F}'
    || c == '\U{3000}' || c == '\U{FEFF}'
  }

  /** Number of leading whitespace characters of `s`. */
  function LeadingWhitespace(s: string): (k: nat)
    ensures k <= |s|
    ensures forall i :: 0 <= i < k ==> IsWhitespace(s[i])
    ensures k < |s| ==> !IsWhitespace(s[k])
  {
    if s == [] || !IsWhitespace(s[0]) then 0 else 1 + LeadingWhitespace(s[1..])
  }

  /** Number of trailing whitespace characters of `s`. */
  function TrailingWhitespace(s: string): (k: nat)
    ensures k <= |s|
    ensures forall i :: |s| - k <= i < |s| ==> IsWhitespace(s[i])
    ensures k < |s| ==> !IsWhitespace(s[|s| - 1 - k])
  {
    if s == [] || !IsWhitespace(s[|s| - 1]) then 0 else 1 + TrailingWhitespace(s[..|s| - 1])
  }

  /** `s.trim()`: `s` without its leading and trailing whitespace. */
  function Trim(s: string): (r: string)
    ensures |r| <= |s|
    ensures r != [] ==> !IsWhitespace(r[0]) && !IsWhitespace(r[|r| - 1])
    ensures exists i, j :: 0 <= i <= j <= |s| && r == s[i..j]
                           && (forall k :: 0 <= k < i ==> IsWhitespace(s[k]))
                           && (forall k :: j <= k < |s| ==> IsWhitespace(s[k]))
  {
    var lead := LeadingWhitespace(s);
    if lead == |s| then
      assert s[lead..lead] == [];
      []
    else
      var trail := TrailingWhitespace(s);
      assert trail < |s| - lead by {
        assert !IsWhitespace(s[lead]);
      }
      s[lead..|s| - trail]
  }

  /** `s.trim()` is truthy exactly when `s` holds a non-whitespace character. */
  lemma TrimNonEmptyIff(s: string)
    ensures Trim(s) != [] <==> exists i :: 0 <= i < |s| && !IsWhitespace(s[i])
  {
  }
}
