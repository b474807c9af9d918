/** Character and string helpers the server relies on: ASCII case mapping
    (standing in for `toLowerCase` / `toUpperCase`), the capitalisation of a
    keyword, and substring search (standing in for `String.prototype.includes`). */
module Strings {

  /** An ASCII upper-case letter. */
  predicate IsUpperChar(c: char) {
    'A' <= c <= 'Z'
  }

  /** An ASCII lower-case letter. */
  predicate IsLowerChar(c: char) {
    'a' <= c <= 'z'
  }

  /** `toLowerCase` on one character, restricted to ASCII. */
  function LowerChar(c: char): char {
    if IsUpperChar(c) then (c as int + 32) as char else c
  }

  /** `toUpperCase` on one character, restricted to ASCII. */
  function UpperChar(c: char): char {
    if IsLowerChar(c) then (c as int - 32) as char else c
  }

  /** A string with no upper-case letter in it. */
  ghost predicate IsLowerString(s: string) {
    forall i :: 0 <= i < |s| ==> !IsUpperChar(s[i])
  }

  /** Two strings that differ at most in the case of their letters. */
  ghost predicate SameIgnoringCase(a: string, b: string) {
    |a| == |b| && forall i :: 0 <= i < |a| ==> LowerChar(a[i]) == LowerChar(b[i])
  }

  /** `s.toLowerCase()`: every character is lowered, nothing else moves. */
  function ToLower(s: string): (r: string)
    ensures |r| == |s|
    ensures forall i :: 0 <= i < |s| ==> r[i] == LowerChar(s[i])
    ensures IsLowerString(r)
  {
    if |s| == 0 then "" else [LowerChar(s[0])] + ToLower(s[1..])
  }

  /** `w.charAt(0).toUpperCase() + w.slice(1)`: only the case of the first
      character changes, and it is not left lower-case; on the empty string
      both halves are empty. */
  function Capitalize(w: string): (r: string)
    ensures SameIgnoringCase(r, w)
    ensures forall i :: 1 <= i < |w| ==> r[i] == w[i]
    ensures |w| > 0 ==> !IsLowerChar(r[0])
  {
    if |w| == 0 then "" else [UpperChar(w[0])] + w[1..]
  }

  /** The label of a keyword, checked one character against the rest. */
  lemma CapitalizeTo(w: string, tag: string)
    requires |w| > 0 && |tag| == |w|
    requires tag[0] == UpperChar(w[0]) && tag[1..] == w[1..]
    ensures Capitalize(w) == tag
  {
  }

  /** Lowering twice is lowering once. */
  lemma ToLowerIdempotent(s: string)
    ensures ToLower(ToLower(s)) == ToLower(s)
  {
  }

  /** A string and its lowered form differ only in case, so lowering cannot
      tell them apart. */
  lemma ToLowerSameIgnoringCase(a: string, b: string)
    ensures SameIgnoringCase(a, b) <==> ToLower(a) == ToLower(b)
  {
    if ToLower(a) == ToLower(b) {
      assert forall i :: 0 <= i < |a| ==> ToLower(a)[i] == ToLower(b)[i];
    }
  }

  /** Capitalising a lower-case word and lowering it again gives the word
      back, so the label a classifier returns identifies its keyword. */
  lemma CapitalizeRoundTrip(w: string)
    requires IsLowerString(w)
    ensures |Capitalize(w)| == |w|
    ensures ToLower(Capitalize(w)) == w
  {
    if |w| > 0 {
      var c := Capitalize(w);
      assert LowerChar(c[0]) == w[0] by {
        assert c[0] == UpperChar(w[0]);
      }
      forall i | 1 <= i < |w|
        ensures LowerChar(c[i]) == w[i]
      {
        assert c[i] == w[i];
        assert !IsUpperChar(w[i]);
      }
    }
  }

  /** `pat` sits in `text` starting at offset `i`. */
  ghost predicate OccursAt(text: string, pat: string, i: int) {
    0 <= i && i + |pat| <= |text| && text[i..i + |pat|] == pat
  }

  /** `pat` sits in `text` at some offset: what `includes` promises. */
  ghost predicate Occurs(text: string, pat: string) {
    exists i :: OccursAt(text, pat, i)
  }

  /** An occurrence in a non-empty text is at its front or in its tail. */
  lemma OccursFrontOrTail(text: string, pat: string)
    requires |text| > 0
    ensures Occurs(text, pat) <==> OccursAt(text, pat, 0) || Occurs(text[1..], pat)
  {
    if Occurs(text[1..], pat) {
      var j :| OccursAt(text[1..], pat, j);
      assert text[j + 1..j + 1 + |pat|] == text[1..][j..j + |pat|];
      assert OccursAt(text, pat, j + 1);
    }
    if Occurs(text, pat) && !OccursAt(text, pat, 0) {
      var i :| OccursAt(text, pat, i);
      assert i != 0;
      assert text[1..][i - 1..i - 1 + |pat|] == text[i..i + |pat|];
      assert OccursAt(text[1..], pat, i - 1);
    }
  }

  /** `text.includes(pat)`, computed by trying every start offset in turn.
      It holds exactly when `pat` occurs in `text`; in particular the empty
      pattern is found in every text. */
  predicate Contains(text: string, pat: string)
    ensures Contains(text, pat) <==> Occurs(text, pat)
    decreases |text|
  {
    if |pat| <= |text| && text[..|pat|] == pat then
      assert OccursAt(text, pat, 0);
      true
    else if |text| == 0 then
      false
    else
      OccursFrontOrTail(text, pat);
      Contains(text[1..], pat)
  }
}
