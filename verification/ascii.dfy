/**
  ASCII case mapping. `String.prototype.toUpperCase` is modelled on the
  ASCII letters only: every other character is left as it is.
*/
module Ascii {

  predicate IsLower(c: char) {
    'a' <= c <= 'z'
  }

  /** The upper-case form of one character: `a`..`z` move to `A`..`Z`. */
  function UpperChar(c: char): (u: char)
    ensures IsLower(c) ==> 'A' <= u <= 'Z' && u as int == c as int - 32
    ensures !IsLower(c) ==> u == c
    ensures !IsLower(u)
  {
    if IsLower(c) then (c as int - 32) as char else c
  }

  /** The string upper-cased character by character. */
  function ToUpper(s: string): (r: string)
    ensures |r| == |s|
    ensures forall i :: 0 <= i < |s| ==> r[i] == UpperChar(s[i])
  {
    if s == [] then [] else [UpperChar(s[0])] + ToUpper(s[1..])
  }

  /** A string that upper-casing leaves alone: it has no lower-case letter. */
  predicate IsUpper(s: string) {
    forall i :: 0 <= i < |s| ==> !IsLower(s[i])
  }

  /**
    Two characters are the same up to case: equal, or one is a lower-case
    letter and the other its capital.
  */
  predicate SameIgnoringCase(c: char, d: char) {
    c == d
    || (IsLower(c) && d as int == c as int - 32)
    || (IsLower(d) && c as int == d as int - 32)
  }

  /** Two strings are the same up to ASCII case, position by position. */
  predicate EqualIgnoringCase(a: string, b: string) {
    |a| == |b| && forall i :: 0 <= i < |a| ==> SameIgnoringCase(a[i], b[i])
  }

  /** Upper-casing always yields an upper-case string. */
  lemma ToUpperIsUpper(s: string)
    ensures IsUpper(ToUpper(s))
  {
    forall i | 0 <= i < |s| ensures !IsLower(ToUpper(s)[i]) {
      assert ToUpper(s)[i] == UpperChar(s[i]);
    }
  }

  /** An upper-case string is its own upper-case form. */
  lemma ToUpperFixesUpper(s: string)
    requires IsUpper(s)
    ensures ToUpper(s) == s
  {
    assert forall i :: 0 <= i < |s| ==> ToUpper(s)[i] == s[i];
  }

  /** Upper-casing twice is upper-casing once. */
  lemma ToUpperIdempotent(s: string)
    ensures ToUpper(ToUpper(s)) == ToUpper(s)
  {
    ToUpperIsUpper(s);
    ToUpperFixesUpper(ToUpper(s));
  }

  /** Two characters have the same capital exactly when they are the same up to case. */
  lemma UpperCharAgrees(c: char, d: char)
    ensures UpperChar(c) == UpperChar(d) <==> SameIgnoringCase(c, d)
  {
  }

  /** Two strings upper-case alike exactly when they are the same up to case. */
  lemma ToUpperAgrees(a: string, b: string)
    ensures ToUpper(a) == ToUpper(b) <==> EqualIgnoringCase(a, b)
  {
    if ToUpper(a) == ToUpper(b) {
      forall i | 0 <= i < |a| ensures SameIgnoringCase(a[i], b[i]) {
        assert ToUpper(a)[i] == ToUpper(b)[i];
        UpperCharAgrees(a[i], b[i]);
      }
    }
    if EqualIgnoringCase(a, b) {
      forall i | 0 <= i < |a| ensures ToUpper(a)[i] == ToUpper(b)[i] {
        UpperCharAgrees(a[i], b[i]);
      }
    }
  }

  /**
    Upper-casing a string gives the upper-case string `u` exactly when the
    string is `u` up to case.
  */
  lemma ToUpperIsIff(s: string, u: string)
    requires IsUpper(u)
    ensures ToUpper(s) == u <==> EqualIgnoringCase(s, u)
  {
    ToUpperFixesUpper(u);
    ToUpperAgrees(s, u);
  }
}
