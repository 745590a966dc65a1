/** Canonical case of a product category: ASCII upper-casing. */
module Casing {

  /** The ASCII lower-case letters 'a'..'z'. */
  predicate IsLower(c: char) {
    'a' <= c <= 'z'
  }

  /** A string already in canonical (upper) case. */
  predicate IsUpperCase(s: string) {
    forall i :: 0 <= i < |s| ==> !IsLower(s[i])
  }

  /** `b` is `a` itself, or the upper-case letter of the lower-case letter `a`. */
  predicate SameLetter(a: char, b: char) {
    a == b || (IsLower(a) && 'A' <= b <= 'Z' && b as int + 32 == a as int)
  }

  function UpperChar(c: char): char {
    if IsLower(c) then (c as int - 32) as char else c
  }

  /** Upper-cases every ASCII letter and keeps every other character. */
  function Upper(s: string): (r: string)
    ensures |r| == |s|
    ensures IsUpperCase(r)
    ensures forall i :: 0 <= i < |s| ==> SameLetter(s[i], r[i])
  {
    if s == [] then [] else [UpperChar(s[0])] + Upper(s[1..])
  }

  /** The strings Upper leaves alone are exactly those already in upper case. */
  lemma UpperFixedPoints(s: string)
    ensures Upper(s) == s <==> IsUpperCase(s)
  {
  }

  /** Normalising a category twice is the same as normalising it once. */
  lemma UpperIdempotent(s: string)
    ensures Upper(Upper(s)) == Upper(s)
  {
  }
}
