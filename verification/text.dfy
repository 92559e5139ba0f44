/** Character-level text helpers: the ASCII part of JavaScript's
    `String.prototype.toUpperCase`, and the case-insensitive equality it
    induces. */
module Text {

  predicate IsLower(c: char) {
    'a' <= c <= 'z'
  }

  predicate IsUpper(c: char) {
    'A' <= c <= 'Z'
  }

  /** Upper-cases one ASCII letter; every other character is returned as is. */
  function UpperChar(c: char): (u: char)
    ensures !IsLower(u)
    ensures IsLower(c) ==> IsUpper(u) && u as int + 32 == c as int
    ensures !IsLower(c) ==> u == c
  {
    if IsLower(c) then (c as int - 32) as char else c
  }

  /** `s.toUpperCase()`, position by position. */
  function ToUpper(s: string): (r: string)
    ensures |r| == |s|
    ensures forall i :: 0 <= i < |s| ==> r[i] == UpperChar(s[i])
  {
    if s == [] then [] else [UpperChar(s[0])] + ToUpper(s[1..])
  }

  /** Reference definition for one position: the same character, or an
      ASCII lower-case letter and the upper-case letter 32 code points
      below it, in either order. */
  predicate SameLetterIgnoringCase(x: char, y: char) {
    || x == y
    || (IsLower(x) && y as int + 32 == x as int)
    || (IsLower(y) && x as int + 32 == y as int)
  }

  /** Reference definition: the two strings agree letter by letter once the
      case of ASCII letters is ignored. */
  predicate EqualIgnoringCase(a: string, b: string) {
    |a| == |b| && forall i :: 0 <= i < |a| ==> SameLetterIgnoringCase(a[i], b[i])
  }

  /** Upper-casing two characters gives the same character exactly when
      they are the same letter up to case. */
  lemma UpperCharEqualIffSameLetter(x: char, y: char)
    ensures UpperChar(x) == UpperChar(y) <==> SameLetterIgnoringCase(x, y)
  {
  }

  /** Comparing upper-cased copies is exactly case-insensitive equality. */
  lemma UpperEqualIffEqualIgnoringCase(a: string, b: string)
    ensures ToUpper(a) == ToUpper(b) <==> EqualIgnoringCase(a, b)
  {
    forall i | 0 <= i < |a| && i < |b|
      ensures UpperChar(a[i]) == UpperChar(b[i]) <==> SameLetterIgnoringCase(a[i], b[i])
    {
      UpperCharEqualIffSameLetter(a[i], b[i]);
    }
    if |a| == |b| && ToUpper(a) != ToUpper(b) {
      var i :| 0 <= i < |a| && ToUpper(a)[i] != ToUpper(b)[i];
    }
  }

  /** Upper-casing twice is upper-casing once. */
  lemma ToUpperIdempotent(s: string)
    ensures ToUpper(ToUpper(s)) == ToUpper(s)
  {
  }
}
