/**
 * The third and fourth cleanup steps: `.replace(/[“”]/g, '"')` and
 * `.replace(/[‘’]/g, "'")`. A global replace of a one-character class scans
 * the text character by character and substitutes every member of the class.
 */
module Quotes {

  /** U+201C LEFT DOUBLE QUOTATION MARK and U+201D RIGHT DOUBLE QUOTATION MARK. */
  const CurlyDouble: set<char> := {'\U{201C}', '\U{201D}'}

  /** U+2018 LEFT SINGLE QUOTATION MARK and U+2019 RIGHT SINGLE QUOTATION MARK. */
  const CurlySingle: set<char> := {'\U{2018}', '\U{2019}'}

  /** `s` has no character of `cls`. */
  predicate Avoids(s: string, cls: set<char>) {
    forall i :: 0 <= i < |s| ==> s[i] !in cls
  }

  /**
   * `s.replace(/[cls]/g, sub)`: every character of the class becomes `sub`,
   * every other character stays where it was.
   */
  function ReplaceClass(s: string, cls: set<char>, sub: char): (r: string)
    ensures |r| == |s|
    ensures forall i :: 0 <= i < |s| && s[i] in cls ==> r[i] == sub
    ensures forall i :: 0 <= i < |s| && s[i] !in cls ==> r[i] == s[i]
  {
    seq(|s|, i requires 0 <= i < |s| => if s[i] in cls then sub else s[i])
  }

  /** When the replacement is not itself in the class, no character of the class survives. */
  lemma ReplaceClassAvoids(s: string, cls: set<char>, sub: char)
    requires sub !in cls
    ensures Avoids(ReplaceClass(s, cls, sub), cls)
  {
  }

  /** The replace changes a text exactly when the text has a character of the class (and the replacement differs). */
  lemma ReplaceClassUnchangedIff(s: string, cls: set<char>, sub: char)
    requires sub !in cls
    ensures ReplaceClass(s, cls, sub) == s <==> Avoids(s, cls)
  {
    var r := ReplaceClass(s, cls, sub);
    if !Avoids(s, cls) {
      var i :| 0 <= i < |s| && s[i] in cls;
      assert r[i] != s[i];
    }
  }

  /** Membership in a class that shares nothing with `cls` and does not hold `sub` is the same before and after, position by position. */
  lemma ReplaceClassKeepsOthers(s: string, cls: set<char>, sub: char, other: set<char>)
    requires other !! cls && sub !in other
    ensures forall i :: 0 <= i < |s| ==> (s[i] in other <==> ReplaceClass(s, cls, sub)[i] in other)
  {
  }

  /** The replace works on each part of a text separately. */
  lemma ReplaceClassAppend(a: string, b: string, cls: set<char>, sub: char)
    ensures ReplaceClass(a + b, cls, sub) == ReplaceClass(a, cls, sub) + ReplaceClass(b, cls, sub)
  {
  }

  /** Straightens the curly double quotes. */
  function StraightenDouble(s: string): (r: string)
    ensures Avoids(r, CurlyDouble)
  {
    ReplaceClassAvoids(s, CurlyDouble, '"');
    ReplaceClass(s, CurlyDouble, '"')
  }

  /** Straightens the curly single quotes. */
  function StraightenSingle(s: string): (r: string)
    ensures Avoids(r, CurlySingle)
  {
    ReplaceClassAvoids(s, CurlySingle, '\'');
    ReplaceClass(s, CurlySingle, '\'')
  }

  /** The two steps in the source's order leave none of the four curly quotes. */
  lemma StraightenBoth(s: string)
    ensures Avoids(StraightenSingle(StraightenDouble(s)), CurlyDouble + CurlySingle)
  {
    var d := StraightenDouble(s);
    ReplaceClassKeepsOthers(d, CurlySingle, '\'', CurlyDouble);
  }
}
