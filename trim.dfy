/**
 * `String.prototype.trim`, applied to the cleaned text when the response is
 * built: whitespace and line terminators are removed from both ends.
 */
module Trimming {

  /**
   * ECMAScript's WhiteSpace and LineTerminator characters: tab, line
   * tabulation, form feed, the byte order mark, the space separators (category
   * Zs), and LF, CR, LINE SEPARATOR and PARAGRAPH SEPARATOR.
   */
  predicate IsWhitespace(c: char) {
    c == '\t' || c == '\n' || c == '\U{000B}' || c == '\U{000C}' || c == '\r'
    || c == ' ' || c == '\U{00A0}' || c == '\U{1680}'
    || ('\U{2000}' <= c <= '\U{200A}')
    || c == '\U{2028}' || c == '\U{2029}' || c == '\U{202F}' || c == '\U{205F}'
    || c == '\U{3000}' || c == '\U{FEFF}'
  }

  /** Every character of `s` is whitespace. */
  predicate AllWhitespace(s: string) {
    forall i :: 0 <= i < |s| ==> IsWhitespace(s[i])
  }

  /** `s` neither begins nor ends with whitespace. */
  predicate Trimmed(s: string) {
    s == [] || (!IsWhitespace(s[0]) && !IsWhitespace(s[|s| - 1]))
  }

  /** Every character of `s` outside `s[i..j]` is whitespace. */
  predicate WhitespaceOutside(s: string, i: int, j: int) {
    forall k :: 0 <= k < |s| && !(i <= k < j) ==> IsWhitespace(s[k])
  }

  /** Drops the leading whitespace: what remains is a suffix that does not begin with whitespace. */
  function TrimStart(s: string): (r: string)
    ensures |r| <= |s| && r == s[|s| - |r|..]
    ensures forall k :: 0 <= k < |s| - |r| ==> IsWhitespace(s[k])
    ensures r == [] || !IsWhitespace(r[0])
  {
    if s != [] && IsWhitespace(s[0]) then
      TrimStart(s[1..])
    else
      s
  }

  /** Drops the trailing whitespace: what remains is a prefix that does not end with whitespace. */
  function TrimEnd(s: string): (r: string)
    ensures |r| <= |s| && r == s[..|r|]
    ensures forall k :: |r| <= k < |s| ==> IsWhitespace(s[k])
    ensures r == [] || !IsWhitespace(r[|r| - 1])
  {
    if s != [] && IsWhitespace(s[|s| - 1]) then
      TrimEnd(s[..|s| - 1])
    else
      s
  }

  /**
   * `trim()`: the result is the slice of `s` between a whitespace-only head
   * and a whitespace-only tail, and has no whitespace at either end.
   */
  function Trim(s: string): (r: string)
    ensures Trimmed(r)
    ensures exists i, j :: 0 <= i <= j <= |s| && r == s[i..j] && WhitespaceOutside(s, i, j)
  {
    var t := TrimStart(s);
    var r := TrimEnd(t);
    var i := |s| - |t|;
    var j := i + |r|;
    TrimBothEnds(s, t, r);
    r
  }

  /** A suffix of `s` past leading whitespace, cut before trailing whitespace, is a trimmed slice of `s`. */
  lemma TrimBothEnds(s: string, t: string, r: string)
    requires |t| <= |s| && t == s[|s| - |t|..] && (t == [] || !IsWhitespace(t[0]))
    requires forall k :: 0 <= k < |s| - |t| ==> IsWhitespace(s[k])
    requires |r| <= |t| && r == t[..|r|] && (r == [] || !IsWhitespace(r[|r| - 1]))
    requires forall k :: |r| <= k < |t| ==> IsWhitespace(t[k])
    ensures Trimmed(r)
    ensures var i := |s| - |t|;
      i <= i + |r| <= |s| && r == s[i..i + |r|] && WhitespaceOutside(s, i, i + |r|)
  {
    var i := |s| - |t|;
    var j := i + |r|;
    if r != [] {
      assert r[0] == t[0];
    }
    forall k | 0 <= k < |s| && !(i <= k < j)
      ensures IsWhitespace(s[k])
    {
      if k >= j {
        assert s[k] == t[k - i];
      }
    }
  }

  /** Leading whitespace in front of a text that does not begin with whitespace is dropped, and only it. */
  lemma {:induction false} TrimStartSkips(head: string, rest: string)
    requires AllWhitespace(head) && (rest == [] || !IsWhitespace(rest[0]))
    ensures TrimStart(head + rest) == rest
  {
    if head == [] {
      assert head + rest == rest;
    } else {
      assert (head + rest)[1..] == head[1..] + rest;
      TrimStartSkips(head[1..], rest);
    }
  }

  /** Trailing whitespace behind a text that does not end with whitespace is dropped, and only it. */
  lemma {:induction false} TrimEndSkips(rest: string, tail: string)
    requires AllWhitespace(tail) && (rest == [] || !IsWhitespace(rest[|rest| - 1]))
    ensures TrimEnd(rest + tail) == rest
  {
    if tail == [] {
      assert rest + tail == rest;
    } else {
      var shorter := tail[..|tail| - 1];
      assert (rest + tail)[..|rest + tail| - 1] == rest + shorter;
      TrimEndSkips(rest, shorter);
    }
  }

  /**
   * The result of `trim()` is determined by the text alone: whatever
   * whitespace surrounds a trimmed body, trimming gives back that body.
   */
  lemma TrimAround(head: string, body: string, tail: string)
    requires AllWhitespace(head) && AllWhitespace(tail) && Trimmed(body)
    ensures Trim(head + body + tail) == body
  {
    if body == [] {
      assert head + body + tail == (head + tail) + [];
      TrimStartSkips(head + tail, []);
    } else {
      assert head + body + tail == head + (body + tail);
      TrimStartSkips(head, body + tail);
      TrimEndSkips(body, tail);
    }
  }

  /** Trimming leaves a text unchanged exactly when it has no whitespace at either end. */
  lemma TrimUnchangedIff(s: string)
    ensures Trim(s) == s <==> Trimmed(s)
  {
    if Trimmed(s) {
      assert [] + s + [] == s;
      TrimAround([], s, []);
    }
  }

  /** Trimming twice is trimming once. */
  lemma TrimIdempotent(s: string)
    ensures Trim(Trim(s)) == Trim(s)
  {
    TrimUnchangedIff(Trim(s));
  }
}
