/**
 * The second cleanup step: `text.replace(/```php|```/g, "")`.
 * The global flag scans left to right; at each position the first
 * alternative, "```php", is tried before "```", a match resumes the scan
 * right after itself (matches never overlap), and every match is replaced
 * by the empty string.
 */
module Fences {
  import opened Strings

  const FencePhp: string := "```php"
  const Fence: string := "```"

  /** One step of the scan: a character where nothing matched, or a match. */
  datatype Piece = Keep(c: char) | Match(text: string)

  /** The text a sequence of pieces was read from. */
  function Source(ps: seq<Piece>): string {
    if ps == [] then []
    else
      match ps[0]
      case Keep(c) => [c] + Source(ps[1..])
      case Match(t) => t + Source(ps[1..])
  }

  /** The text left when every match is replaced by the empty string. */
  function Kept(ps: seq<Piece>): string {
    if ps == [] then []
    else
      match ps[0]
      case Keep(c) => [c] + Kept(ps[1..])
      case Match(_) => Kept(ps[1..])
  }

  /** The matches the scan finds: every match is one of the two alternatives. */
  function Scan(s: string): (ps: seq<Piece>)
    ensures forall k :: 0 <= k < |ps| && ps[k].Match? ==> ps[k].text == FencePhp || ps[k].text == Fence
    decreases |s|
  {
    if StartsWith(s, FencePhp) then [Match(FencePhp)] + Scan(s[|FencePhp|..])
    else if StartsWith(s, Fence) then [Match(Fence)] + Scan(s[|Fence|..])
    else if s == [] then []
    else [Keep(s[0])] + Scan(s[1..])
  }

  /**
   * The rules of a left-to-right scan for `/```php|```/`: a character is kept
   * only where "```" does not start, and "```" is matched only where
   * "```php" does not start. Under these rules every match is one of the two
   * alternatives.
   */
  predicate Leftmost(ps: seq<Piece>)
    ensures Leftmost(ps) ==> forall k :: 0 <= k < |ps| && ps[k].Match? ==> ps[k].text == FencePhp || ps[k].text == Fence
  {
    if ps == [] then true
    else
      match ps[0]
      case Keep(c) => !StartsWith(Source(ps), Fence) && Leftmost(ps[1..])
      case Match(t) =>
        (t == FencePhp || (t == Fence && !StartsWith(Source(ps), FencePhp))) && Leftmost(ps[1..])
  }

  /**
   * `.replace(/```php|```/g, "")`, one position at a time; it never adds
   * characters, and `StripIsKept` shows that it keeps exactly the characters
   * the scan does not match.
   */
  function StripFences(s: string): (r: string)
    ensures |r| <= |s|
    decreases |s|
  {
    if StartsWith(s, FencePhp) then StripFences(s[|FencePhp|..])
    else if StartsWith(s, Fence) then StripFences(s[|Fence|..])
    else if s == [] then []
    else [s[0]] + StripFences(s[1..])
  }

  /** The step removes exactly the matches of the scan. */
  lemma {:induction false} StripIsKept(s: string)
    ensures StripFences(s) == Kept(Scan(s))
    decreases |s|
  {
    if StartsWith(s, FencePhp) {
      StripIsKept(s[|FencePhp|..]);
      assert Scan(s)[1..] == Scan(s[|FencePhp|..]);
    } else if StartsWith(s, Fence) {
      StripIsKept(s[|Fence|..]);
      assert Scan(s)[1..] == Scan(s[|Fence|..]);
    } else if s != [] {
      StripIsKept(s[1..]);
      assert Scan(s)[1..] == Scan(s[1..]);
    }
  }

  /** The pieces of the scan spell out the input: only matched characters are dropped, the rest keep their order. */
  lemma {:induction false} ScanCovers(s: string)
    ensures Source(Scan(s)) == s
    decreases |s|
  {
    if StartsWith(s, FencePhp) {
      ScanCovers(s[|FencePhp|..]);
      assert s == FencePhp + s[|FencePhp|..];
    } else if StartsWith(s, Fence) {
      ScanCovers(s[|Fence|..]);
      assert s == Fence + s[|Fence|..];
    } else if s != [] {
      ScanCovers(s[1..]);
      assert s == [s[0]] + s[1..];
    }
  }

  /** The scan obeys the leftmost, first-alternative-first rules. */
  lemma {:induction false} ScanIsLeftmost(s: string)
    ensures Leftmost(Scan(s))
    decreases |s|
  {
    ScanCovers(s);
    if StartsWith(s, FencePhp) {
      ScanIsLeftmost(s[|FencePhp|..]);
      assert Scan(s)[1..] == Scan(s[|FencePhp|..]);
    } else if StartsWith(s, Fence) {
      ScanIsLeftmost(s[|Fence|..]);
      assert Scan(s)[1..] == Scan(s[|Fence|..]);
    } else if s != [] {
      ScanIsLeftmost(s[1..]);
      assert Scan(s)[1..] == Scan(s[1..]);
    }
  }

  /** The scan is the only way to cut a text into pieces by those rules. */
  lemma {:induction false} LeftmostIsScan(ps: seq<Piece>)
    requires Leftmost(ps)
    requires forall k :: 0 <= k < |ps| && ps[k].Match? ==> ps[k].text == FencePhp || ps[k].text == Fence
    ensures Scan(Source(ps)) == ps
  {
    if ps != [] {
      var s := Source(ps);
      var rest := ps[1..];
      LeftmostIsScan(rest);
      assert ps == [ps[0]] + rest;
      match ps[0]
      case Keep(c) =>
        ScanKeepStep(c, Source(rest));
      case Match(t) =>
        ScanMatchStep(t, Source(rest));
    }
  }

  /** A character where no fence starts is kept, and the scan goes on right after it. */
  lemma ScanKeepStep(c: char, tail: string)
    requires !StartsWith([c] + tail, Fence)
    ensures Scan([c] + tail) == [Keep(c)] + Scan(tail)
  {
    var s := [c] + tail;
    PhpStartsFence(s);
    assert s[1..] == tail;
  }

  /** A match by the first alternative that applies is taken, and the scan goes on right after it. */
  lemma ScanMatchStep(t: string, tail: string)
    requires t == FencePhp || (t == Fence && !StartsWith(t + tail, FencePhp))
    ensures Scan(t + tail) == [Match(t)] + Scan(tail)
  {
    var s := t + tail;
    assert s[..|t|] == t && s[|t|..] == tail;
  }

  /** "```" starts at index `i` of `s`. */
  predicate FenceAt(s: string, i: int) {
    0 <= i && i + 3 <= |s| && s[i] == '`' && s[i + 1] == '`' && s[i + 2] == '`'
  }

  /** `s` contains no "```". */
  predicate NoFence(s: string) {
    forall i :: 0 <= i < |s| ==> !FenceAt(s, i)
  }

  /** "```php" begins with "```". */
  lemma PhpStartsFence(s: string)
    ensures StartsWith(s, FencePhp) ==> StartsWith(s, Fence)
  {
    if StartsWith(s, FencePhp) {
      assert s[..|Fence|] == s[..|FencePhp|][..|Fence|];
    }
  }

  /** Where no fence starts, the first character is kept. */
  lemma KeepsHead(s: string)
    requires s != [] && !StartsWith(s, Fence)
    ensures StripFences(s) == [s[0]] + StripFences(s[1..])
  {
    PhpStartsFence(s);
  }

  /** Putting a character in front of fence-free text makes a fence only through its first two characters. */
  lemma NoFenceCons(c: char, t: string)
    requires NoFence(t)
    requires !(c == '`' && |t| >= 2 && t[0] == '`' && t[1] == '`')
    ensures NoFence([c] + t)
  {
    var s := [c] + t;
    forall i | 0 <= i < |s|
      ensures !FenceAt(s, i)
    {
      assert 0 < i ==> (FenceAt(s, i) ==> FenceAt(t, i - 1));
    }
  }

  /** No "```" survives the step, even one formed by joining what was around a match. */
  lemma {:induction false} StripLeavesNoFence(s: string)
    ensures NoFence(StripFences(s))
    decreases |s|
  {
    if StartsWith(s, FencePhp) {
      StripLeavesNoFence(s[|FencePhp|..]);
    } else if StartsWith(s, Fence) {
      StripLeavesNoFence(s[|Fence|..]);
    } else if s != [] {
      StripLeavesNoFence(s[1..]);
      KeepsHead(s);
      var t := StripFences(s[1..]);
      if s[0] == '`' {
        NoTicksAfterTick(s);
      }
      NoFenceCons(s[0], t);
    }
  }

  /**
   * Behind a backtick that does not start a fence, what the step makes of
   * the rest cannot begin with two backticks: those would have been the
   * second and third backticks of a fence.
   */
  lemma NoTicksAfterTick(s: string)
    requires s != [] && s[0] == '`' && !StartsWith(s, Fence)
    ensures var t := StripFences(s[1..]); !(|t| >= 2 && t[0] == '`' && t[1] == '`')
  {
    var u := s[1..];
    assert |s| < 3 || s[1] != '`' || s[2] != '`' by {
      assert |s| >= 3 ==> s[..3][1] == s[1] && s[..3][2] == s[2];
    }
    assert |u| >= 3 ==> u[..3][0] == s[1] && u[..3][1] == s[2];
    assert |u| >= 6 ==> u[..6][0] == s[1] && u[..6][1] == s[2];
    if u != [] {
      KeepsHead(u);
      if u[0] == '`' && |u| >= 2 {
        var v := u[1..];
        assert v[0] == s[2] != '`';
        assert |v| >= 3 ==> v[..3][0] == v[0];
        KeepsHead(v);
      }
    }
  }

  /** Text with a fence in it always loses characters. */
  lemma {:induction false} FenceShrinks(s: string, i: int)
    requires FenceAt(s, i)
    ensures |StripFences(s)| < |s|
    decreases |s|
  {
    if !StartsWith(s, Fence) {
      PhpStartsFence(s);
      assert i > 0 && FenceAt(s[1..], i - 1);
      FenceShrinks(s[1..], i - 1);
    }
  }

  /** The step leaves a text unchanged exactly when it has no "```". */
  lemma {:induction false} FenceUnchangedIff(s: string)
    ensures StripFences(s) == s <==> NoFence(s)
    decreases |s|
  {
    if NoFence(s) {
      if s != [] {
        assert !StartsWith(s, Fence) by {
          assert StartsWith(s, Fence) ==> FenceAt(s, 0);
        }
        KeepsHead(s);
        assert NoFence(s[1..]) by {
          forall i | 0 <= i < |s[1..]|
            ensures !FenceAt(s[1..], i)
          {
            assert FenceAt(s[1..], i) ==> FenceAt(s, i + 1);
          }
        }
        FenceUnchangedIff(s[1..]);
      }
    } else {
      var i :| FenceAt(s, i);
      FenceShrinks(s, i);
    }
  }

  /** No fence starts at the front of a fence-free head that does not end in a backtick, whatever follows it. */
  lemma HeadStartsNoFence(x: string, y: string)
    requires NoFence(x) && x != [] && x[|x| - 1] != '`'
    ensures !StartsWith(x + y, Fence)
  {
    var s := x + y;
    var k: nat := if |x| < 3 then |x| - 1 else if x[0] != '`' then 0 else if x[1] != '`' then 1 else 2;
    assert k < |x| && k < 3 && s[k] == x[k] != '`' by {
      assert |x| >= 3 ==> !FenceAt(x, 0);
    }
    assert |s| >= 3 ==> s[..3][k] == s[k];
  }

  /** The first character of such a head is kept, and the step goes on with the rest of the head. */
  lemma HeadKept(x: string, y: string)
    requires NoFence(x) && x != [] && x[|x| - 1] != '`'
    ensures StripFences(x + y) == [x[0]] + StripFences(x[1..] + y)
  {
    var s := x + y;
    HeadStartsNoFence(x, y);
    KeepsHead(s);
    assert s[1..] == x[1..] + y;
  }

  /** Dropping the first character of fence-free text leaves it fence-free. */
  lemma NoFenceTail(x: string)
    requires NoFence(x) && x != []
    ensures NoFence(x[1..])
  {
    forall i | 0 <= i < |x[1..]|
      ensures !FenceAt(x[1..], i)
    {
      assert FenceAt(x[1..], i) ==> FenceAt(x, i + 1);
    }
  }

  /** A fence-free head that does not end in a backtick passes through untouched, whatever follows it. */
  lemma {:induction false} CleanHeadKept(x: string, y: string)
    requires NoFence(x) && (x == [] || x[|x| - 1] != '`')
    ensures StripFences(x + y) == x + StripFences(y)
    decreases |x|
  {
    if x != [] {
      HeadKept(x, y);
      NoFenceTail(x);
      CleanHeadKept(x[1..], y);
      PrependHead(x, StripFences(x + y), StripFences(x[1..] + y), StripFences(y));
    } else {
      assert x + y == y;
    }
  }

  /** A head character in front of the rest of `x` and then `t` spells `x + t`. */
  lemma PrependHead(x: string, a: string, b: string, t: string)
    requires x != [] && a == [x[0]] + b && b == x[1..] + t
    ensures a == x + t
  {
    assert x == [x[0]] + x[1..];
  }

  /** "```php" is always removed whole: the first alternative wins. */
  lemma FencePhpDropped(t: string)
    ensures StripFences(FencePhp + t) == StripFences(t)
  {
    var s := FencePhp + t;
    assert s[..|FencePhp|] == FencePhp && s[|FencePhp|..] == t;
  }

  /** "```" not followed by "php" is removed on its own. */
  lemma FenceDropped(t: string)
    requires !StartsWith(t, "php")
    ensures StripFences(Fence + t) == StripFences(t)
  {
    var s := Fence + t;
    assert s[..|Fence|] == Fence && s[|Fence|..] == t;
  }
}
