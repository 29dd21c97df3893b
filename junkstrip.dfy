/**
 * The first cleanup step: `text.replace(/^[^<]*<\?php/, "<?php")`.
 * The pattern has no `m` flag, so `^` is the start of the whole text, and
 * `[^<]` matches any character but `<`, newlines included. A match therefore
 * exists exactly when the first `<` of the text begins `<?php`, and replacing
 * it drops everything before that `<`.
 */
module JunkStrip {
  import opened Strings
  import opened Wrappers

  /** The PHP opening tag, which is also the replacement text. */
  const PhpTag: string := "<?php"

  /** `i` is the index of the first `<` in `s`. */
  predicate IsFirstLt(s: string, i: int) {
    0 <= i < |s| && s[i] == '<' && forall j :: 0 <= j < i ==> s[j] != '<'
  }

  /**
   * The length of the match of `^[^<]*<\?php` at the start of `s`, if any:
   * the run of non-`<` characters is followed by `<?php`, and the match
   * ends right after that tag.
   */
  function JunkMatch(s: string): (m: Option<nat>)
    ensures m.Some? ==> |PhpTag| <= m.value <= |s|
    ensures m.Some? ==> IsFirstLt(s, m.value - |PhpTag|) && OccursAt(s, PhpTag, m.value - |PhpTag|)
    ensures m.None? ==> forall i :: IsFirstLt(s, i) ==> !OccursAt(s, PhpTag, i)
  {
    if s == [] then None
    else if s[0] == '<' then
      FirstLtAtStart(s);
      if StartsWith(s, PhpTag) then Some(|PhpTag|) else None
    else
      match JunkMatch(s[1..])
      case None =>
        NoMatchAfterHead(s);
        None
      case Some(n) =>
        MatchAfterHead(s, n);
        Some(n + 1)
  }

  /** A match in the tail, shifted past a head that is not `<`, is a match in the text. */
  lemma MatchAfterHead(s: string, n: nat)
    requires s != [] && s[0] != '<' && |PhpTag| <= n <= |s| - 1
    requires IsFirstLt(s[1..], n - |PhpTag|) && OccursAt(s[1..], PhpTag, n - |PhpTag|)
    ensures IsFirstLt(s, n + 1 - |PhpTag|) && OccursAt(s, PhpTag, n + 1 - |PhpTag|)
  {
    FirstLtAfterHead(s);
  }

  /** No match in the tail, past a head that is not `<`, means no match in the text. */
  lemma NoMatchAfterHead(s: string)
    requires s != [] && s[0] != '<'
    requires forall i :: IsFirstLt(s[1..], i) ==> !OccursAt(s[1..], PhpTag, i)
    ensures forall i :: IsFirstLt(s, i) ==> !OccursAt(s, PhpTag, i)
  {
    FirstLtAfterHead(s);
  }

  /** A text that begins with `<` has its first `<` at index 0. */
  lemma FirstLtAtStart(s: string)
    requires s != [] && s[0] == '<'
    ensures IsFirstLt(s, 0)
    ensures forall i :: IsFirstLt(s, i) ==> i == 0
    ensures OccursAt(s, PhpTag, 0) <==> StartsWith(s, PhpTag)
  {
  }

  /** Past a head that is not `<`, the first `<` and the text from it shift by one. */
  lemma FirstLtAfterHead(s: string)
    requires s != [] && s[0] != '<'
    ensures forall i :: IsFirstLt(s, i) <==> i > 0 && IsFirstLt(s[1..], i - 1)
    ensures forall i :: 0 < i ==> (OccursAt(s, PhpTag, i) <==> OccursAt(s[1..], PhpTag, i - 1))
  {
    forall i | 0 < i
      ensures OccursAt(s, PhpTag, i) <==> OccursAt(s[1..], PhpTag, i - 1)
    {
      if i + |PhpTag| <= |s| {
        var a, b := s[i..i + |PhpTag|], s[1..][i - 1..i - 1 + |PhpTag|];
        assert |a| == |b|;
        assert forall k :: 0 <= k < |a| ==> a[k] == s[i + k] == b[k];
        assert a == b;
      }
    }
  }

  /**
   * The step itself: a matched prefix is replaced by `<?php`, which is the
   * same as keeping the text from the first `<` onward; no match leaves the
   * text as it was. The result is always a suffix of the input.
   */
  function StripJunk(s: string): (r: string)
    ensures |r| <= |s| && r == s[|s| - |r|..]
    ensures r == s || StartsWith(r, PhpTag)
  {
    match JunkMatch(s)
    case None => s
    case Some(n) =>
      assert PhpTag + s[n..] == s[n - |PhpTag|..];
      PhpTag + s[n..]
  }

  /** When the first `<` begins `<?php`, the result is the text from that `<` on. */
  lemma StripAtFirstTag(s: string, i: nat)
    requires IsFirstLt(s, i) && OccursAt(s, PhpTag, i)
    ensures StripJunk(s) == s[i..]
  {
    var m := JunkMatch(s);
    if m.Some? {
      FirstLtUnique(s, i, m.value - |PhpTag|);
      assert PhpTag + s[m.value..] == s[i..];
    }
  }

  /** With no `<`, or a first `<` that does not begin `<?php`, the text is unchanged. */
  lemma NoTagUnchanged(s: string)
    requires forall i :: IsFirstLt(s, i) ==> !OccursAt(s, PhpTag, i)
    ensures StripJunk(s) == s
  {
  }

  /** There is at most one first `<`. */
  lemma FirstLtUnique(s: string, i: int, k: int)
    requires IsFirstLt(s, i) && IsFirstLt(s, k)
    ensures i == k
  {
  }

  /** Text that already starts with `<?php` passes through. */
  lemma StripKeepsTagged(s: string)
    requires StartsWith(s, PhpTag)
    ensures StripJunk(s) == s
  {
    assert IsFirstLt(s, 0) && OccursAt(s, PhpTag, 0);
    StripAtFirstTag(s, 0);
  }

  /** The step leaves a text unchanged exactly when no `<?php` starts at a first `<` other than index 0. */
  lemma JunkUnchangedIff(s: string)
    ensures StripJunk(s) == s <==> forall i :: IsFirstLt(s, i) && OccursAt(s, PhpTag, i) ==> i == 0
  {
    if i :| IsFirstLt(s, i) && OccursAt(s, PhpTag, i) {
      StripAtFirstTag(s, i);
      forall k | IsFirstLt(s, k) && OccursAt(s, PhpTag, k)
        ensures k == i
      {
        FirstLtUnique(s, i, k);
      }
      assert |s[i..]| == |s| - i;
    } else {
      NoTagUnchanged(s);
    }
  }

  /** Chatter without any `<` in front of a tagged text is dropped. */
  lemma StripChatter(chatter: string, code: string)
    requires forall j :: 0 <= j < |chatter| ==> chatter[j] != '<'
    requires StartsWith(code, PhpTag)
    ensures StripJunk(chatter + code) == code
  {
    var s := chatter + code;
    assert IsFirstLt(s, |chatter|);
    assert s[|chatter|..] == code;
    StripAtFirstTag(s, |chatter|);
  }

  /**
   * Junk that itself contains a `<` is not stripped: the first `<` here
   * begins `<b>`, so the pattern has no match and the text is kept whole,
   * `<?php` and all.
   */
  lemma EarlyLtExample()
    ensures StripJunk("Use <b> here:\n<?php x") == "Use <b> here:\n<?php x"
  {
    var s := "Use <b> here:\n<?php x";
    assert IsFirstLt(s, 4) && s[4..9][1] != PhpTag[1];
    NoTagUnchanged(s);
  }
}
