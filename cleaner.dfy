/**
 * The whole post-processing of the generated text: the `cleanCode` chain of
 * four replaces in the source's order, then the `trim()` applied when the
 * response is built.
 */
module Cleaner {
  import opened Strings
  import opened JunkStrip
  import opened Fences
  import opened Quotes
  import opened Trimming

  /** The four curly quote characters. */
  const CurlyQuotes: set<char> := CurlyDouble + CurlySingle

  /**
   * `cleanCode`: junk before the PHP tag, then fences, then double quotes,
   * then single quotes. Before the trim the text already has no curly quote
   * and no fence.
   */
  function CleanCode(text: string): (r: string)
    ensures Avoids(r, CurlyQuotes) && NoFence(r)
  {
    var f := StripFences(StripJunk(text));
    StripLeavesNoFence(StripJunk(text));
    StraightenBoth(f);
    StraightenKeepsNoFence(f, CurlyDouble, '"');
    StraightenKeepsNoFence(StraightenDouble(f), CurlySingle, '\'');
    StraightenSingle(StraightenDouble(f))
  }

  /**
   * The `code` of a successful response: no whitespace at either end, none of
   * the four curly quotes, and no "```" anywhere.
   */
  function Clean(text: string): (r: string)
    ensures Trimmed(r) && Avoids(r, CurlyQuotes) && NoFence(r)
  {
    var c := CleanCode(text);
    SliceKeepsShape(c, Trim(c));
    Trim(c)
  }

  /** Replacing characters other than backticks by a character other than a backtick creates no fence. */
  lemma StraightenKeepsNoFence(s: string, cls: set<char>, sub: char)
    requires '`' !in cls && sub != '`' && NoFence(s)
    ensures NoFence(ReplaceClass(s, cls, sub))
  {
    var r := ReplaceClass(s, cls, sub);
    forall i | 0 <= i < |r|
      ensures !FenceAt(r, i)
    {
      assert FenceAt(r, i) ==> FenceAt(s, i);
    }
  }

  /** A slice of a text without curly quotes or fences has none either. */
  lemma SliceKeepsShape(s: string, r: string)
    requires Avoids(s, CurlyQuotes) && NoFence(s)
    requires exists i, j :: 0 <= i <= j <= |s| && r == s[i..j]
    ensures Avoids(r, CurlyQuotes) && NoFence(r)
  {
    var i, j :| 0 <= i <= j <= |s| && r == s[i..j];
    forall k | 0 <= k < |r|
      ensures !FenceAt(r, k)
    {
      assert FenceAt(r, k) ==> FenceAt(s, i + k);
    }
  }

  /** The cleaner never yields more than the junk step left. */
  lemma CleanWithinJunk(text: string)
    ensures |Clean(text)| <= |StripJunk(text)|
  {
    var c := CleanCode(text);
    assert |c| <= |StripJunk(text)|;
    var i, j :| 0 <= i <= j <= |c| && Trim(c) == c[i..j];
  }

  /** The cleaner never lengthens the text. */
  lemma CleanNeverGrows(text: string)
    ensures |Clean(text)| <= |text|
  {
    CleanWithinJunk(text);
  }

  /** A text is left as it is exactly when it is already clean. */
  predicate AlreadyClean(s: string) {
    (forall i :: 0 <= i < |s| && IsFirstLt(s, i) && OccursAt(s, PhpTag, i) ==> i == 0)
    && NoFence(s) && Avoids(s, CurlyQuotes) && Trimmed(s)
  }

  /**
   * The fixed points of the cleaner are exactly the already-clean texts: no
   * junk before a `<?php`, no fence, no curly quote, no surrounding
   * whitespace.
   */
  lemma CleanFixedPointIff(s: string)
    ensures Clean(s) == s <==> AlreadyClean(s)
  {
    if AlreadyClean(s) {
      CleanKeepsClean(s);
    }
    if Clean(s) == s {
      CleanFixedIsClean(s);
    }
  }

  /** Every step leaves an already-clean text as it is. */
  lemma CleanKeepsClean(s: string)
    requires AlreadyClean(s)
    ensures Clean(s) == s
  {
    JunkUnchangedIff(s);
    assert StripJunk(s) == s;
    FenceUnchangedIff(s);
    assert StripFences(s) == s;
    LastStepsKeep(s);
  }

  /** The quote steps and the trim leave a trimmed text without curly quotes as it is. */
  lemma LastStepsKeep(s: string)
    requires Avoids(s, CurlyQuotes) && Trimmed(s)
    ensures Trim(StraightenSingle(StraightenDouble(s))) == s
  {
    forall i | 0 <= i < |s|
      ensures s[i] !in CurlyDouble && s[i] !in CurlySingle
    {
      assert s[i] !in CurlyQuotes;
    }
    ReplaceClassUnchangedIff(s, CurlyDouble, '"');
    assert StraightenDouble(s) == s;
    ReplaceClassUnchangedIff(s, CurlySingle, '\'');
    assert StraightenSingle(s) == s;
    TrimUnchangedIff(s);
  }

  /**
   * A fixed point is clean: the cleaner's guarantees give everything but the
   * junk condition, and since the result is no longer than what the junk
   * step left, that step dropped nothing.
   */
  lemma CleanFixedIsClean(s: string)
    requires Clean(s) == s
    ensures AlreadyClean(s)
  {
    CleanWithinJunk(s);
    assert |StripJunk(s)| == |s|;
    assert StripJunk(s) == s[0..];
    JunkUnchangedIff(s);
  }

  /** Text that starts with `<?php` and is otherwise already clean passes through. */
  lemma CleanKeepsCleanPhp(s: string)
    requires StartsWith(s, PhpTag) && NoFence(s) && Avoids(s, CurlyQuotes) && Trimmed(s)
    ensures Clean(s) == s
  {
    StripKeepsTagged(s);
    JunkUnchangedIff(s);
    CleanFixedPointIff(s);
  }

  /** The cleaner sees a text only through what the junk step makes of it. */
  lemma CleanAfterJunk(a: string, b: string)
    requires StripJunk(a) == StripJunk(b)
    ensures Clean(a) == Clean(b)
  {
  }

  /**
   * Chatter, a fence and curly quotes around one statement: the junk before
   * `<?php` goes first (taking the opening fence with it), then the closing
   * fence, then the quotes, then the trailing newline.
   */
  lemma FencedReplyExample()
    ensures Clean("Sure!\n```php\n<?php echo \U{201C}hi\U{201D};\n```") == "<?php echo \"hi\";"
  {
    FencedReplyJunk();
    FencedReplyFence();
    FencedReplyQuotes();
    FencedReplyTrim();
  }

  /** The reply's chatter and opening fence hold no `<`, so the junk step drops them. */
  lemma FencedReplyJunk()
    ensures StripJunk("Sure!\n```php\n<?php echo \U{201C}hi\U{201D};\n```") == "<?php echo \U{201C}hi\U{201D};\n```"
  {
    assert "Sure!\n```php\n" + "<?php echo \U{201C}hi\U{201D};\n```" == "Sure!\n```php\n<?php echo \U{201C}hi\U{201D};\n```";
    StripChatter("Sure!\n```php\n", "<?php echo \U{201C}hi\U{201D};\n```");
  }

  /** Only the closing fence is left for the fence step. */
  lemma FencedReplyFence()
    ensures StripFences("<?php echo \U{201C}hi\U{201D};\n```") == "<?php echo \U{201C}hi\U{201D};\n"
  {
    var body := "<?php echo \U{201C}hi\U{201D};\n";
    assert NoFence(body);
    CleanHeadKept(body, Fence);
    assert StripFences(Fence) == [];
    assert body + Fence == "<?php echo \U{201C}hi\U{201D};\n```";
  }

  /** Both curly double quotes become `"`. */
  lemma FencedReplyQuotes()
    ensures StraightenSingle(StraightenDouble("<?php echo \U{201C}hi\U{201D};\n")) == "<?php echo \"hi\";\n"
  {
  }

  /** Trimming drops the newline that preceded the closing fence. */
  lemma FencedReplyTrim()
    ensures Trim("<?php echo \"hi\";\n") == "<?php echo \"hi\";"
  {
    var body := "<?php echo \"hi\";";
    assert [] + body + "\n" == "<?php echo \"hi\";\n";
    TrimAround([], body, "\n");
  }

  /** Chatter before the tag is dropped and the code is kept as it is. */
  lemma JunkPrefixExample()
    ensures Clean("Sure! Here is the code:\n<?php\n// ok") == "<?php\n// ok"
  {
    var raw := "Sure! Here is the code:\n<?php\n// ok";
    var code := "<?php\n// ok";
    JunkPrefixJunk();
    StripKeepsTagged(code);
    CleanAfterJunk(raw, code);
    JunkPrefixClean();
    CleanKeepsCleanPhp(code);
  }

  /** Everything before `<?php` goes. */
  lemma JunkPrefixJunk()
    ensures StripJunk("Sure! Here is the code:\n<?php\n// ok") == "<?php\n// ok"
  {
    assert "Sure! Here is the code:\n" + "<?php\n// ok" == "Sure! Here is the code:\n<?php\n// ok";
    StripChatter("Sure! Here is the code:\n", "<?php\n// ok");
  }

  /** What is left is already clean. */
  lemma JunkPrefixClean()
    ensures var code := "<?php\n// ok";
      StartsWith(code, PhpTag) && NoFence(code) && Avoids(code, CurlyQuotes) && Trimmed(code)
  {
  }

  /**
   * The order of the first two steps matters, and the cleaner is not
   * idempotent: in `a <```?php x` the first `<` is followed by a fence, so
   * the junk step keeps everything, and only the fence step then forms
   * `<?php`. One pass keeps the `a `; stripping fences first
   * (`FencesFirstExample`), or cleaning again (`CleanTwiceExample`), drops it.
   */
  lemma JunkBeforeFencesExample()
    ensures Clean("a <```?php x") == "a <?php x"
  {
    ContrivedJunk();
    ContrivedFence();
    ContrivedOnce();
  }

  /** With the first two steps swapped, the same reply loses its `a `. */
  lemma FencesFirstExample()
    ensures Trim(StraightenSingle(StraightenDouble(StripJunk(StripFences("a <```?php x"))))) == "<?php x"
  {
    ContrivedFence();
    ContrivedChatter();
    ContrivedOnce();
    ContrivedCode();
    SwappedStages("a <```?php x", "a <?php x", "<?php x");
  }

  /** The swapped chain, stage by stage, ending on a text that the last two steps keep. */
  lemma SwappedStages(s: string, f: string, j: string)
    requires StripFences(s) == f && StripJunk(f) == j
    requires Avoids(j, CurlyQuotes) && Trimmed(j)
    ensures Trim(StraightenSingle(StraightenDouble(StripJunk(StripFences(s))))) == j
  {
    LastStepsKeep(j);
  }

  /** Cleaning the cleaned reply once more changes it again. */
  lemma CleanTwiceExample()
    ensures Clean(Clean("a <```?php x")) == "<?php x"
    ensures Clean(Clean("a <```?php x")) != Clean("a <```?php x")
  {
    JunkBeforeFencesExample();
    ContrivedTagged();
    StripKeepsTagged("<?php x");
    CleanAfterJunk("a <?php x", "<?php x");
  }

  /** The first `<` of the contrived reply is followed by a backtick, so the junk step keeps it all. */
  lemma ContrivedJunk()
    ensures StripJunk("a <```?php x") == "a <```?php x"
  {
    var raw := "a <```?php x";
    assert IsFirstLt(raw, 2) && raw[2..7][1] != PhpTag[1];
    NoTagUnchanged(raw);
  }

  /** Dropping the fence joins `<` and `?php` into a tag. */
  lemma ContrivedFence()
    ensures StripFences("a <```?php x") == "a <?php x"
  {
    var head, tail := "a <", "?php x";
    assert "a <```?php x" == head + (Fence + tail);
    assert "a <?php x" == head + tail;
    assert tail + [] == tail;
    assert NoFence(head) && NoFence(tail) && tail[..3][0] != "php"[0];
    CleanHeadKept(head, Fence + tail);
    FenceDropped(tail);
    CleanHeadKept(tail, []);
  }

  /** The result of one pass is untouched by the last three steps. */
  lemma ContrivedOnce()
    ensures var once := "a <?php x";
      NoFence(once) && Avoids(once, CurlyQuotes) && Trimmed(once)
      && StraightenSingle(StraightenDouble(once)) == once && Trim(once) == once
  {
    var once := "a <?php x";
    assert TrimStart(once) == once && TrimEnd(once) == once;
  }

  /** A second junk step finds the tag the fence step formed. */
  lemma ContrivedTagged()
    ensures StripJunk("a <?php x") == "<?php x"
    ensures Clean("<?php x") == "<?php x"
  {
    ContrivedChatter();
    ContrivedCode();
  }

  /** `a ` holds no `<`, so it goes. */
  lemma ContrivedChatter()
    ensures StripJunk("a <?php x") == "<?php x"
  {
    var code := "<?php x";
    assert "a <?php x" == "a " + code;
    StripChatter("a ", code);
  }

  /** `<?php x` is already clean. */
  lemma ContrivedCode()
    ensures Clean("<?php x") == "<?php x"
  {
    var code := "<?php x";
    assert StartsWith(code, PhpTag) && NoFence(code) && Avoids(code, CurlyQuotes) && Trimmed(code);
    CleanKeepsCleanPhp(code);
  }
}
