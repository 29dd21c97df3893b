/**
 * The composite prompt that the `/api/generate` route sends to the text
 * generator: a fixed instruction block, the user's request pasted verbatim
 * between double quotes, then a fixed list of output rules.
 */
module Prompt {
  import opened Strings
  import opened Wrappers

  /** The `prompt` field of the JSON request body; a body without it destructures to `undefined`. */
  datatype Field = Absent | Given(text: string)

  /**
   * What the template literal interpolates for `${prompt}`: a present string
   * verbatim, a missing field as the word `undefined`, so that a missing
   * field and the request "undefined" cannot be told apart.
   */
  function Interpolated(f: Field): (r: string)
    ensures f.Given? ==> r == f.text
    ensures r == "undefined" <==> f == Absent || f == Given("undefined")
  {
    match f
    case Absent => "undefined"
    case Given(t) => t
  }

  /** The opening of the template, up to the instruction that introduces the request. */
  const Intro: string :=
    "\n"
    + "You are a professional WordPress developer. Generate a secure, single-file WooCommerce plugin based on the request below.\n"
    + "\n"

  /** The label written immediately before the request, including its opening quote. */
  const RequestLabel: string := "Request: \""

  /** The closing quote of the request and the heading of the rule list. */
  const Opening: string :=
    "\"\n"
    + "Strict output rules:\n"

  /**
   * The rule list, line by line. `steps` only counts down to the lines
   * themselves, so every value of it gives the same list; reaching the long
   * literal through `RuleSteps` recursive calls keeps it out of the proofs
   * that never read the rules.
   */
  function RuleLines(steps: nat): seq<string> {
    if steps > 0 then RuleLines(steps - 1) else [
      "    - Always include a properly formatted plugin header using standard WordPress format:\n",
      "  /*\n",
      "  Plugin Name: ...\n",
      "  Description: ...\n",
      "  Version: ...\n",
      "  Author: ...\n",
      "  License: ...\n",
      "  */\n",
      "\n",
      "- Plugin headers must start with a single opening /* and each field should use consistent // or no prefix \U{2014} do not mix asterisks mid-comment.\n",
      "- Always include `if (!defined('ABSPATH')) exit;` at the top for security.\n",
      "- Only output raw PHP starting with `<?php` \U{2014} no markdown, no explanations, no extra text.\n",
      "- The plugin must be a valid, installable `.php` file and follow WordPress coding standards.\n",
      "\n",
      "Hooks and usage guidelines:\n",
      "- For cart notices:\n",
      "  - Use `woocommerce_before_cart` for classic themes.\n",
      "  - Use `wp_footer` for compatibility with block-based themes.\n",
      "  - Do NOT use `woocommerce_blocks_cart_block_registration` to output UI \U{2014} this is incorrect.\n",
      "\n",
      "Styling:\n",
      "- To inject CSS, use `add_action('wp_head', ...)` and output a `<style>` block inside it.\n",
      "- Do not enqueue external styles or scripts.\n",
      "- If using `wp_add_inline_style`, only use existing handles like `woocommerce-general` or `woocommerce-inline`.\n",
      "- To style add-to-cart buttons, use selectors like `.single_add_to_cart_button`, `.add_to_cart_button`, and `.wp-block-button__link`.\n",
      "\n",
      "Code correctness:\n",
      "- Ensure all PHP statements (e.g., `if`, `sprintf`, `echo`) have correctly matched parentheses, quotes, and semicolons.\n",
      "- Always declare functions using standard syntax: `function name() { ... }` \U{2014} never include stray quotes or extra characters.\n",
      "- Validate that the function name used in `add_action()` exactly matches the declared function.\n",
      "- Do not enqueue styles using `wp_enqueue_style()` without a registered stylesheet \U{2014} prefer `wp_add_inline_style()` or inline `<style>`.\n",
      "- Never use `woocommerce_general_settings` to inject frontend styles \U{2014} it is for admin settings only.\n",
      "- Never write function declarations inside add_action(). Always declare the function separately first using 'function name() { ... }' and then register it with 'add_action('hook', 'name');'.\n",
      "- When using printf(), write: printf( __('Text with %s placeholder', 'woocommerce'), wc_price($amount) );\n",
      "- Never nest wc_price() inside __() \U{2014} pass formatted values as separate printf arguments.\n",
      "- Ensure all function calls (e.g., printf, __, sprintf) use properly closed parentheses and correct argument order.\n",
      "\n",
      "Best practices:\n",
      "- When using cart totals, use `WC()->cart->get_subtotal()` or `WC()->cart->get_displayed_subtotal()` \U{2014} never `WC()->cart->subtotal`.\n",
      "- For price formatting, always use `wc_price()`.\n",
      "- Echo notices using `<div class=\"woocommerce-info\">...</div>` or `<div class=\"woocommerce-message\">...</div>`.\n",
      "- Avoid unsafe or unnecessary functions like `eval`, `exec`, `system`, `base64_decode`, etc.\n",
      "\n",
      "Your output must strictly follow all of the above. Output only PHP code \U{2014} no commentary, explanations, or markdown."
      ]
  }

  /** Concatenates lines. */
  function Join(ls: seq<string>): string {
    if ls == [] then [] else ls[0] + Join(ls[1..])
  }

  /**
   * How many recursive calls stand between `Rules` and the literal: a length
   * rather than a numeral, so that the countdown is only unfolded step by
   * step.
   */
  const RuleSteps: nat := |Intro|

  /**
   * The rule list as one text, ending without a newline. `RuleLines` always
   * yields the same list; going through it keeps the long literal out of
   * every proof that does not need its characters.
   */
  const Rules: string := Join(RuleLines(RuleSteps))

  /** A template literal with one interpolation: the text before it and the text after it. */
  datatype Template = Template(before: string, after: string)

  /**
   * The template of the `/api/generate` route: the request sits between
   * `Request: "` and the closing quote that opens the rule heading.
   */
  function Route(): (r: Template)
    ensures Quoted(r)
  {
    PrefixAnnounces();
    SuffixCloses();
    Template(Intro + RequestLabel, Opening + Rules)
  }

  /** The interpolation sits inside `Request: "` ... `"`, followed by the rule heading. */
  predicate Quoted(t: Template) {
    EndsWith(t.before, RequestLabel) && StartsWith(t.after, "\"\nStrict output rules:")
  }

  /** Substitutes `request` for the interpolation; nothing in it is escaped. */
  function Fill(t: Template, request: string): (r: string)
    ensures |r| == |t.before| + |request| + |t.after|
    ensures r[..|t.before|] == t.before && r[|t.before| + |request|..] == t.after
    ensures OccursAt(r, request, |t.before|)
  {
    t.before + request + t.after
  }

  /**
   * Reads the interpolated text back out of a filled template, or `None`
   * when `full` does not begin with `t.before` and end with `t.after`.
   */
  function Extract(t: Template, full: string): (r: Option<string>)
    ensures r.Some? <==> |t.before| + |t.after| <= |full| && StartsWith(full, t.before) && EndsWith(full, t.after)
    ensures r.Some? ==> full == Fill(t, r.value)
  {
    if |t.before| + |t.after| <= |full| && StartsWith(full, t.before) && EndsWith(full, t.after) then
      var request := full[|t.before|..|full| - |t.after|];
      assert full == full[..|t.before|] + request + full[|full| - |t.after|..];
      Some(request)
    else
      None
  }

  /** Whatever was interpolated can be read back out, so filling is injective. */
  lemma ExtractFill(t: Template, request: string)
    ensures Extract(t, Fill(t, request)) == Some(request)
  {
    var full := Fill(t, request);
    assert full[|t.before|..|full| - |t.after|] == request;
  }

  /** In a quoted template the request is announced by `Request: "` and closed by `"`. */
  lemma FillQuoted(t: Template, request: string)
    requires Quoted(t)
    ensures EndsWith(Fill(t, request)[..|t.before|], RequestLabel)
    ensures StartsWith(Fill(t, request)[|t.before| + |request|..], "\"\nStrict output rules:")
  {
  }

  /** The route's prefix ends with the request label. */
  lemma PrefixAnnounces()
    ensures EndsWith(Intro + RequestLabel, RequestLabel)
  {
    EndsWithPrepend(Intro, RequestLabel, RequestLabel);
  }

  /** The route's suffix opens with the closing quote and the rule heading. */
  lemma SuffixCloses()
    ensures StartsWith(Opening + Rules, "\"\nStrict output rules:")
  {
    var heading := "\"\nStrict output rules:";
    assert StartsWith(Opening, heading);
    var rules := Rules;
    StartsWithAppend(Opening, rules, heading);
  }

  /** `fullPrompt`: the route's template with the request interpolated. */
  function FullPrompt(request: string): (r: string)
    ensures OccursAt(r, request, |Route().before|)
    ensures RequestOf(r) == Some(request)
  {
    ExtractFill(Route(), request);
    Fill(Route(), request)
  }

  /** The request a composite prompt carries, if it has the route's shape. */
  function RequestOf(full: string): Option<string> {
    Extract(Route(), full)
  }

  /** The composite prompt built for a request body: it carries the interpolated field, verbatim and recoverable. */
  function Compose(f: Field): (r: string)
    ensures OccursAt(r, Interpolated(f), |Route().before|)
    ensures RequestOf(r) == Some(Interpolated(f))
  {
    FullPrompt(Interpolated(f))
  }

  /** Different requests never share a composite prompt. */
  lemma FullPromptInjective(a: string, b: string)
    requires FullPrompt(a) == FullPrompt(b)
    ensures a == b
  {
  }

  /** The user's text is a substring of what is sent, for every request body. */
  lemma ComposeContainsRequest(f: Field)
    ensures exists i :: OccursAt(Compose(f), Interpolated(f), i)
  {
    assert OccursAt(Compose(f), Interpolated(f), |Route().before|);
  }

  /**
   * An empty request, or a body without `prompt`, still yields the whole
   * template: nothing validates the field before it is sent.
   */
  lemma EmptyRequestComposes()
    ensures RequestOf(Compose(Given(""))) == Some("")
    ensures RequestOf(Compose(Absent)) == Some("undefined")
  {
  }

  /** A body without `prompt` sends exactly what a request reading "undefined" sends. */
  lemma MissingLikeUndefined()
    ensures Compose(Absent) == Compose(Given("undefined"))
  {
  }
}
