# WooCommerce plugin generator backend: verified model of `/api/generate`

This project models the text handling of the `POST /api/generate` route of the
WooCommerce plugin generator's Express backend, and proves properties of that
model. The route does three things:

- It builds a composite prompt. A fixed template literal has the user's
  `prompt` pasted verbatim between `Request: "` and `"`, followed by a fixed
  list of output rules. This is module `Prompt`.
- It hands the prompt to a text generator. The route uses Gemini, but here
  the generator is a function parameter.
- It cleans the generated text with a fixed chain of four `replace` calls and
  a `trim()`, then answers with `{ code }`. If anything in the `try` block
  throws, it answers with status 500 and a fixed placeholder. This is covered
  by modules `JunkStrip`, `Fences`, `Quotes`, `Trimming`, `Cleaner` and
  `Generate`.

Each cleanup step is a function over `string` (`seq<char>`), and each regular
expression is written out as a recursive function with the same semantics:

- `^[^<]*<\?php` has no `m` flag, so it matches exactly when the first `<` of
  the whole text begins `<?php`.
- `/```php|```/g` is a left-to-right, non-overlapping scan that tries
  "```php" first. It is given as a sequence of pieces (`Keep` or `Match`),
  and the lemmas show that this decomposition is unique.
- `[“”]` and `[‘’]` are per-character replacements.
- `trim()` removes the fixed set of ECMAScript WhiteSpace and LineTerminator
  characters.

The modules are one per file: `strings.dfy` and `wrappers.dfy` hold shared
helpers, and `prompt.dfy`, `junkstrip.dfy`, `fences.dfy`, `quotes.dfy`,
`trim.dfy`, `cleaner.dfy` and `generate.dfy` follow the route's structure.

The comment at backend/index.js:76 says the first step removes the junk
before the PHP tag. The regex only does so when the first `<` of the text is
the one that begins `<?php`. Any earlier `<`, such as the one in
`Use <b> here:`, leaves the text untouched (`JunkStrip.EarlyLtExample`). The
model follows the regex.

## Model

| member | source | states |
|---|---|---|
| Prompt.Interpolated | backend/index.js:17-22 | a present `prompt` is pasted verbatim; the text is `undefined` exactly for a missing field or the request "undefined" |
| Prompt.Fill | backend/index.js:19-67 | the filled template has the prefix, then the request right after the prefix, then the suffix, and its length is the sum of the three |
| Prompt.Extract | backend/index.js:19-67 | reading the request back out succeeds exactly when the text begins with the prefix and ends with the suffix (no overlap), and then refilling gives the text back |
| Prompt.ExtractFill | backend/index.js:19-67 | extracting from a filled template returns exactly the request that was filled in (round trip) |
| Prompt.FillQuoted | backend/index.js:22-23 | in a quoted template the request is preceded by `Request: "` and followed by `"` and the rule heading, whatever the request is |
| Prompt.Route | backend/index.js:19-67 | the route's template is quoted: its prefix ends with `Request: "` and its suffix starts with `"\nStrict output rules:` |
| Prompt.FullPrompt | backend/index.js:19-67 | `fullPrompt` holds the request verbatim right after the fixed prefix, and the request can be read back from it |
| Prompt.FullPromptInjective | backend/index.js:19-67 | different requests never produce the same composite prompt |
| Prompt.Compose | backend/index.js:17-22 | the prompt built for a request body carries the interpolated field verbatim right after the prefix, and reading it back gives that field |
| Prompt.ComposeContainsRequest | backend/index.js:17-22 | for every request body, the interpolated prompt is a substring of what is sent |
| Prompt.MissingLikeUndefined | backend/index.js:17-22 | a body without `prompt` sends exactly the prompt of a request reading "undefined" |
| Prompt.EmptyRequestComposes | backend/index.js:17-22 | an empty prompt and a missing prompt both yield a complete composite (carrying `""` and `undefined`); nothing rejects them |
| JunkStrip.JunkMatch | backend/index.js:76 | a match of `^[^<]*<\?php` ends right after a `<?php` that starts at the first `<`; no match means the first `<` (if any) does not begin `<?php` |
| JunkStrip.StripJunk | backend/index.js:76 | the result is a suffix of the input (so never longer), and either the input itself or a text starting with `<?php` |
| JunkStrip.StripAtFirstTag | backend/index.js:76 | when the first `<` begins `<?php`, the result is the text from that `<` on |
| JunkStrip.NoTagUnchanged | backend/index.js:76 | with no `<`, or a first `<` that does not begin `<?php`, the text is unchanged |
| JunkStrip.FirstLtUnique | backend/index.js:76 | proof helper: a text has at most one first `<` |
| JunkStrip.StripKeepsTagged | backend/index.js:76 | a text that already starts with `<?php` passes through |
| JunkStrip.JunkUnchangedIff | backend/index.js:76 | the step leaves a text unchanged exactly when no `<?php` starts at a first `<` other than index 0 |
| JunkStrip.StripChatter | backend/index.js:76 | chatter without `<` in front of a tagged text is dropped and the tagged text is kept whole |
| JunkStrip.EarlyLtExample | backend/index.js:76 | junk that contains a `<` before `<?php` is not stripped |
| Fences.Leftmost | backend/index.js:77 | the rules of a leftmost scan that tries "```php" before "```"; under them every match is one of the two alternatives |
| Fences.Scan | backend/index.js:77 | every match the scan reports is "```php" or "```" |
| Fences.StripFences | backend/index.js:77 | the step never adds characters (its exact output is given by `Fences.StripIsKept`) |
| Fences.StripIsKept | backend/index.js:77 | the step's output is exactly the characters of the scan's `Keep` pieces, in order |
| Fences.ScanCovers | backend/index.js:77 | the scan's pieces spell out the input, so only matched characters are dropped and the rest keep their order |
| Fences.ScanIsLeftmost | backend/index.js:77 | the scan follows the leftmost rules: keeps a character only where no "```" starts, and takes "```" only where "```php" does not start |
| Fences.LeftmostIsScan | backend/index.js:77 | any decomposition obeying those rules is the scan's, so the scan is the only reading of the regex |
| Fences.KeepsHead | backend/index.js:77 | proof helper: where no fence starts, the first character is kept |
| Fences.StripLeavesNoFence | backend/index.js:77 | the result contains no "```", not even one formed by joining the text around a removed match |
| Fences.FenceShrinks | backend/index.js:77 | a text containing "```" always loses characters |
| Fences.FenceUnchangedIff | backend/index.js:77 | the step leaves a text unchanged exactly when it contains no "```" |
| Fences.CleanHeadKept | backend/index.js:77 | a fence-free head that does not end in a backtick passes through untouched, whatever follows it |
| Fences.FencePhpDropped | backend/index.js:77 | proof helper: "```php" is removed whole, because the first alternative wins |
| Fences.FenceDropped | backend/index.js:77 | proof helper: "```" not followed by `php` is removed on its own |
| Quotes.ReplaceClass | backend/index.js:78-79 | the length is preserved, every character of the class becomes the replacement, and every other character stays where it was |
| Quotes.ReplaceClassAvoids | backend/index.js:78-79 | no character of the class survives when the replacement is outside it |
| Quotes.ReplaceClassUnchangedIff | backend/index.js:78-79 | the replace changes a text exactly when the text has a character of the class |
| Quotes.ReplaceClassKeepsOthers | backend/index.js:78-79 | membership in any class disjoint from the replaced one is unchanged at every position |
| Quotes.ReplaceClassAppend | backend/index.js:78-79 | the replace works on each part of a concatenation separately |
| Quotes.StraightenDouble | backend/index.js:78 | no U+201C or U+201D survives |
| Quotes.StraightenSingle | backend/index.js:79 | no U+2018 or U+2019 survives |
| Quotes.StraightenBoth | backend/index.js:78-79 | the two steps in the source's order leave none of the four curly quotes |
| Trimming.TrimStart | backend/index.js:81 | the result is the suffix left after a run of leading whitespace, and it does not begin with whitespace |
| Trimming.TrimEnd | backend/index.js:81 | the result is the prefix left before a run of trailing whitespace, and it does not end with whitespace |
| Trimming.Trim | backend/index.js:81 | `trim()` returns a slice of the text with only whitespace outside it, and the slice has no whitespace at either end |
| Trimming.TrimAround | backend/index.js:81 | whatever whitespace surrounds a trimmed body, trimming gives back exactly that body |
| Trimming.TrimStartSkips | backend/index.js:81 | leading whitespace in front of a text that does not begin with whitespace is dropped, and nothing more |
| Trimming.TrimEndSkips | backend/index.js:81 | trailing whitespace after a text that does not end with whitespace is dropped, and nothing more |
| Trimming.TrimUnchangedIff | backend/index.js:81 | trimming leaves a text unchanged exactly when it has no whitespace at either end |
| Trimming.TrimIdempotent | backend/index.js:81 | trimming twice is the same as trimming once |
| Cleaner.Clean | backend/index.js:75-81 | the final `code` has no surrounding whitespace, none of the four curly quotes and no "```" |
| Cleaner.CleanCode | backend/index.js:75-79 | before the trim, the chain already has no curly quote and no "```" |
| Cleaner.CleanWithinJunk | backend/index.js:75-81 | the cleaned text is never longer than what the junk step left |
| Cleaner.CleanNeverGrows | backend/index.js:75-81 | the cleaner never lengthens the text |
| Cleaner.CleanFixedPointIff | backend/index.js:75-81 | the cleaner leaves a text unchanged exactly when it has no junk before a `<?php`, no "```", no curly quote and no surrounding whitespace |
| Cleaner.CleanKeepsClean | backend/index.js:75-81 | an already-clean text passes through every step unchanged |
| Cleaner.CleanFixedIsClean | backend/index.js:75-81 | a text the cleaner leaves unchanged is already clean |
| Cleaner.CleanKeepsCleanPhp | backend/index.js:75-81 | text that starts with `<?php` and has no fence, curly quote or surrounding whitespace is returned unchanged |
| Cleaner.FencedReplyExample | backend/index.js:75-81 | "Sure!\n```php\n<?php echo “hi”;\n```" cleans to `<?php echo "hi";` |
| Cleaner.JunkPrefixExample | backend/index.js:75-81 | "Sure! Here is the code:\n<?php\n// ok" cleans to "<?php\n// ok" |
| Cleaner.JunkBeforeFencesExample | backend/index.js:75-81 | in the source's order, "a <```?php x" cleans to "a <?php x" |
| Cleaner.FencesFirstExample | backend/index.js:75-81 | with fence removal first, the same text would clean to "<?php x", so the order of the steps matters |
| Cleaner.CleanTwiceExample | backend/index.js:75-81 | cleaning that result again gives "<?php x", so the cleaner is not idempotent |
| Generate.Respond | backend/index.js:70-85 | status 500 exactly on failure, with the placeholder as `code`; a completion gets status 200 and the cleaned text |
| Generate.Handle | backend/index.js:16-85 | the reply depends only on the generator's answer to the composite prompt: a failure gives 500 and the placeholder, and text gives 200 and its cleaned form |
| Generate.FallbackShape | backend/index.js:84 | the placeholder starts with `<?php` and is itself trimmed, quote-free and fence-free |
| Generate.ReplyShape | backend/index.js:70-85 | every `code` the handler sends is trimmed and has no curly quote and no "```" |
| Generate.FallbackIndistinguishable | backend/index.js:81-84 | a completion whose text is the placeholder produces the same `code` as a failure, and only the status tells them apart |
| Generate.EmptyPromptReachesGenerator | backend/index.js:17-72 | the reply to an empty or missing prompt is the generator's answer to the full template carrying `""` or `undefined`; nothing rejects the request first |

## Left out

- Express setup, CORS, JSON body parsing, `dotenv` and `app.listen` (backend/index.js:1-14, 88-90): server plumbing and I/O.
- The Gemini SDK calls `getGenerativeModel`, `generateContent` and `response.text()` (backend/index.js:71-73). They are a foreign network API. The generator is a parameter `string -> Completion`, so every exception they might raise becomes `Failure`.
- Text encoding: JavaScript strings are sequences of UTF-16 code units, while the model's `string` is a sequence of Unicode scalar values. A lone surrogate, which a JSON-decoded completion can carry, cannot be represented, although no step treats it differently from other characters.
- Asynchrony: the `await` of the model call is reduced to the value it yields.
- `console.error` (backend/index.js:83): logging only.
- Prompt.Interpolated: a `prompt` that is `null`, a number, an object or an array is not modelled. JavaScript would stringify it, but the model only takes a present string or an absent field (`undefined`).
- The frontend (`frontend/src/App.tsx`, `frontend/vite.config.ts`): UI, clipboard, downloads and build configuration. Its fallback text only mirrors the backend's placeholder.
- Trimming.IsWhitespace: the whitespace set is the fixed list of ECMAScript WhiteSpace and LineTerminator code points. It uses no Unicode tables, so a future change to the Zs category would not be reflected.
- General idempotence of the cleaner is not claimed, because it is false (`Cleaner.CleanTwiceExample`). Only identity on already-clean text is proved.
- Prompt.RuleLines: the rule text is reached through a countdown argument that every value maps to the same list. It stands for the single template literal of backend/index.js:23-67, and the line breaks are the literal's own.
- Generate.Handle: the HTTP layer is not modelled. Status 200 is Express's default for `res.json`, and the body is reduced to its `code` field.
