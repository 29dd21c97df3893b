/**
 * The `POST /api/generate` handler: build the composite prompt, ask the text
 * generator for a completion, and answer with the cleaned code, or with a
 * fixed placeholder and status 500 when anything in the `try` block throws.
 * The generator is a parameter: `getGenerativeModel`, `generateContent` and
 * `response.text()` are reduced to the outcome they produce for a prompt.
 */
module Generate {
  import opened Strings
  import opened Wrappers
  import opened Prompt
  import opened Cleaner
  import opened Fences
  import opened Quotes
  import opened Trimming

  /** What the model call produces: the response text, or an exception. */
  datatype Completion = Success(text: string) | Failure

  /** The HTTP status and the `code` field of the JSON body. */
  datatype Reply = Reply(status: nat, code: string)

  /** The placeholder sent when generation fails. */
  const FallbackCode: string := "<?php\n// Error generating plugin"

  /** Express's status for `res.json` when none was set. */
  const Ok: nat := 200

  /** The status the `catch` block sets. */
  const ServerError: nat := 500

  /**
   * The `try`/`catch` of the handler: a completion is answered with status
   * 200 and its cleaned text, a failure with status 500 and the placeholder.
   */
  function Respond(c: Completion): (r: Reply)
    ensures r.status == ServerError <==> c.Failure?
    ensures c.Failure? ==> r.code == FallbackCode
    ensures c.Success? ==> r.status == Ok && r.code == Clean(c.text)
  {
    match c
    case Success(text) => Reply(Ok, Clean(text))
    case Failure => Reply(ServerError, FallbackCode)
  }

  /**
   * The whole handler, for a generator that maps each prompt to its outcome:
   * the generator is asked about the composite prompt, and its answer alone
   * decides the reply.
   */
  function Handle(body: Field, generate: string -> Completion): (r: Reply)
    ensures generate(Compose(body)).Failure? ==> r.status == ServerError && r.code == FallbackCode
    ensures generate(Compose(body)).Success? ==> r.status == Ok && r.code == Clean(generate(Compose(body)).text)
  {
    Respond(generate(Compose(body)))
  }

  /** The placeholder is itself a clean reply. */
  lemma FallbackShape()
    ensures StartsWith(FallbackCode, JunkStrip.PhpTag)
    ensures Trimmed(FallbackCode) && Avoids(FallbackCode, CurlyQuotes) && NoFence(FallbackCode)
  {
  }

  /**
   * Every `code` the handler sends is trimmed and free of curly quotes and
   * fences: the cleaned text by the cleaner's guarantees, the placeholder by
   * inspection.
   */
  lemma ReplyShape(body: Field, generate: string -> Completion)
    ensures Trimmed(Handle(body, generate).code)
    ensures Avoids(Handle(body, generate).code, CurlyQuotes)
    ensures NoFence(Handle(body, generate).code)
  {
    FallbackShape();
  }

  /**
   * The status is the only reliable sign of failure: a successful completion
   * whose text is the placeholder itself produces the same `code`.
   */
  lemma FallbackIndistinguishable()
    ensures Respond(Success(FallbackCode)).code == Respond(Failure).code
    ensures Respond(Success(FallbackCode)).status != Respond(Failure).status
  {
    FallbackShape();
    CleanKeepsCleanPhp(FallbackCode);
  }

  /**
   * No request is rejected before the model is called: for an empty prompt,
   * or a body without one, the reply is whatever the generator answers to
   * the full template carrying `""` or `undefined`.
   */
  lemma EmptyPromptReachesGenerator(generate: string -> Completion)
    ensures Handle(Given(""), generate) == Respond(generate(FullPrompt("")))
    ensures Handle(Absent, generate) == Respond(generate(FullPrompt("undefined")))
    ensures RequestOf(FullPrompt("")) == Some("")
    ensures RequestOf(FullPrompt("undefined")) == Some("undefined")
  {
  }
}
