/**
 * `POST /api/openai/completions`: the older completions adapter. It wraps
 * the prompt in a fixed system/user/assistant template, trims it, submits
 * it with the legacy parameter block and the body's own `apiKey` (checked
 * by nobody), and answers with a `text_completion` object as plain JSON.
 */
module GridCompletions {
  import opened JsText
  import opened GridJob

  const DEFAULT_MODEL := "grid-model-default"
  const DEFAULT_TEMPERATURE: real := 0.7
  const DEFAULT_MAX_TOKENS := 50
  const TOP_P: real := 0.9

  /** The destructured body; `None` marks an absent field. */
  datatype GridCompletionBody = GridCompletionBody(
    prompt: Option<string>, model: Option<string>, temperature: Option<real>,
    maxTokens: Option<int>, apiKey: Option<string>)

  datatype GridCompletionResponse =
    | JsonError(status: int, error: string)
    | Completion(completion: TextCompletion)
    | NoResponseYet

  const MISSING_PROMPT := JsonError(400, "Missing required field: prompt")
  const INTERNAL_ERROR := JsonError(500, "Internal server error")

  /** The template's text around the prompt, without its outer padding. */
  const TRIMMED_HEAD := "system\n" + "You are a helpful AI assistant using Markdown formatting.\n\nuser\n"
  const TRIMMED_TAIL := "\n\nassistant"

  /** The template literal around the prompt, before `trim`: a newline first, a newline and four spaces last. */
  const TEMPLATE_HEAD := "\n" + TRIMMED_HEAD
  const TEMPLATE_TAIL := TRIMMED_TAIL + "\n    "

  function Instruction(prompt: string): string {
    Trim(TEMPLATE_HEAD + prompt + TEMPLATE_TAIL)
  }

  /**
   * `trim` only ever removes the template's own leading newline and trailing
   * newline and indentation: whatever the prompt holds (even white space at
   * its ends), it is kept verbatim between the system/user header and the
   * assistant cue.
   */
  lemma InstructionShape(prompt: string)
    ensures Instruction(prompt) == TRIMMED_HEAD + prompt + TRIMMED_TAIL
  {
    var x := TRIMMED_HEAD + prompt + TRIMMED_TAIL;
    assert x[0] == TRIMMED_HEAD[0] == "system\n"[0] == 's';
    assert x[|x| - 1] == TRIMMED_TAIL[|TRIMMED_TAIL| - 1] == 't';
    assert AllWhitespace("\n");
    assert AllWhitespace("\n    ");
    assert TEMPLATE_HEAD + prompt + TEMPLATE_TAIL == "\n" + x + "\n    ";
    TrimPadded("\n", x, "\n    ");
  }

  /** The prompt can be read back from the instruction at a fixed offset. */
  lemma InstructionKeepsPrompt(prompt: string)
    ensures var s := Instruction(prompt);
      && |s| == |TRIMMED_HEAD| + |prompt| + |TRIMMED_TAIL|
      && s[|TRIMMED_HEAD|..|TRIMMED_HEAD| + |prompt|] == prompt
  {
    InstructionShape(prompt);
    var s := TRIMMED_HEAD + prompt + TRIMMED_TAIL;
    assert s[|TRIMMED_HEAD|..|TRIMMED_HEAD| + |prompt|] == prompt;
  }

  predicate HasPrompt(b: GridCompletionBody) {
    b.prompt.Some? && b.prompt.value != ""
  }

  function ModelOf(b: GridCompletionBody): string {
    if b.model.Some? then b.model.value else DEFAULT_MODEL
  }

  function GridCompletionJob(b: GridCompletionBody): TextJob
    requires HasPrompt(b)
  {
    TextJob(Instruction(b.prompt.value), [ModelOf(b)], 1, false,
      TextParams(
        if b.maxTokens.Some? then b.maxTokens.value else DEFAULT_MAX_TOKENS,
        if b.temperature.Some? then b.temperature.value else DEFAULT_TEMPERATURE,
        TOP_P, Some(LEGACY_PARAMS)))
  }

  /** The submitted job: the templated prompt, the `grid-model-default` model unless named, the legacy block. */
  lemma GridCompletionJobFields(b: GridCompletionBody)
    requires HasPrompt(b)
    ensures var job := GridCompletionJob(b);
      && job.prompt == TRIMMED_HEAD + b.prompt.value + TRIMMED_TAIL
      && job.models == [if b.model.Some? then b.model.value else "grid-model-default"]
      && job.n == 1 && !job.trustedWorkers
      && job.params.maxLength == (if b.maxTokens.Some? then b.maxTokens.value else 50)
      && job.params.temperature == (if b.temperature.Some? then b.temperature.value else 0.7)
      && job.params.topP == 0.9 && job.params.legacy == Some(LEGACY_PARAMS)
  {
    InstructionShape(b.prompt.value);
  }

  /**
   * `POST`. `body` is `None` when the request is not a JSON object;
   * `freshId` stands for `uuidv4()` and `nowMs` for `Date.now()`. The body's
   * `apiKey` goes to the grid as it is, present or not.
   */
  method HandlePost(body: Option<GridCompletionBody>, submit: SubmitReply, replies: seq<StatusReply>,
                    freshId: string, nowMs: int)
    returns (resp: GridCompletionResponse, calls: seq<Call<TextJob>>)
    ensures body.None? ==> resp == INTERNAL_ERROR && calls == []
    ensures body.Some? && !HasPrompt(body.value) ==> resp == MISSING_PROMPT && calls == []
    ensures body.Some? && HasPrompt(body.value) ==>
      var b := body.value;
      var submitCall := Call.Post(GRID_TEXT_ASYNC_URL, b.apiKey, GridCompletionJob(b));
      && |calls| >= 1 && calls[0] == submitCall
      && (submit.SubmitFailed? ==> calls == [submitCall] && resp == INTERNAL_ERROR)
      && (submit.Submitted? ==>
            var poll := DoneFrom(replies, 0);
            && calls == [submitCall] + Gets(StatusUrl(GRID_TEXT_STATUS_URL, submit.id), b.apiKey, poll.gets)
            && resp == match poll.outcome
                 case Failed => INTERNAL_ERROR
                 case NoReply => NoResponseYet
                 case Finished(text) => Completion(CompletionEnvelope(text, freshId, nowMs / 1000, ModelOf(b))))
  {
    calls := [];
    if body.None? {
      return INTERNAL_ERROR, calls;
    }
    var b := body.value;
    if b.prompt.None? || b.prompt.value == "" {
      return MISSING_PROMPT, calls;
    }
    calls := [Call.Post(GRID_TEXT_ASYNC_URL, b.apiKey, GridCompletionJob(b))];
    if submit.SubmitFailed? {
      return INTERNAL_ERROR, calls;
    }
    var outcome, gets := PollUntilDone(replies);
    calls := calls + Gets(StatusUrl(GRID_TEXT_STATUS_URL, submit.id), b.apiKey, gets);
    match outcome {
      case Failed =>
        resp := INTERNAL_ERROR;
      case NoReply =>
        resp := NoResponseYet;
      case Finished(resultText) =>
        resp := Completion(CompletionEnvelope(resultText, freshId, nowMs / 1000, ModelOf(b)));
    }
  }
}
