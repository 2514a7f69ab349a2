/**
 * `POST /api/generate-text`: the site's own chat box. It needs a prompt, a
 * user id and a model, wraps the prompt in an indented (untrimmed)
 * template, submits it with fixed parameters and answers with the trimmed
 * generation and the conversation's session id.
 */
module GenerateText {
  import opened JsText
  import opened GridJob

  /** The destructured body; `None` marks an absent field. */
  datatype GenerateTextBody = GenerateTextBody(
    prompt: Option<string>, apiKey: Option<string>, uuid: Option<string>,
    model: Option<string>, sessionId: Option<string>)

  datatype GenerateTextResponse =
    | JsonError(status: int, error: string)
    | Generated(response: string, sessionId: string)
    | NoResponseYet

  const MISSING_FIELDS := JsonError(400, "Missing required fields.")
  const INTERNAL_ERROR := JsonError(500, "Internal server error")

  /** The template literal before and after the prompt, indentation included. */
  const TEMPLATE_HEAD := "\n" + "      system\n      You are a helpful AI assistant using Markdown formatting.\n      \n      user\n      "
  const TEMPLATE_TAIL := "\n      \n      assistant\n    "

  function Instruction(prompt: string): string {
    TEMPLATE_HEAD + prompt + TEMPLATE_TAIL
  }

  /**
   * The template is not trimmed here: the prompt sits verbatim at a fixed
   * offset, and the instruction keeps the template's leading newline and
   * trailing indentation.
   */
  lemma InstructionKeepsPrompt(prompt: string)
    ensures var s := Instruction(prompt);
      && |s| == |prompt| + |TEMPLATE_HEAD| + |TEMPLATE_TAIL|
      && s[|TEMPLATE_HEAD|..|TEMPLATE_HEAD| + |prompt|] == prompt
      && s[0] == '\n' && IsWhitespace(s[|s| - 1])
  {
    var s := Instruction(prompt);
    assert s[|TEMPLATE_HEAD|..|TEMPLATE_HEAD| + |prompt|] == prompt;
    assert s[0] == TEMPLATE_HEAD[0] == "\n"[0];
    assert s[|s| - 1] == TEMPLATE_TAIL[|TEMPLATE_TAIL| - 1];
  }

  /** Every field the route needs: prompt, uuid and model, each present and non-empty. */
  predicate Complete(b: GenerateTextBody) {
    Truthy(b.prompt) && Truthy(b.uuid) && Truthy(b.model)
  }

  /** The job: the templated prompt, the named model, 50 tokens at 0.7, the legacy block. */
  function GenerateTextJob(b: GenerateTextBody): (job: TextJob)
    requires Complete(b)
    ensures job.prompt == Instruction(b.prompt.value) && job.models == [b.model.value]
    ensures job.n == 1 && !job.trustedWorkers
    ensures job.params == TextParams(50, 0.7, 0.9, Some(LEGACY_PARAMS))
  {
    TextJob(Instruction(b.prompt.value), [b.model.value], 1, false,
      TextParams(50, 0.7, 0.9, Some(LEGACY_PARAMS)))
  }

  /**
   * `POST`. `body` is `None` when the request is not a JSON object;
   * `freshId` stands for `uuidv4()`. The body's `apiKey` goes to the grid
   * as it is.
   */
  method HandlePost(body: Option<GenerateTextBody>, submit: SubmitReply, replies: seq<StatusReply>,
                    freshId: string)
    returns (resp: GenerateTextResponse, calls: seq<Call<TextJob>>)
    ensures body.None? ==> resp == INTERNAL_ERROR && calls == []
    ensures body.Some? && !Complete(body.value) ==> resp == MISSING_FIELDS && calls == []
    ensures body.Some? && Complete(body.value) ==>
      var b := body.value;
      var submitCall := Call.Post(GRID_TEXT_ASYNC_URL, b.apiKey, GenerateTextJob(b));
      && |calls| >= 1 && calls[0] == submitCall
      && (submit.SubmitFailed? ==> calls == [submitCall] && resp == INTERNAL_ERROR)
      && (submit.Submitted? ==>
            var poll := DoneFrom(replies, 0);
            && calls == [submitCall] + Gets(StatusUrl(GRID_TEXT_STATUS_URL, submit.id), b.apiKey, poll.gets)
            && resp == match poll.outcome
                 case Failed => INTERNAL_ERROR
                 case NoReply => NoResponseYet
                 case Finished(text) => Generated(text, SessionId(b.sessionId, freshId)))
  {
    calls := [];
    if body.None? {
      return INTERNAL_ERROR, calls;
    }
    var b := body.value;
    if !Truthy(b.prompt) || !Truthy(b.uuid) || !Truthy(b.model) {
      return MISSING_FIELDS, calls;
    }
    var currentSessionId := SessionId(b.sessionId, freshId);
    calls := [Call.Post(GRID_TEXT_ASYNC_URL, b.apiKey, GenerateTextJob(b))];
    if submit.SubmitFailed? {
      return INTERNAL_ERROR, calls;
    }
    var outcome, gets := PollUntilDone(replies);
    calls := calls + Gets(StatusUrl(GRID_TEXT_STATUS_URL, submit.id), b.apiKey, gets);
    match outcome {
      case Failed =>
        resp := INTERNAL_ERROR;
      case NoReply =>
        resp := NoResponseYet;
      case Finished(result) =>
        resp := Generated(result, currentSessionId);
    }
  }
}
