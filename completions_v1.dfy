/**
 * `POST /api/openai/v1/completions`: the OpenAI text-completions adapter.
 * The prompt goes to the grid verbatim with the full legacy parameter set;
 * the answer is one `text_completion` object delivered as a single chunk of
 * a stream.
 */
module CompletionsV1 {
  import opened JsText
  import opened GridJob

  const DEFAULT_MODEL := "aphrodite/deepseek-ai/DeepSeek-R1-Distill-Llama-70B"
  const DEFAULT_TEMPERATURE: real := 0.7
  const DEFAULT_MAX_TOKENS := 50
  const TOP_P: real := 0.9

  /** The parsed body; `None` marks an absent field (so its default applies). */
  datatype CompletionBody = CompletionBody(
    apiKey: Option<string>, prompt: Option<string>, model: Option<string>,
    temperature: Option<real>, maxTokens: Option<int>)

  /** The `Authorization` header and the body (`None`: not valid JSON). */
  datatype CompletionRequest = CompletionRequest(authorization: Option<string>, body: Option<CompletionBody>)

  /** `Streamed(chunks)` is the 200 response whose body is the stream's chunks. */
  datatype CompletionResponse =
    | JsonError(status: int, error: string)
    | Streamed(chunks: seq<string>)
    | NoResponseYet

  const MISSING_API_KEY := JsonError(401, "Missing API key in header or body.")
  const MISSING_PROMPT := JsonError(400, "Missing required prompt field.")
  const INTERNAL_ERROR := JsonError(500, "Internal server error")

  /** A prompt that JavaScript treats as true: present and not empty. */
  predicate HasPrompt(b: CompletionBody) {
    b.prompt.Some? && b.prompt.value != ""
  }

  function ModelOf(b: CompletionBody): string {
    if b.model.Some? then b.model.value else DEFAULT_MODEL
  }

  /** The job POSTed to the grid: the prompt itself and the legacy parameter block. */
  function CompletionJob(b: CompletionBody): TextJob
    requires HasPrompt(b)
  {
    TextJob(b.prompt.value, [ModelOf(b)], 1, false,
      TextParams(
        if b.maxTokens.Some? then b.maxTokens.value else DEFAULT_MAX_TOKENS,
        if b.temperature.Some? then b.temperature.value else DEFAULT_TEMPERATURE,
        TOP_P, Some(LEGACY_PARAMS)))
  }

  /**
   * The prompt is forwarded unchanged, with a 50-token default length, a
   * context length of 512 and the fixed image-style legacy fields.
   */
  lemma CompletionJobFields(b: CompletionBody)
    requires HasPrompt(b)
    ensures var job := CompletionJob(b);
      && job.prompt == b.prompt.value && job.n == 1 && !job.trustedWorkers
      && job.models == [if b.model.Some? then b.model.value else "aphrodite/deepseek-ai/DeepSeek-R1-Distill-Llama-70B"]
      && job.params.maxLength == (if b.maxTokens.Some? then b.maxTokens.value else 50)
      && job.params.temperature == (if b.temperature.Some? then b.temperature.value else 0.7)
      && job.params.topP == 0.9
      && job.params.legacy.Some? && job.params.legacy.value.maxContextLength == 512
      && job.params.legacy.value.width == 512 && job.params.legacy.value.height == 512
      && job.params.legacy.value.steps == 30 && job.params.legacy.value.samplerName == "DDIM"
  {
  }

  /** The stream body is exactly one chunk holding the serialised envelope, then closes. */
  method EmitEnvelope(ctrl: StreamController, e: TextCompletion, serialize: TextCompletion -> string)
    requires !ctrl.closed && ctrl.enqueued == []
    modifies ctrl
    ensures ctrl.closed && ctrl.enqueued == [serialize(e)]
  {
    ctrl.Enqueue(serialize(e));
    ctrl.Close();
  }

  predicate Admitted(req: CompletionRequest) {
    req.body.Some? && ResolveApiKey(req.authorization, req.body.value.apiKey).Some? && HasPrompt(req.body.value)
  }

  /**
   * `POST`. `freshId` stands for `uuidv4()`, `nowMs` for `Date.now()`,
   * `serialize` for `JSON.stringify`; `calls` lists the grid requests made.
   */
  method HandlePost(req: CompletionRequest, submit: SubmitReply, replies: seq<StatusReply>,
                    freshId: string, nowMs: int, serialize: TextCompletion -> string)
    returns (resp: CompletionResponse, calls: seq<Call<TextJob>>)
    ensures !Admitted(req) ==> calls == []
    ensures req.body.None? ==> resp == INTERNAL_ERROR
    ensures req.body.Some? && ResolveApiKey(req.authorization, req.body.value.apiKey).None? ==>
      resp == MISSING_API_KEY
    ensures (req.body.Some? && ResolveApiKey(req.authorization, req.body.value.apiKey).Some?
             && !HasPrompt(req.body.value)) ==> resp == MISSING_PROMPT
    ensures Admitted(req) ==>
      var b := req.body.value;
      var key := ResolveApiKey(req.authorization, b.apiKey);
      var submitCall := Call.Post(GRID_TEXT_ASYNC_URL, key, CompletionJob(b));
      && |calls| >= 1 && calls[0] == submitCall
      && (submit.SubmitFailed? ==> calls == [submitCall] && resp == INTERNAL_ERROR)
      && (submit.Submitted? ==>
            var poll := DoneFrom(replies, 0);
            && calls == [submitCall] + Gets(StatusUrl(GRID_TEXT_STATUS_URL, submit.id), key, poll.gets)
            && resp == match poll.outcome
                 case Failed => INTERNAL_ERROR
                 case NoReply => NoResponseYet
                 case Finished(text) =>
                   Streamed([serialize(CompletionEnvelope(text, freshId, nowMs / 1000, ModelOf(b)))]))
  {
    calls := [];
    if req.body.None? {
      return INTERNAL_ERROR, calls;
    }
    var body := req.body.value;
    var apiKey := ResolveApiKey(req.authorization, body.apiKey);
    if apiKey.None? {
      return MISSING_API_KEY, calls;
    }
    if body.prompt.None? || body.prompt.value == "" {
      return MISSING_PROMPT, calls;
    }
    calls := [Call.Post(GRID_TEXT_ASYNC_URL, apiKey, CompletionJob(body))];
    if submit.SubmitFailed? {
      return INTERNAL_ERROR, calls;
    }
    var statusEndpoint := StatusUrl(GRID_TEXT_STATUS_URL, submit.id);
    var outcome, gets := PollUntilDone(replies);
    calls := calls + Gets(statusEndpoint, apiKey, gets);
    match outcome {
      case Failed =>
        resp := INTERNAL_ERROR;
      case NoReply =>
        resp := NoResponseYet;
      case Finished(resultText) =>
        var envelope := CompletionEnvelope(resultText, freshId, nowMs / 1000, ModelOf(body));
        var ctrl := new StreamController();
        EmitEnvelope(ctrl, envelope, serialize);
        resp := Streamed(ctrl.enqueued);
    }
  }
}
