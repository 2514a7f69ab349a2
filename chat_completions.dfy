/**
 * `POST /api/openai/v1/chat/completions`: an OpenAI-compatible chat
 * endpoint in front of the grid. It resolves the API key, flattens the
 * messages into one instruction, submits a text job, polls until the job
 * has a generation, and answers with a `chat.completion` object or, when
 * `stream` is true, with one server-sent event per space-separated token
 * followed by `[DONE]`.
 */
module ChatCompletions {
  import opened JsText
  import opened GridJob

  const DEFAULT_MODEL := "aphrodite/deepseek-ai/DeepSeek-R1-Distill-Llama-70B"
  const DEFAULT_TEMPERATURE: real := 0.7
  const DEFAULT_MAX_TOKENS := 150
  const TOP_P: real := 0.9

  datatype Message = Message(role: string, content: string)

  /**
   * The parsed JSON body. `messages` is `None` when the field is absent, null
   * or not an array; `stream` is true exactly when the field is the JSON
   * value `true`; `None` in the other optional fields means the field is
   * absent, so that its default applies.
   */
  datatype ChatBody = ChatBody(
    apiKey: Option<string>, messages: Option<seq<Message>>, model: Option<string>,
    temperature: Option<real>, maxTokens: Option<int>, stream: bool)

  /** The `Authorization` header and the body (`None`: not valid JSON). */
  datatype ChatRequest = ChatRequest(authorization: Option<string>, body: Option<ChatBody>)

  datatype AssistantMessage = AssistantMessage(role: string, content: string)
  datatype ChatChoice = ChatChoice(index: int, message: AssistantMessage, finishReason: string)
  datatype ChatCompletion = ChatCompletion(
    id: string, kind: string, created: int, model: string, choices: seq<ChatChoice>, usage: Usage)

  datatype ChunkChoice = ChunkChoice(deltaContent: string, index: int, finishReason: Option<string>)
  datatype ChatChunk = ChatChunk(id: string, kind: string, created: int, model: string, choices: seq<ChunkChoice>)

  /** What the route answers; `NoResponseYet` when the status replies ran out first. */
  datatype ChatResponse =
    | JsonError(status: int, error: string)
    | Completion(completion: ChatCompletion)
    | EventStream(chunks: seq<string>)
    | NoResponseYet

  const MISSING_API_KEY := JsonError(401, "Missing API key")
  const MISSING_MESSAGES := JsonError(400, "Missing messages")
  const INTERNAL_ERROR := JsonError(500, "Internal server error")

  // ---------------------------------------------------------------------
  // Request translation
  // ---------------------------------------------------------------------

  function MessageLine(m: Message): string {
    m.role + ": " + m.content
  }

  function MessageLines(messages: seq<Message>): (lines: seq<string>)
    ensures |lines| == |messages|
    ensures forall i :: 0 <= i < |messages| ==> lines[i] == MessageLine(messages[i])
  {
    seq(|messages|, i requires 0 <= i < |messages| => MessageLine(messages[i]))
  }

  /** `messages.map(m => `${m.role}: ${m.content}`).join('\n\n')` */
  function Instruction(messages: seq<Message>): string {
    Join(MessageLines(messages), "\n\n")
  }

  /** One message is its own `role: content` line. */
  lemma InstructionSingle(m: Message)
    ensures Instruction([m]) == m.role + ": " + m.content
  {
  }

  /**
   * The instruction keeps the input order: a further message adds one blank
   * line and its own `role: content` line at the end.
   */
  lemma InstructionAppend(messages: seq<Message>, m: Message)
    requires |messages| > 0
    ensures Instruction(messages + [m]) == Instruction(messages) + "\n\n" + m.role + ": " + m.content
  {
    assert MessageLines(messages + [m]) == MessageLines(messages) + [MessageLine(m)];
    JoinAppend(MessageLines(messages), MessageLine(m), "\n\n");
  }

  /** For n messages the instruction holds the n lines and exactly n - 1 two-character separators. */
  lemma InstructionLength(messages: seq<Message>)
    requires |messages| > 0
    ensures |Instruction(messages)| == TotalLength(MessageLines(messages)) + 2 * (|messages| - 1)
  {
    JoinLength(MessageLines(messages), "\n\n");
  }

  function ModelOf(b: ChatBody): string {
    if b.model.Some? then b.model.value else DEFAULT_MODEL
  }

  /** The job POSTed to the grid. */
  function ChatJob(b: ChatBody, instruction: string): TextJob {
    TextJob(instruction, [ModelOf(b)], 1, false,
      TextParams(
        if b.maxTokens.Some? then b.maxTokens.value else DEFAULT_MAX_TOKENS,
        if b.temperature.Some? then b.temperature.value else DEFAULT_TEMPERATURE,
        TOP_P, None))
  }

  /** The payload's fixed fields, and the defaults of an empty request. */
  lemma ChatJobFields(b: ChatBody, instruction: string)
    ensures var job := ChatJob(b, instruction);
      && job.prompt == instruction && |job.models| == 1 && job.n == 1 && !job.trustedWorkers
      && job.params.topP == 0.9 && job.params.legacy.None?
      && (b.model.None? ==> job.models == ["aphrodite/deepseek-ai/DeepSeek-R1-Distill-Llama-70B"])
      && (b.model.Some? ==> job.models == [b.model.value])
      && job.params.maxLength == (if b.maxTokens.Some? then b.maxTokens.value else 150)
      && job.params.temperature == (if b.temperature.Some? then b.temperature.value else 0.7)
  {
  }

  // ---------------------------------------------------------------------
  // Response rendering
  // ---------------------------------------------------------------------

  /** The non-streaming `chat.completion` object. */
  function Envelope(text: string, id: string, created: int, model: string): ChatCompletion {
    ChatCompletion(id, "chat.completion", created, model,
      [ChatChoice(0, AssistantMessage("assistant", text), "stop")], UsageOf(text))
  }

  /** The envelope carries the whole text in its one choice and counts it by spaces. */
  lemma EnvelopeShape(text: string, id: string, created: int, model: string)
    ensures var e := Envelope(text, id, created, model);
      && |e.choices| == 1 && e.choices[0].message.content == text
      && e.usage.promptTokens == 0
      && e.usage.completionTokens == e.usage.totalTokens == |Split(text, ' ')| == Count(text, ' ') + 1
  {
  }

  function TokenChunk(token: string, id: string, created: int, model: string): ChatChunk {
    ChatChunk(id, "chat.completion.chunk", created, model, [ChunkChoice(token + " ", 0, None)])
  }

  /** An SSE frame around a serialised JSON object. */
  function DataFrame(json: string): string {
    "data: " + json + "\n\n"
  }

  const DONE_FRAME := "data: [DONE]\n\n"

  /** One chunk per space-split token, in order. */
  function TokenChunks(text: string, id: string, created: int, model: string): (chunks: seq<ChatChunk>)
    ensures |chunks| == |Split(text, ' ')|
  {
    var tokens := Split(text, ' ');
    seq(|tokens|, i requires 0 <= i < |tokens| => TokenChunk(tokens[i], id, created, model))
  }

  /** The whole event stream: the token frames and then `[DONE]`. */
  function StreamFrames(text: string, id: string, created: int, model: string, serialize: ChatChunk -> string): seq<string> {
    var chunks := TokenChunks(text, id, created, model);
    seq(|chunks|, i requires 0 <= i < |chunks| => DataFrame(serialize(chunks[i]))) + [DONE_FRAME]
  }

  /**
   * The stream has one frame per token of the envelope's count and then
   * `[DONE]` last; every token frame is a `chat.completion.chunk` with the
   * shared id and creation time, one choice at index 0 and no finish reason,
   * so there is neither a role chunk nor a finish chunk.
   */
  lemma StreamShape(text: string, id: string, created: int, model: string, serialize: ChatChunk -> string)
    ensures var frames := StreamFrames(text, id, created, model, serialize);
      var chunks := TokenChunks(text, id, created, model);
      && |frames| == Envelope(text, id, created, model).usage.completionTokens + 1
      && frames[|frames| - 1] == "data: [DONE]\n\n"
      && forall i :: 0 <= i < |frames| - 1 ==>
           frames[i] == "data: " + serialize(chunks[i]) + "\n\n"
           && chunks[i].id == id && chunks[i].created == created && chunks[i].model == model
           && chunks[i].kind == "chat.completion.chunk"
           && |chunks[i].choices| == 1 && chunks[i].choices[0].index == 0
           && chunks[i].choices[0].finishReason.None?
  {
    SplitLength(text, ' ');
  }

  /** The delta contents of the token chunks, in order. */
  function Deltas(chunks: seq<ChatChunk>): (ds: seq<string>)
    requires forall i :: 0 <= i < |chunks| ==> |chunks[i].choices| > 0
    ensures |ds| == |chunks|
  {
    seq(|chunks|, i requires 0 <= i < |chunks| => chunks[i].choices[0].deltaContent)
  }

  /** Tokens each followed by a space, concatenated. */
  function Spaced(tokens: seq<string>): string {
    if tokens == [] then "" else tokens[0] + " " + Spaced(tokens[1..])
  }

  lemma {:induction false} SpacedJoin(tokens: seq<string>)
    requires |tokens| > 0
    ensures Spaced(tokens) == Join(tokens, " ") + " "
  {
    if |tokens| > 1 {
      SpacedJoin(tokens[1..]);
    }
  }

  /**
   * Concatenating the stream's deltas gives the generated text with one
   * trailing space.
   */
  lemma StreamConcatenation(text: string, id: string, created: int, model: string)
    ensures var chunks := TokenChunks(text, id, created, model);
      Join(Deltas(chunks), "") == text + " "
  {
    var tokens := Split(text, ' ');
    var chunks := TokenChunks(text, id, created, model);
    var ds := Deltas(chunks);
    assert forall i :: 0 <= i < |ds| ==> ds[i] == tokens[i] + " ";
    DeltasSpaced(tokens, ds);
    SpacedJoin(tokens);
    JoinSplit(text, ' ');
  }

  lemma {:induction false} DeltasSpaced(tokens: seq<string>, ds: seq<string>)
    requires |ds| == |tokens|
    requires forall i :: 0 <= i < |ds| ==> ds[i] == tokens[i] + " "
    ensures Join(ds, "") == Spaced(tokens)
  {
    if |tokens| == 1 {
      assert Join(ds, "") == ds[0];
      assert Spaced(tokens[1..]) == "";
    } else if |tokens| > 1 {
      DeltasSpaced(tokens[1..], ds[1..]);
      assert Join(ds, "") == ds[0] + "" + Join(ds[1..], "");
    }
  }

  /**
   * For a generated text as the route produces it (already trimmed), the
   * trimmed concatenation of the stream's deltas is exactly the content of
   * the non-streaming envelope.
   */
  lemma StreamMatchesEnvelope(raw: string, id: string, created: int, model: string)
    ensures var text := Trim(raw);
      var chunks := TokenChunks(text, id, created, model);
      Trim(Join(Deltas(chunks), "")) == Envelope(text, id, created, model).choices[0].message.content
  {
    var text := Trim(raw);
    StreamConcatenation(text, id, created, model);
    TrimIsSlice(raw);
    var space := " ";
    assert AllWhitespace(space);
    if text == [] {
      assert text + space == space;
      assert SkipWhitespace(space, 0) == 1;
    } else {
      TrimPadded([], text, space);
      assert [] + text + space == text + space;
    }
  }

  /** The `for (const token of tokens)` loop, then `[DONE]` and `close()`. */
  method EmitStream(ctrl: StreamController, text: string, id: string, created: int, model: string,
                    serialize: ChatChunk -> string)
    requires !ctrl.closed && ctrl.enqueued == []
    modifies ctrl
    ensures ctrl.closed
    ensures ctrl.enqueued == StreamFrames(text, id, created, model, serialize)
  {
    var tokens := Split(text, ' ');
    ghost var frames := StreamFrames(text, id, created, model, serialize);
    for i := 0 to |tokens|
      invariant !ctrl.closed
      invariant ctrl.enqueued == frames[..i]
    {
      var chunkData := TokenChunk(tokens[i], id, created, model);
      ctrl.Enqueue(DataFrame(serialize(chunkData)));
    }
    ctrl.Enqueue(DONE_FRAME);
    ctrl.Close();
    assert frames == frames[..|tokens|] + [DONE_FRAME];
  }

  // ---------------------------------------------------------------------
  // The route
  // ---------------------------------------------------------------------

  predicate HasMessages(b: ChatBody) {
    b.messages.Some? && |b.messages.value| > 0
  }

  /** A request that passes both checks and reaches the grid. */
  predicate Admitted(req: ChatRequest) {
    req.body.Some? && ResolveApiKey(req.authorization, req.body.value.apiKey).Some? && HasMessages(req.body.value)
  }

  /**
   * `POST`. `freshId` stands for `uuidv4()`, `nowMs` for `Date.now()`, and
   * `serialize` for `JSON.stringify`; `calls` lists the grid requests made.
   */
  method HandlePost(req: ChatRequest, submit: SubmitReply, replies: seq<StatusReply>,
              freshId: string, nowMs: int, serialize: ChatChunk -> string)
    returns (resp: ChatResponse, calls: seq<Call<TextJob>>)
    ensures !Admitted(req) ==> calls == []
    ensures req.body.None? ==> resp == INTERNAL_ERROR
    ensures req.body.Some? && ResolveApiKey(req.authorization, req.body.value.apiKey).None? ==>
      resp == MISSING_API_KEY
    ensures (req.body.Some? && ResolveApiKey(req.authorization, req.body.value.apiKey).Some?
             && !HasMessages(req.body.value)) ==> resp == MISSING_MESSAGES
    ensures Admitted(req) ==>
      var b := req.body.value;
      var key := ResolveApiKey(req.authorization, b.apiKey);
      var submitCall := Post(GRID_TEXT_ASYNC_URL, key, ChatJob(b, Instruction(b.messages.value)));
      && |calls| >= 1 && calls[0] == submitCall
      && (submit.SubmitFailed? ==> calls == [submitCall] && resp == INTERNAL_ERROR)
      && (submit.Submitted? ==>
            var poll := GeneratedFrom(replies, 0);
            var created := nowMs / 1000;
            && calls == [submitCall] + Gets(StatusUrl(GRID_TEXT_STATUS_URL, submit.id), key, poll.gets)
            && resp == match poll.outcome
                 case Failed => INTERNAL_ERROR
                 case NoReply => NoResponseYet
                 case Finished(text) =>
                   if b.stream then EventStream(StreamFrames(text, freshId, created, ModelOf(b), serialize))
                   else Completion(Envelope(text, freshId, created, ModelOf(b))))
  {
    calls := [];
    if req.body.None? {
      return INTERNAL_ERROR, calls;
    }
    var body := req.body.value;
    var apiKey := ResolveApiKey(req.authorization, body.apiKey);
    if apiKey.None? {
      return MISSING_API_KEY, calls;
    }
    if body.messages.None? || |body.messages.value| == 0 {
      return MISSING_MESSAGES, calls;
    }
    var instruction := Instruction(body.messages.value);
    var payload := ChatJob(body, instruction);
    calls := [Post(GRID_TEXT_ASYNC_URL, apiKey, payload)];
    if submit.SubmitFailed? {
      return INTERNAL_ERROR, calls;
    }
    var statusEndpoint := StatusUrl(GRID_TEXT_STATUS_URL, submit.id);
    var outcome, gets := PollUntilGenerated(replies);
    calls := calls + Gets(statusEndpoint, apiKey, gets);
    match outcome {
      case Failed =>
        resp := INTERNAL_ERROR;
      case NoReply =>
        resp := NoResponseYet;
      case Finished(resultText) =>
        var model := ModelOf(body);
        var created := nowMs / 1000;
        if !body.stream {
          resp := Completion(Envelope(resultText, freshId, created, model));
        } else {
          var ctrl := new StreamController();
          EmitStream(ctrl, resultText, freshId, created, model, serialize);
          resp := EventStream(ctrl.enqueued);
        }
    }
  }
}
