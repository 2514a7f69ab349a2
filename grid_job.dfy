/**
 * What the four text-generation adapters share: the grid's text-job
 * payload, the replies of its submit and status endpoints, the
 * poll-until-done loops, the API-key resolution of the OpenAI-compatible
 * routes and the space-split token count reported as usage.
 *
 * The grid is an input, not a service: the submit reply is a value and the
 * status endpoint is a finite sequence of replies that a poll loop consumes
 * one per GET. The source polls forever; when the replies run out before the
 * job is done the model reports that no response has been produced yet.
 */
module GridJob {
  import opened JsText

  const GRID_TEXT_ASYNC_URL := "https://api.aipowergrid.io/api/v2/generate/text/async"
  const GRID_TEXT_STATUS_URL := "https://api.aipowergrid.io/api/v2/generate/text/status"

  /** The image-era parameters that three text routes send along unchanged. */
  datatype LegacyParams = LegacyParams(
    maxContextLength: int, n: int, width: int, height: int, steps: int,
    samplerName: string, cfgScale: real, tiling: bool, clipSkip: int,
    postProcessing: seq<string>, karras: bool, hiresFix: bool)

  const LEGACY_PARAMS := LegacyParams(512, 1, 512, 512, 30, "DDIM", 7.5, false, 1, [], false, false)

  datatype TextParams = TextParams(maxLength: int, temperature: real, topP: real, legacy: Option<LegacyParams>)

  /** The body POSTed to the grid's text `async` endpoint. */
  datatype TextJob = TextJob(prompt: string, models: seq<string>, n: int, trustedWorkers: bool, params: TextParams)

  /** One HTTP request from the adapter to the grid, with its `apikey` header. */
  datatype Call<J> = Post(url: string, apikey: Option<string>, body: J) | Get(url: string, apikey: Option<string>)

  /** The reply to the submit POST: a transport failure or the job's `id` field. */
  datatype SubmitReply = SubmitFailed | Submitted(id: Option<string>)

  /**
   * One reply of the status endpoint: a transport failure, or `done` with the
   * `text` of each entry of `generations` (an absent list reads as empty).
   */
  datatype StatusReply = StatusFailed | Status(done: bool, texts: seq<string>)

  /** What a poll loop ends with. `NoReply`: the replies ran out first. */
  datatype PollOutcome = Finished(text: string) | Failed | NoReply

  /** The job id as it is interpolated into a URL: an absent id reads `undefined`. */
  function IdSegment(id: Option<string>): string {
    if id.Some? then id.value else "undefined"
  }

  function StatusUrl(base: string, id: Option<string>): (url: string)
    ensures StartsWith(url, base + "/")
  {
    base + "/" + IdSegment(id)
  }

  /** `k` identical status GETs. */
  function Gets<J>(url: string, apikey: Option<string>, k: nat): (calls: seq<Call<J>>)
    ensures |calls| == k && forall i :: 0 <= i < k ==> calls[i] == Get(url, apikey)
  {
    seq(k, _ => Get(url, apikey))
  }

  // ---------------------------------------------------------------------
  // Poll loops
  // ---------------------------------------------------------------------

  /** What a poll loop ends with and how many status GETs it issued. */
  datatype PollResult = PollResult(outcome: PollOutcome, gets: nat)

  /** The chat route stops at a reply that is done AND carries a generation. */
  predicate HasGeneration(r: StatusReply) {
    r.Status? && r.done && |r.texts| > 0
  }

  /** A reply the chat route's loop polls past. */
  predicate StillGenerating(r: StatusReply) {
    r.Status? && !HasGeneration(r)
  }

  /**
   * The chat route's loop from reply `i` on: one GET per reply consumed, a
   * failed GET aborts, the first reply that is done with a generation gives
   * its first text, trimmed.
   */
  function GeneratedFrom(replies: seq<StatusReply>, i: nat): PollResult
    requires i <= |replies|
    decreases |replies| - i
  {
    if i == |replies| then PollResult(NoReply, i)
    else if replies[i].StatusFailed? then PollResult(Failed, i + 1)
    else if HasGeneration(replies[i]) then PollResult(Finished(Trim(replies[i].texts[0])), i + 1)
    else GeneratedFrom(replies, i + 1)
  }

  /**
   * What the chat loop promises: every reply before the last one consumed was
   * still generating, a result comes only from a reply with a generation, and
   * the loop gives up on no reply it could have used.
   */
  lemma {:induction false} GeneratedFromSpec(replies: seq<StatusReply>, i: nat)
    requires i <= |replies|
    ensures var r := GeneratedFrom(replies, i);
      && i <= r.gets <= |replies|
      && (r.outcome.NoReply? <==> r.gets == |replies| && forall j :: i <= j < |replies| ==> StillGenerating(replies[j]))
      && (!r.outcome.NoReply? ==> r.gets > i && forall j :: i <= j < r.gets - 1 ==> StillGenerating(replies[j]))
      && (r.outcome.Failed? <==> !r.outcome.NoReply? && replies[r.gets - 1].StatusFailed?)
      && (r.outcome.Finished? <==> !r.outcome.NoReply? && HasGeneration(replies[r.gets - 1]))
      && (r.outcome.Finished? ==> r.outcome.text == Trim(replies[r.gets - 1].texts[0]))
    decreases |replies| - i
  {
    if i < |replies| && StillGenerating(replies[i]) {
      GeneratedFromSpec(replies, i + 1);
    }
  }

  /** The chat route's `pollGrid`. */
  method PollUntilGenerated(replies: seq<StatusReply>) returns (outcome: PollOutcome, gets: nat)
    ensures PollResult(outcome, gets) == GeneratedFrom(replies, 0)
  {
    gets := 0;
    while gets < |replies|
      invariant gets <= |replies|
      invariant GeneratedFrom(replies, gets) == GeneratedFrom(replies, 0)
    {
      var data := replies[gets];
      gets := gets + 1;
      if data.StatusFailed? {
        return Failed, gets;
      }
      if data.done && |data.texts| > 0 {
        return Finished(Trim(data.texts[0])), gets;
      }
    }
    outcome := NoReply;
  }

  /** A reply the `done`-only loops poll past. */
  predicate NotDone(r: StatusReply) {
    r.Status? && !r.done
  }

  /**
   * The `done`-only loop from reply `i` on: the first reply with `done` ends
   * it, and reading `generations[0]` there throws when the list is empty.
   */
  function DoneFrom(replies: seq<StatusReply>, i: nat): PollResult
    requires i <= |replies|
    decreases |replies| - i
  {
    if i == |replies| then PollResult(NoReply, i)
    else if replies[i].StatusFailed? then PollResult(Failed, i + 1)
    else if replies[i].done then
      (if replies[i].texts == [] then PollResult(Failed, i + 1)
       else PollResult(Finished(Trim(replies[i].texts[0])), i + 1))
    else DoneFrom(replies, i + 1)
  }

  /**
   * What the `done`-only loop promises: every reply before the last one
   * consumed was not done, and the last one is a failure, a done reply
   * without generations (a failure too) or the done reply whose first text
   * is the result.
   */
  lemma {:induction false} DoneFromSpec(replies: seq<StatusReply>, i: nat)
    requires i <= |replies|
    ensures var r := DoneFrom(replies, i);
      && i <= r.gets <= |replies|
      && (r.outcome.NoReply? <==> r.gets == |replies| && forall j :: i <= j < |replies| ==> NotDone(replies[j]))
      && (!r.outcome.NoReply? ==> r.gets > i && forall j :: i <= j < r.gets - 1 ==> NotDone(replies[j]))
      && (!r.outcome.NoReply? ==> replies[r.gets - 1].StatusFailed? || replies[r.gets - 1].done)
      && (r.outcome.Finished? <==> !r.outcome.NoReply? && replies[r.gets - 1].Status? && |replies[r.gets - 1].texts| > 0)
      && (r.outcome.Finished? ==> r.outcome.text == Trim(replies[r.gets - 1].texts[0]))
    decreases |replies| - i
  {
    if i < |replies| && NotDone(replies[i]) {
      DoneFromSpec(replies, i + 1);
    }
  }

  /** The `pollGrid`/`pollApi` loop of the completions and generate-text routes. */
  method PollUntilDone(replies: seq<StatusReply>) returns (outcome: PollOutcome, gets: nat)
    ensures PollResult(outcome, gets) == DoneFrom(replies, 0)
  {
    gets := 0;
    while gets < |replies|
      invariant gets <= |replies|
      invariant DoneFrom(replies, gets) == DoneFrom(replies, 0)
    {
      var data := replies[gets];
      gets := gets + 1;
      if data.StatusFailed? {
        return Failed, gets;
      }
      if data.done {
        if data.texts == [] {
          return Failed, gets;
        }
        return Finished(Trim(data.texts[0])), gets;
      }
    }
    outcome := NoReply;
  }

  /**
   * Two pending replies and then a finished one carrying `text` (for
   * instance `hello world`): exactly three status GETs, and the text comes
   * back unchanged.
   */
  method ThreeRepliesExample(text: string) returns (outcome: PollOutcome, gets: nat)
    requires text != [] && !IsWhitespace(text[0]) && !IsWhitespace(text[|text| - 1])
    ensures gets == 3 && outcome == Finished(text)
  {
    TrimSolid(text);
    var replies := [Status(false, []), Status(false, []), Status(true, [text])];
    assert GeneratedFrom(replies, 2) == PollResult(Finished(text), 3);
    assert GeneratedFrom(replies, 0) == GeneratedFrom(replies, 1) == GeneratedFrom(replies, 2);
    outcome, gets := PollUntilGenerated(replies);
  }

  // ---------------------------------------------------------------------
  // The response stream
  // ---------------------------------------------------------------------

  /** A `ReadableStream` controller: the chunks enqueued so far and whether it is closed. */
  class StreamController {
    var enqueued: seq<string>
    var closed: bool

    constructor ()
      ensures enqueued == [] && !closed
    {
      enqueued := [];
      closed := false;
    }

    method Enqueue(chunk: string)
      requires !closed
      modifies this
      ensures enqueued == old(enqueued) + [chunk] && !closed
    {
      enqueued := enqueued + [chunk];
    }

    method Close()
      requires !closed
      modifies this
      ensures closed && enqueued == old(enqueued)
    {
      closed := true;
    }
  }

  // ---------------------------------------------------------------------
  // API key resolution (the two OpenAI-compatible v1 routes)
  // ---------------------------------------------------------------------

  /** `authHeader.split(' ')[1]` when the header starts with `Bearer `. */
  function BearerToken(header: Option<string>): (token: Option<string>)
    ensures token.Some? <==> header.Some? && StartsWith(header.value, "Bearer ")
    ensures token.Some? ==>
      ' ' !in token.value && StartsWith(header.value[7..], token.value)
      && (token.value == header.value[7..] || header.value[7 + |token.value|] == ' ')
  {
    if header.Some? && StartsWith(header.value, "Bearer ") then
      var h := header.value;
      assert h == "Bearer" + [' '] + h[7..];
      SplitAfterPrefix("Bearer", ' ', h[7..]);
      SplitFirstPiece(h[7..], ' ');
      Some(Split(h, ' ')[1])
    else None
  }

  /**
   * `authApiKey || body.apiKey`, with the falsy results the routes reject
   * (absent or empty) reported as `None`.
   */
  function ResolveApiKey(header: Option<string>, bodyKey: Option<string>): (key: Option<string>)
    ensures key.Some? ==> key.value != ""
    ensures key.Some? ==> key == BearerToken(header) || key == bodyKey
  {
    var bearer := BearerToken(header);
    if bearer.Some? && bearer.value != "" then bearer
    else if bodyKey.Some? && bodyKey.value != "" then bodyKey
    else None
  }

  /** A well-formed bearer token wins over whatever the body carries. */
  lemma BearerWins(token: string, bodyKey: Option<string>)
    requires token != "" && ' ' !in token
    ensures ResolveApiKey(Some("Bearer " + token), bodyKey) == Some(token)
  {
    var h := "Bearer " + token;
    assert h[..7] == "Bearer ";
    assert h[7..] == token;
    SplitNoSeparator(token, ' ');
    assert h == "Bearer" + [' '] + token;
    SplitAfterPrefix("Bearer", ' ', token);
  }

  /**
   * Without a non-empty bearer token the body key decides: a missing header,
   * one that does not start with `Bearer `, or `Bearer ` followed by a space
   * or by nothing all fall back to the body.
   */
  lemma BodyKeyFallback(header: Option<string>, bodyKey: Option<string>)
    requires header.None? || !StartsWith(header.value, "Bearer ") || header.value == "Bearer "
             || (|header.value| > 7 && StartsWith(header.value, "Bearer ") && header.value[7] == ' ')
    ensures ResolveApiKey(header, bodyKey) == if bodyKey.Some? && bodyKey.value != "" then bodyKey else None
  {
  }

  // ---------------------------------------------------------------------
  // Usage
  // ---------------------------------------------------------------------

  datatype Usage = Usage(promptTokens: int, completionTokens: int, totalTokens: int)

  /** `text.split(' ').length`: the number of spaces plus one, so never zero. */
  function TokenCount(text: string): (n: nat)
    ensures n == Count(text, ' ') + 1
  {
    SplitLength(text, ' ');
    |Split(text, ' ')|
  }

  /** The usage block: prompt counted as zero, completion and total the space-split count. */
  function UsageOf(text: string): (u: Usage)
    ensures u.promptTokens == 0 && u.completionTokens == u.totalTokens >= 1
    ensures u.completionTokens == Count(text, ' ') + 1
  {
    Usage(0, TokenCount(text), TokenCount(text))
  }
  // ---------------------------------------------------------------------
  // The legacy `text_completion` object
  // ---------------------------------------------------------------------

  datatype TextChoice = TextChoice(text: string, index: int, logprobs: Option<int>, finishReason: string)
  datatype TextCompletion = TextCompletion(
    id: string, kind: string, created: int, model: string, choices: seq<TextChoice>, usage: Usage)

  /** The `text_completion` object: the whole text in one choice, counted by spaces. */
  function CompletionEnvelope(text: string, id: string, created: int, model: string): (e: TextCompletion)
    ensures e.id == id && e.kind == "text_completion" && e.created == created && e.model == model
    ensures |e.choices| == 1 && e.choices[0].text == text && e.choices[0].index == 0
    ensures e.choices[0].logprobs.None? && e.choices[0].finishReason == "stop"
    ensures e.usage == UsageOf(text) && e.usage.completionTokens == Count(text, ' ') + 1
  {
    TextCompletion(id, "text_completion", created, model,
      [TextChoice(text, 0, None, "stop")], UsageOf(text))
  }

  // ---------------------------------------------------------------------
  // Session ids
  // ---------------------------------------------------------------------

  /** `sessionId || uuidv4()`: a non-empty session id is kept, otherwise a fresh one is used. */
  function SessionId(sessionId: Option<string>, freshId: string): (sid: string)
    ensures Truthy(sessionId) ==> sid == sessionId.value
    ensures !Truthy(sessionId) ==> sid == freshId
  {
    if Truthy(sessionId) then sessionId.value else freshId
  }

}
