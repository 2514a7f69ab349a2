/**
 * `POST /api/generate-image`: submits an image job built from the prompt,
 * the model and the caller's NSFW setting, polls the grid's `check`
 * endpoint until the job is done, fetches its `status` once and answers
 * with the public URL of the first image.
 */
module GenerateImage {
  import opened JsText
  import opened GridJob

  const GRID_IMAGE_ASYNC_URL := "https://api.aipowergrid.io/api/v2/generate/async"
  const GRID_IMAGE_CHECK_URL := "https://api.aipowergrid.io/api/v2/generate/check"
  const GRID_IMAGE_STATUS_URL := "https://api.aipowergrid.io/api/v2/generate/status"
  const IMAGE_HOST := "https://images.aipg.art/"
  const IMAGE_SUFFIX := ".webp"

  /** `customSettings`; `nsfw` is `None` when the field is absent. */
  datatype ImageSettings = ImageSettings(nsfw: Option<bool>)

  /** The destructured body; `None` marks an absent field. */
  datatype GenerateImageBody = GenerateImageBody(
    prompt: Option<string>, apiKey: Option<string>, uuid: Option<string>, model: Option<string>,
    sessionId: Option<string>, customSettings: Option<ImageSettings>)

  datatype ImageParams = ImageParams(
    n: int, width: int, height: int, steps: int, samplerName: string, cfgScale: real,
    tiling: bool, clipSkip: int, postProcessing: seq<string>, karras: bool, hiresFix: bool)

  const IMAGE_PARAMS := ImageParams(1, 512, 512, 30, "DDIM", 7.5, false, 1, [], false, false)

  /** The body POSTed to the grid's image `async` endpoint. */
  datatype ImageJob = ImageJob(
    prompt: string, allowDowngrade: bool, nsfw: Option<bool>, censorNsfw: bool,
    trustedWorkers: bool, models: seq<string>, sourceProcessing: string, r2: bool, params: ImageParams)

  /** A reply of the `check` endpoint. */
  datatype CheckReply = CheckFailed | Check(done: bool)

  /** The one reply of the `status` endpoint: the ids of the generated images. */
  datatype ImageStatusReply = ImageStatusFailed | ImageStatus(ids: seq<string>)

  datatype GenerateImageResponse =
    | JsonError(status: int, error: string)
    | Generated(response: string, sessionId: string)
    | NoResponseYet

  const MISSING_FIELDS := JsonError(400, "Missing required fields.")
  const INTERNAL_ERROR := JsonError(500, "Internal server error")

  predicate Complete(b: GenerateImageBody) {
    Truthy(b.prompt) && Truthy(b.uuid) && Truthy(b.model)
  }

  /** `!customSettings.nsfw`: censoring is on unless `nsfw` is exactly `true`. */
  function CensorNsfw(s: ImageSettings): (censor: bool)
    ensures censor <==> s.nsfw != Some(true)
  {
    !(s.nsfw.Some? && s.nsfw.value)
  }

  function ImageJobOf(b: GenerateImageBody): (job: ImageJob)
    requires Complete(b) && b.customSettings.Some?
    ensures job.prompt == b.prompt.value && job.models == [b.model.value]
    ensures job.nsfw == b.customSettings.value.nsfw
    ensures job.censorNsfw <==> job.nsfw != Some(true)
  {
    var settings := b.customSettings.value;
    ImageJob(b.prompt.value, false, settings.nsfw, CensorNsfw(settings), false, [b.model.value],
      "img2img", true, IMAGE_PARAMS)
  }

  /** The job never allows downgrades or trusted-only workers, and always asks for one 512x512 image. */
  lemma ImageJobFixedFields(b: GenerateImageBody)
    requires Complete(b) && b.customSettings.Some?
    ensures var job := ImageJobOf(b);
      && !job.allowDowngrade && !job.trustedWorkers && job.r2 && job.sourceProcessing == "img2img"
      && job.params.n == 1 && job.params.width == 512 && job.params.height == 512
      && job.params.steps == 30 && job.params.samplerName == "DDIM" && job.params.cfgScale == 7.5
  {
  }

  /** The public address of a generated image. */
  function ImageUrl(id: string): string {
    IMAGE_HOST + id + IMAGE_SUFFIX
  }

  /** The image id can be read back from its URL, so distinct ids give distinct URLs. */
  lemma ImageUrlId(id: string)
    ensures var url := ImageUrl(id);
      |url| == |IMAGE_HOST| + |id| + |IMAGE_SUFFIX| && url[|IMAGE_HOST|..|url| - |IMAGE_SUFFIX|] == id
  {
    var url := ImageUrl(id);
    assert url[|IMAGE_HOST|..|url| - |IMAGE_SUFFIX|] == id;
  }

  lemma ImageUrlInjective(a: string, b: string)
    requires ImageUrl(a) == ImageUrl(b)
    ensures a == b
  {
    ImageUrlId(a);
    ImageUrlId(b);
  }

  // ---------------------------------------------------------------------
  // Polling
  // ---------------------------------------------------------------------

  datatype CheckOutcome = Ready | CheckError | Waiting
  datatype CheckResult = CheckResult(outcome: CheckOutcome, gets: nat)

  /** The `check` loop from reply `i` on: it ends at the first done reply or the first failed request. */
  function CheckedFrom(checks: seq<CheckReply>, i: nat): CheckResult
    requires i <= |checks|
    decreases |checks| - i
  {
    if i == |checks| then CheckResult(Waiting, i)
    else if checks[i].CheckFailed? then CheckResult(CheckError, i + 1)
    else if checks[i].done then CheckResult(Ready, i + 1)
    else CheckedFrom(checks, i + 1)
  }

  lemma {:induction false} CheckedFromSpec(checks: seq<CheckReply>, i: nat)
    requires i <= |checks|
    ensures var r := CheckedFrom(checks, i);
      && i <= r.gets <= |checks|
      && (r.outcome.Waiting? <==> r.gets == |checks| && forall j :: i <= j < |checks| ==> checks[j] == Check(false))
      && (!r.outcome.Waiting? ==> r.gets > i && forall j :: i <= j < r.gets - 1 ==> checks[j] == Check(false))
      && (r.outcome.Ready? <==> !r.outcome.Waiting? && checks[r.gets - 1] == Check(true))
      && (r.outcome.CheckError? <==> !r.outcome.Waiting? && checks[r.gets - 1].CheckFailed?)
    decreases |checks| - i
  {
    if i < |checks| && checks[i] == Check(false) {
      CheckedFromSpec(checks, i + 1);
    }
  }

  /** The single `status` fetch: a failure, or no generation to read `[0]` from, throws. */
  function ImageOf(status: ImageStatusReply): (outcome: PollOutcome)
    ensures outcome.NoReply? == false
    ensures outcome.Finished? <==> status.ImageStatus? && |status.ids| > 0
    ensures outcome.Finished? ==> outcome.text == ImageUrl(status.ids[0])
  {
    if status.ImageStatusFailed? || status.ids == [] then Failed
    else Finished(ImageUrl(status.ids[0]))
  }

  /** The `pollApi` loop: `check` GETs until done, then exactly one `status` GET. */
  method PollImage(checks: seq<CheckReply>, status: ImageStatusReply)
    returns (outcome: PollOutcome, checkGets: nat, statusGets: nat)
    ensures var c := CheckedFrom(checks, 0);
      && checkGets == c.gets
      && statusGets == (if c.outcome.Ready? then 1 else 0)
      && outcome == match c.outcome
           case Ready => ImageOf(status)
           case CheckError => Failed
           case Waiting => NoReply
  {
    checkGets := 0;
    statusGets := 0;
    while checkGets < |checks|
      invariant checkGets <= |checks|
      invariant CheckedFrom(checks, checkGets) == CheckedFrom(checks, 0)
    {
      var jsonResponse := checks[checkGets];
      checkGets := checkGets + 1;
      if jsonResponse.CheckFailed? {
        return Failed, checkGets, statusGets;
      }
      if jsonResponse.done {
        statusGets := 1;
        if status.ImageStatusFailed? || status.ids == [] {
          return Failed, checkGets, statusGets;
        }
        return Finished(ImageUrl(status.ids[0])), checkGets, statusGets;
      }
    }
    outcome := NoReply;
  }

  // ---------------------------------------------------------------------
  // The route
  // ---------------------------------------------------------------------

  /**
   * `POST`. `body` is `None` when the request is not a JSON object;
   * `freshId` stands for `uuidv4()`. A missing `customSettings` throws
   * before anything is submitted.
   */
  method HandlePost(body: Option<GenerateImageBody>, submit: SubmitReply, checks: seq<CheckReply>,
                    status: ImageStatusReply, freshId: string)
    returns (resp: GenerateImageResponse, calls: seq<Call<ImageJob>>)
    ensures body.None? ==> resp == INTERNAL_ERROR && calls == []
    ensures body.Some? && !Complete(body.value) ==> resp == MISSING_FIELDS && calls == []
    ensures body.Some? && Complete(body.value) && body.value.customSettings.None? ==>
      resp == INTERNAL_ERROR && calls == []
    ensures body.Some? && Complete(body.value) && body.value.customSettings.Some? ==>
      var b := body.value;
      var submitCall := Call.Post(GRID_IMAGE_ASYNC_URL, b.apiKey, ImageJobOf(b));
      && |calls| >= 1 && calls[0] == submitCall
      && (submit.SubmitFailed? ==> calls == [submitCall] && resp == INTERNAL_ERROR)
      && (submit.Submitted? ==>
            var c := CheckedFrom(checks, 0);
            var checkCalls := Gets(StatusUrl(GRID_IMAGE_CHECK_URL, submit.id), b.apiKey, c.gets);
            var statusCalls := Gets(StatusUrl(GRID_IMAGE_STATUS_URL, submit.id), b.apiKey, if c.outcome.Ready? then 1 else 0);
            && calls == [submitCall] + checkCalls + statusCalls
            && resp == match c.outcome
                 case CheckError => INTERNAL_ERROR
                 case Waiting => NoResponseYet
                 case Ready =>
                   if ImageOf(status).Finished? then Generated(ImageOf(status).text, SessionId(b.sessionId, freshId))
                   else INTERNAL_ERROR)
  {
    calls := [];
    if body.None? {
      return INTERNAL_ERROR, calls;
    }
    var b := body.value;
    if !Truthy(b.prompt) || !Truthy(b.uuid) || !Truthy(b.model) {
      return MISSING_FIELDS, calls;
    }
    var currentSessionId := SessionId(b.sessionId, freshId);
    if b.customSettings.None? {
      return INTERNAL_ERROR, calls;
    }
    calls := [Call.Post(GRID_IMAGE_ASYNC_URL, b.apiKey, ImageJobOf(b))];
    if submit.SubmitFailed? {
      return INTERNAL_ERROR, calls;
    }
    var outcome, checkGets, statusGets := PollImage(checks, status);
    calls := calls + Gets(StatusUrl(GRID_IMAGE_CHECK_URL, submit.id), b.apiKey, checkGets)
                   + Gets(StatusUrl(GRID_IMAGE_STATUS_URL, submit.id), b.apiKey, statusGets);
    match outcome {
      case Failed =>
        resp := INTERNAL_ERROR;
      case NoReply =>
        resp := NoResponseYet;
      case Finished(result) =>
        resp := Generated(result, currentSessionId);
    }
  }
}
