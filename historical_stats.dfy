/**
 * `GET /api/historical-stats`: the text request count and the image count
 * of one timeframe, read from the grid's two `totals` endpoints.
 */
module HistoricalStats {
  import opened JsText

  const TEXT_TOTALS_URL := "https://api.aipowergrid.io/api/v2/stats/text/totals"
  const IMAGE_TOTALS_URL := "https://api.aipowergrid.io/api/v2/stats/img/totals"

  const ALLOWED_TIMEFRAMES: set<string> := {"minute", "hour", "day", "month", "total"}
  const DEFAULT_TIMEFRAME := "day"

  /**
   * A `totals` reply: per timeframe, the numeric fields of its object
   * (`requests` and `tokens` for text, `images` and `ps` for images).
   */
  datatype TotalsReply = TotalsFailed | Totals(byTimeframe: map<string, map<string, int>>)

  datatype HistoricalResponse = ResponseError | Counts(text: int, image: int)

  /** `searchParams.get('timeframe') || 'day'`, then the whitelist. */
  function EffectiveTimeframe(param: Option<string>): (tf: string)
    ensures tf in ALLOWED_TIMEFRAMES
    ensures param.Some? && param.value in ALLOWED_TIMEFRAMES ==> tf == param.value
    ensures param.None? || param.value !in ALLOWED_TIMEFRAMES ==> tf == DEFAULT_TIMEFRAME
  {
    var timeframe := if param.Some? && param.value != "" then param.value else DEFAULT_TIMEFRAME;
    if timeframe in ALLOWED_TIMEFRAMES then timeframe else DEFAULT_TIMEFRAME
  }

  /** Whitelisting is idempotent: an effective timeframe passed back in is kept. */
  lemma EffectiveTimeframeIdempotent(param: Option<string>)
    ensures EffectiveTimeframe(Some(EffectiveTimeframe(param))) == EffectiveTimeframe(param)
  {
  }

  /** `(data[tf] || {})[field] || 0`: a missing timeframe, a missing field and 0 all give 0. */
  function CountOf(data: map<string, map<string, int>>, tf: string, field: string): (n: int)
    ensures tf in data && field in data[tf] ==> n == data[tf][field]
    ensures tf !in data || field !in data[tf] ==> n == 0
  {
    var stats := if tf in data then data[tf] else map[];
    if field in stats && stats[field] != 0 then stats[field] else 0
  }

  /** `GET`: either fetch failing gives `NextResponse.error()`; otherwise `{text, image}`. */
  function HandleGet(param: Option<string>, textReply: TotalsReply, imageReply: TotalsReply): (resp: HistoricalResponse)
    ensures textReply.TotalsFailed? || imageReply.TotalsFailed? <==> resp == ResponseError
    ensures resp.Counts? ==>
      var tf := EffectiveTimeframe(param);
      resp.text == CountOf(textReply.byTimeframe, tf, "requests")
      && resp.image == CountOf(imageReply.byTimeframe, tf, "images")
  {
    var timeframe := EffectiveTimeframe(param);
    if textReply.TotalsFailed? || imageReply.TotalsFailed? then ResponseError
    else Counts(CountOf(textReply.byTimeframe, timeframe, "requests"),
                CountOf(imageReply.byTimeframe, timeframe, "images"))
  }

  /** An unknown or missing timeframe reads the same counts as `day`. */
  lemma UnknownTimeframeIsDay(param: Option<string>, textReply: TotalsReply, imageReply: TotalsReply)
    requires param.None? || param.value !in ALLOWED_TIMEFRAMES
    ensures HandleGet(param, textReply, imageReply) == HandleGet(Some("day"), textReply, imageReply)
  {
  }
}
