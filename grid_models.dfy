/**
 * The grid's `status/models` list and the `type` query parameter that the
 * workers-count, models-count and OpenAI models routes share: `image` or
 * `text` fetch that one list, anything else fetches both and puts the
 * image models first.
 */
module GridModels {
  import opened JsText

  const STATUS_MODELS_URL := "https://api.aipowergrid.io/api/v2/status/models"

  /** A record of `status/models`, with the fields the routes read; `None` marks an absent or null field. */
  datatype GridModel = GridModel(
    id: Option<string>, model: Option<string>, name: Option<string>, count: Option<int>,
    created: Option<int>, ownedBy: Option<string>, owner: Option<string>)

  /** One upstream fetch: a non-ok reply, or the parsed list. */
  datatype ModelsReply = ModelsFailed | Models(models: seq<GridModel>)

  predicate SingleType(typeParam: Option<string>) {
    typeParam == Some("image") || typeParam == Some("text")
  }

  /** The URLs fetched for a given `type` parameter. */
  function FetchedUrls(typeParam: Option<string>): (urls: seq<string>)
    ensures SingleType(typeParam) ==> urls == [STATUS_MODELS_URL + "?type=" + typeParam.value]
    ensures !SingleType(typeParam) ==> urls == [STATUS_MODELS_URL + "?type=image", STATUS_MODELS_URL + "?type=text"]
  {
    if SingleType(typeParam) then [STATUS_MODELS_URL + "?type=" + typeParam.value]
    else [STATUS_MODELS_URL + "?type=image", STATUS_MODELS_URL + "?type=text"]
  }

  /**
   * The list the route works on, or `None` when a fetch it made was not ok.
   * With a single type the other reply is never looked at.
   */
  function SelectModels(typeParam: Option<string>, imageReply: ModelsReply, textReply: ModelsReply)
    : (models: Option<seq<GridModel>>)
    ensures typeParam == Some("image") ==> models == (if imageReply.Models? then Some(imageReply.models) else None)
    ensures typeParam == Some("text") ==> models == (if textReply.Models? then Some(textReply.models) else None)
    ensures !SingleType(typeParam) ==>
      models == (if imageReply.Models? && textReply.Models? then Some(imageReply.models + textReply.models) else None)
  {
    if typeParam == Some("image") then
      (if imageReply.ModelsFailed? then None else Some(imageReply.models))
    else if typeParam == Some("text") then
      (if textReply.ModelsFailed? then None else Some(textReply.models))
    else if imageReply.ModelsFailed? || textReply.ModelsFailed? then None
    else Some(imageReply.models + textReply.models)
  }

  /** Without a valid type every model of both lists is present, image models first. */
  lemma CombinedListOrder(typeParam: Option<string>, image: seq<GridModel>, text: seq<GridModel>)
    requires !SingleType(typeParam)
    ensures var m := SelectModels(typeParam, Models(image), Models(text)).value;
      |m| == |image| + |text| && m[..|image|] == image && m[|image|..] == text
  {
    var m := SelectModels(typeParam, Models(image), Models(text)).value;
    assert m == image + text;
    assert m[..|image|] == image;
  }
}
