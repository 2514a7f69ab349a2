/**
 * `GET /api/models-count`: the number of distinct model names among the
 * selected models, counted by filling a `Set`.
 */
module ModelsCount {
  import opened JsText
  import opened GridModels

  datatype ModelsCountResponse = ResponseError | ModelCount(count: nat)

  /** The truthy names of `models`. */
  function NamesOf(models: seq<GridModel>): set<string> {
    if models == [] then {}
    else
      var m := models[|models| - 1];
      NamesOf(models[..|models| - 1]) + (if Truthy(m.name) then {m.name.value} else {})
  }

  /** A name is counted exactly when some model carries it, non-empty. */
  lemma {:induction false} NamesOfSpec(models: seq<GridModel>)
    ensures forall n :: n in NamesOf(models) <==> exists k :: 0 <= k < |models| && models[k].name == Some(n) && n != ""
  {
    if models != [] {
      var prefix := models[..|models| - 1];
      NamesOfSpec(prefix);
      forall n
        ensures n in NamesOf(models) <==> exists k :: 0 <= k < |models| && models[k].name == Some(n) && n != ""
      {
        if n in NamesOf(prefix) {
          var k :| 0 <= k < |prefix| && prefix[k].name == Some(n) && n != "";
          assert models[k] == prefix[k];
        }
        if exists k :: 0 <= k < |models| && models[k].name == Some(n) && n != "" {
          var k :| 0 <= k < |models| && models[k].name == Some(n) && n != "";
          if k < |prefix| {
            assert prefix[k] == models[k];
          }
        }
      }
    }
  }

  /** Nameless models are skipped and duplicates count once, so the count never exceeds the list. */
  lemma {:induction false} CountAtMostModels(models: seq<GridModel>)
    ensures |NamesOf(models)| <= |models|
  {
    if models != [] {
      CountAtMostModels(models[..|models| - 1]);
    }
  }

  /** A further model whose name is already counted leaves the count unchanged. */
  lemma KnownNameKeepsCount(models: seq<GridModel>, m: GridModel)
    requires m.name.Some? && m.name.value in NamesOf(models)
    ensures |NamesOf(models + [m])| == |NamesOf(models)|
  {
    assert (models + [m])[..|models|] == models;
    assert NamesOf(models + [m]) == NamesOf(models);
  }

  /** A further model with a new non-empty name adds exactly one. */
  lemma NewNameAddsOne(models: seq<GridModel>, m: GridModel)
    requires Truthy(m.name) && m.name.value !in NamesOf(models)
    ensures |NamesOf(models + [m])| == |NamesOf(models)| + 1
  {
    assert (models + [m])[..|models|] == models;
    assert NamesOf(models + [m]) == NamesOf(models) + {m.name.value};
  }

  /** `new Set()`, then `forEach` adding every truthy name, then `size`. */
  method CountDistinctNames(models: seq<GridModel>) returns (count: nat)
    ensures count == |NamesOf(models)|
  {
    var uniqueNames: set<string> := {};
    for i := 0 to |models|
      invariant uniqueNames == NamesOf(models[..i])
    {
      assert models[..i + 1][..i] == models[..i];
      if models[i].name.Some? && models[i].name.value != "" {
        uniqueNames := uniqueNames + {models[i].name.value};
      }
    }
    assert models[..|models|] == models;
    count := |uniqueNames|;
  }

  /** `GET`: `{count}`, or `NextResponse.error()` when a fetch it made was not ok. */
  method HandleGet(typeParam: Option<string>, imageReply: ModelsReply, textReply: ModelsReply)
    returns (resp: ModelsCountResponse)
    ensures var models := SelectModels(typeParam, imageReply, textReply);
      && (models.None? ==> resp == ResponseError)
      && (models.Some? ==> resp == ModelCount(|NamesOf(models.value)|) && resp.count <= |models.value|)
  {
    var models := SelectModels(typeParam, imageReply, textReply);
    if models.None? {
      return ResponseError;
    }
    var count := CountDistinctNames(models.value);
    CountAtMostModels(models.value);
    resp := ModelCount(count);
  }
}
