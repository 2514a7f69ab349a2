/**
 * `GET /api/openai/v1/models`: the selected grid models rewritten into
 * OpenAI's model list, each field taken from the first truthy source field
 * or a fixed fallback.
 */
module OpenAiModels {
  import opened JsText
  import opened GridModels

  const UNKNOWN_MODEL := "unknown-model"
  const DEFAULT_OWNER := "aipowergrid"

  datatype OpenAiModel = OpenAiModel(id: string, kind: string, created: int, ownedBy: string)
  datatype ModelList = ModelList(kind: string, data: seq<OpenAiModel>)

  datatype ModelsResponse = ResponseError | List(list: ModelList)

  /** `a || b`: the first operand when truthy, otherwise the second. */
  function Or(a: Option<string>, b: Option<string>): (r: Option<string>)
    ensures Truthy(a) ==> r == a
    ensures !Truthy(a) ==> r == b
  {
    if Truthy(a) then a else b
  }

  /** `model.id || model.model || model.name || 'unknown-model'`. */
  function ModelId(m: GridModel): (id: string)
    ensures Truthy(m.id) ==> id == m.id.value
    ensures !Truthy(m.id) && Truthy(m.model) ==> id == m.model.value
    ensures !Truthy(m.id) && !Truthy(m.model) && Truthy(m.name) ==> id == m.name.value
    ensures !Truthy(m.id) && !Truthy(m.model) && !Truthy(m.name) ==> id == UNKNOWN_MODEL
    ensures id != ""
  {
    var r := Or(Or(m.id, m.model), m.name);
    if Truthy(r) then r.value else UNKNOWN_MODEL
  }

  /** `model.owned_by || model.owner || 'aipowergrid'`. */
  function OwnedBy(m: GridModel): (owner: string)
    ensures Truthy(m.ownedBy) ==> owner == m.ownedBy.value
    ensures !Truthy(m.ownedBy) && Truthy(m.owner) ==> owner == m.owner.value
    ensures !Truthy(m.ownedBy) && !Truthy(m.owner) ==> owner == DEFAULT_OWNER
    ensures owner != ""
  {
    var r := Or(m.ownedBy, m.owner);
    if Truthy(r) then r.value else DEFAULT_OWNER
  }

  /** `model.created` is truthy: present and not zero. */
  predicate HasCreated(m: GridModel) {
    m.created.Some? && m.created.value != 0
  }

  /** `model.created ? Number(model.created) : Math.floor(Date.now() / 1000)`. */
  function Created(m: GridModel, nowMs: int): (created: int)
    ensures HasCreated(m) ==> created == m.created.value
    ensures !HasCreated(m) ==> created == nowMs / 1000
  {
    if HasCreated(m) then m.created.value else nowMs / 1000
  }

  /**
   * One item of `models.map(…)`. The callback evaluates `Date.now()` afresh,
   * so the item at index `i` sees the clock reading `clock(i)`.
   */
  function ToOpenAi(m: GridModel, nowMs: int): OpenAiModel {
    OpenAiModel(ModelId(m), "model", Created(m, nowMs), OwnedBy(m))
  }

  /** `models.map(…)`: one item per model, in order, each built with its own clock reading. */
  function Transform(models: seq<GridModel>, clock: nat -> int): (data: seq<OpenAiModel>)
    ensures |data| == |models|
    ensures forall i :: 0 <= i < |models| ==> data[i] == ToOpenAi(models[i], clock(i))
  {
    seq(|models|, i requires 0 <= i < |models| => ToOpenAi(models[i], clock(i)))
  }

  /** The clock as seen by the items after the first `offset` ones. */
  function Later(clock: nat -> int, offset: nat): nat -> int {
    (i: nat) => clock(offset + i)
  }

  /**
   * The transformation works model by model, so it distributes over the
   * image-then-text concatenation; the text models see the clock after the
   * image models have been mapped.
   */
  lemma TransformAppend(a: seq<GridModel>, b: seq<GridModel>, clock: nat -> int)
    ensures Transform(a + b, clock) == Transform(a, clock) + Transform(b, Later(clock, |a|))
  {
    var r := Transform(a + b, clock);
    var q := Transform(a, clock) + Transform(b, Later(clock, |a|));
    forall i | 0 <= i < |r|
      ensures r[i] == q[i]
    {
      if i >= |a| {
        assert (a + b)[i] == b[i - |a|];
        assert Later(clock, |a|)(i - |a|) == clock(i);
      }
    }
  }

  /** Every item is a `model` object with a non-empty id and owner. */
  lemma TransformShape(models: seq<GridModel>, clock: nat -> int)
    ensures forall item :: item in Transform(models, clock) ==>
      item.kind == "model" && item.id != "" && item.ownedBy != ""
  {
  }

  /** `Date.now()` never goes back. */
  ghost predicate Monotone(clock: nat -> int) {
    forall i: nat, j: nat :: i <= j ==> clock(i) <= clock(j)
  }

  /**
   * Items without a `created` field are stamped with the time they were
   * mapped, in whole seconds: a later item never carries an earlier stamp.
   */
  lemma StampsNeverDecrease(models: seq<GridModel>, clock: nat -> int, i: nat, j: nat)
    requires Monotone(clock)
    requires i <= j < |models|
    requires !HasCreated(models[i]) && !HasCreated(models[j])
    ensures Transform(models, clock)[i].created <= Transform(models, clock)[j].created
  {
    assert clock(i) <= clock(j);
  }

  /** `GET`: `{object: 'list', data}`, or `NextResponse.error()` when a fetch it made was not ok. */
  method HandleGet(typeParam: Option<string>, imageReply: ModelsReply, textReply: ModelsReply, clock: nat -> int)
    returns (resp: ModelsResponse)
    ensures var models := SelectModels(typeParam, imageReply, textReply);
      && (models.None? ==> resp == ResponseError)
      && (models.Some? ==> resp == List(ModelList("list", Transform(models.value, clock))))
  {
    var models := SelectModels(typeParam, imageReply, textReply);
    if models.None? {
      return ResponseError;
    }
    resp := List(ModelList("list", Transform(models.value, clock)));
  }
}
