/**
 * `GET /api/workers-count`: sums the worker `count` of the selected models
 * by model name, in a dictionary filled by `reduce`, and lists the
 * dictionary's entries.
 */
module WorkersCount {
  import opened JsText
  import opened GridModels

  datatype NameCount = NameCount(name: string, count: int)

  /** `NextResponse.error()` or the list of entries. */
  datatype WorkersCountResponse = ResponseError | Counts(entries: seq<NameCount>)

  /** `model.name && typeof model.count === 'number'`. */
  predicate Contributes(m: GridModel) {
    Truthy(m.name) && m.count.Some?
  }

  /** The accumulator: the dictionary and the order in which its keys were created. */
  datatype Acc = Acc(counts: map<string, int>, order: seq<string>)

  /** One step of the reducer. */
  function Step(acc: Acc, m: GridModel): Acc {
    if !Contributes(m) then acc
    else
      var name := m.name.value;
      var previous := if name in acc.counts then acc.counts[name] else 0;
      Acc(acc.counts[name := previous + m.count.value],
          if name in acc.counts then acc.order else acc.order + [name])
  }

  /** The accumulator after reducing over `models`. */
  function Tally(models: seq<GridModel>): Acc {
    if models == [] then Acc(map[], [])
    else Step(Tally(models[..|models| - 1]), models[|models| - 1])
  }

  /** The sum of the counts that the entries with `name` contribute. */
  function SumFor(models: seq<GridModel>, name: string): int {
    if models == [] then 0
    else
      var m := models[|models| - 1];
      SumFor(models[..|models| - 1], name) + (if Contributes(m) && m.name.value == name then m.count.value else 0)
  }

  /** The sum of all contributing counts. */
  function TotalOf(models: seq<GridModel>): int {
    if models == [] then 0
    else
      var m := models[|models| - 1];
      TotalOf(models[..|models| - 1]) + (if Contributes(m) then m.count.value else 0)
  }

  ghost predicate WellFormed(acc: Acc) {
    && Distinct(acc.order)
    && (forall n :: n in acc.counts <==> n in acc.order)
  }

  /** The reducer keeps one key per contributing name, holding the sum of that name's counts. */
  lemma {:induction false} TallySpec(models: seq<GridModel>)
    ensures var t := Tally(models);
      && WellFormed(t)
      && (forall n :: n in t.counts <==> exists k :: 0 <= k < |models| && Contributes(models[k]) && models[k].name.value == n)
      && (forall n :: n in t.counts ==> t.counts[n] == SumFor(models, n))
      && (forall n :: n !in t.counts ==> SumFor(models, n) == 0)
  {
    if models != [] {
      var prefix := models[..|models| - 1];
      var m := models[|models| - 1];
      TallySpec(prefix);
      var before := Tally(prefix);
      var t := Tally(models);
      assert t == Step(before, m);
      forall n
        ensures n in t.counts <==> exists k :: 0 <= k < |models| && Contributes(models[k]) && models[k].name.value == n
        ensures n in t.counts ==> t.counts[n] == SumFor(models, n)
        ensures n !in t.counts ==> SumFor(models, n) == 0
      {
        assert SumFor(models, n) == SumFor(prefix, n) + (if Contributes(m) && m.name.value == n then m.count.value else 0);
        if n in Tally(prefix).counts {
          var k :| 0 <= k < |prefix| && Contributes(prefix[k]) && prefix[k].name.value == n;
          assert models[k] == prefix[k];
        }
        if exists k :: 0 <= k < |models| && Contributes(models[k]) && models[k].name.value == n {
          var k :| 0 <= k < |models| && Contributes(models[k]) && models[k].name.value == n;
          if k < |prefix| {
            assert prefix[k] == models[k];
          }
        }
      }
    }
  }

  /** Some contributing model carries `a` before any contributing model carries `b`. */
  ghost predicate AppearsBefore(models: seq<GridModel>, a: string, b: string) {
    exists k :: 0 <= k < |models| && Contributes(models[k]) && models[k].name.value == a &&
      forall l :: 0 <= l <= k && Contributes(models[l]) ==> models[l].name.value != b
  }

  /** The dictionary's keys are created in the order in which the names first appear. */
  lemma {:induction false} TallyFirstAppearance(models: seq<GridModel>)
    ensures var t := Tally(models);
      forall i, j :: 0 <= i < j < |t.order| ==> AppearsBefore(models, t.order[i], t.order[j])
  {
    if models != [] {
      var prefix := models[..|models| - 1];
      var m := models[|models| - 1];
      TallyFirstAppearance(prefix);
      TallySpec(prefix);
      var before := Tally(prefix);
      var t := Tally(models);
      assert t == Step(before, m);
      forall i, j | 0 <= i < j < |t.order|
        ensures AppearsBefore(models, t.order[i], t.order[j])
      {
        var a := t.order[i];
        var b := t.order[j];
        if j < |before.order| {
          assert before.order[i] == a && before.order[j] == b;
          var k :| 0 <= k < |prefix| && Contributes(prefix[k]) && prefix[k].name.value == a &&
            forall l :: 0 <= l <= k && Contributes(prefix[l]) ==> prefix[l].name.value != b;
          assert models[k] == prefix[k];
          forall l | 0 <= l <= k && Contributes(models[l])
            ensures models[l].name.value != b
          {
            assert models[l] == prefix[l];
          }
        } else {
          assert a == before.order[i] && a in before.counts;
          assert b !in before.counts;
          var k :| 0 <= k < |prefix| && Contributes(prefix[k]) && prefix[k].name.value == a;
          assert models[k] == prefix[k];
          forall l | 0 <= l <= k && Contributes(models[l])
            ensures models[l].name.value != b
          {
            assert models[l] == prefix[l];
          }
        }
      }
    }
  }

  /**
   * The entries `Object.entries(workersByModel).map(…)` lists, in the
   * object's own-key order.
   */
  function Entries(acc: Acc): (entries: seq<NameCount>)
    requires WellFormed(acc)
    ensures |entries| == |acc.order|
    ensures forall i :: 0 <= i < |entries| ==> entries[i].name == OwnKeys(acc.order)[i]
  {
    EntriesOf(OwnKeys(acc.order), acc.counts)
  }

  /** The names of a list of entries. */
  function Names(entries: seq<NameCount>): (names: seq<string>)
    ensures |names| == |entries|
    ensures forall i :: 0 <= i < |entries| ==> names[i] == entries[i].name
  {
    seq(|entries|, i requires 0 <= i < |entries| => entries[i].name)
  }

  /** One entry per key of `order`, holding its value in `counts`. */
  function EntriesOf(order: seq<string>, counts: map<string, int>): (entries: seq<NameCount>)
    requires forall n :: n in order ==> n in counts
    ensures |entries| == |order|
    ensures forall i :: 0 <= i < |entries| ==> entries[i] == NameCount(order[i], counts[order[i]])
  {
    if order == [] then []
    else EntriesOf(order[..|order| - 1], counts) + [NameCount(order[|order| - 1], counts[order[|order| - 1]])]
  }

  /** The sum of `counts` over the keys in `order`. */
  function SumOver(order: seq<string>, counts: map<string, int>): int
    requires forall n :: n in order ==> n in counts
  {
    if order == [] then 0 else SumOver(order[..|order| - 1], counts) + counts[order[|order| - 1]]
  }

  lemma {:induction false} SumOverFresh(order: seq<string>, counts: map<string, int>, n: string, v: int)
    requires forall x :: x in order ==> x in counts
    requires n !in order
    ensures SumOver(order, counts[n := v]) == SumOver(order, counts)
  {
    if order != [] {
      SumOverFresh(order[..|order| - 1], counts, n, v);
    }
  }

  lemma {:induction false} SumOverUpdate(order: seq<string>, counts: map<string, int>, n: string, v: int)
    requires forall x :: x in order ==> x in counts
    requires Distinct(order) && n in order
    ensures SumOver(order, counts[n := v]) == SumOver(order, counts) - counts[n] + v
  {
    var prefix := order[..|order| - 1];
    var last := order[|order| - 1];
    if last == n {
      assert n !in prefix;
      SumOverFresh(prefix, counts, n, v);
    } else {
      assert n in prefix;
      SumOverUpdate(prefix, counts, n, v);
    }
  }

  lemma {:induction false} SumOverAppend(a: seq<string>, b: seq<string>, counts: map<string, int>)
    requires forall x :: x in a + b ==> x in counts
    ensures SumOver(a + b, counts) == SumOver(a, counts) + SumOver(b, counts)
    decreases |b|
  {
    if b == [] {
      assert a + b == a;
    } else {
      var prefix := b[..|b| - 1];
      assert (a + b)[..|a + b| - 1] == a + prefix;
      SumOverAppend(a, prefix, counts);
    }
  }

  lemma {:induction false} SumOverInsert(keys: seq<string>, k: string, counts: map<string, int>)
    requires AllIndexKeys(keys) && IsArrayIndex(k)
    requires k in counts && forall x :: x in keys ==> x in counts
    ensures SumOver(InsertIndexKey(keys, k), counts) == SumOver(keys, counts) + counts[k]
  {
    if keys == [] {
      assert SumOver([k], counts) == SumOver([], counts) + counts[k];
    } else if IndexValue(k) < IndexValue(keys[0]) {
      SumOverAppend([k], keys, counts);
      assert SumOver([k], counts) == SumOver([], counts) + counts[k];
    } else {
      SumOverInsert(keys[1..], k, counts);
      SumOverAppend([keys[0]], InsertIndexKey(keys[1..], k), counts);
      assert keys == [keys[0]] + keys[1..];
      SumOverAppend([keys[0]], keys[1..], counts);
    }
  }

  lemma {:induction false} SumOverSorted(keys: seq<string>, counts: map<string, int>)
    requires AllIndexKeys(keys) && forall x :: x in keys ==> x in counts
    ensures SumOver(SortIndexKeys(keys), counts) == SumOver(keys, counts)
  {
    if keys != [] {
      var prefix := keys[..|keys| - 1];
      SumOverSorted(prefix, counts);
      SumOverInsert(SortIndexKeys(prefix), keys[|keys| - 1], counts);
    }
  }

  lemma SumOverSnoc(a: seq<string>, x: string, counts: map<string, int>)
    requires x in counts && forall y :: y in a ==> y in counts
    ensures SumOver(a + [x], counts) == SumOver(a, counts) + counts[x]
  {
    assert (a + [x])[..|a|] == a;
  }

  lemma {:induction false} SumOverFilters(keys: seq<string>, counts: map<string, int>)
    requires forall x :: x in keys ==> x in counts
    ensures SumOver(IndexKeys(keys), counts) + SumOver(NamedKeys(keys), counts) == SumOver(keys, counts)
  {
    if keys != [] {
      var prefix := keys[..|keys| - 1];
      var last := keys[|keys| - 1];
      assert forall x :: x in prefix ==> x in keys;
      SumOverFilters(prefix, counts);
      if IsArrayIndex(last) {
        assert IndexKeys(keys) == IndexKeys(prefix) + [last];
        assert NamedKeys(keys) == NamedKeys(prefix);
        SumOverSnoc(IndexKeys(prefix), last, counts);
      } else {
        assert IndexKeys(keys) == IndexKeys(prefix);
        assert NamedKeys(keys) == NamedKeys(prefix) + [last];
        SumOverSnoc(NamedKeys(prefix), last, counts);
      }
    }
  }

  /** Listing the keys in own-key order does not change their sum. */
  lemma SumOverOwnKeys(keys: seq<string>, counts: map<string, int>)
    requires forall x :: x in keys ==> x in counts
    ensures SumOver(OwnKeys(keys), counts) == SumOver(keys, counts)
  {
    SumOverAppend(SortIndexKeys(IndexKeys(keys)), NamedKeys(keys), counts);
    SumOverSorted(IndexKeys(keys), counts);
    SumOverFilters(keys, counts);
  }

  /** One reducer step keeps the keys distinct and in step with the dictionary. */
  lemma StepWellFormed(acc: Acc, m: GridModel)
    requires WellFormed(acc)
    ensures WellFormed(Step(acc, m))
  {
  }

  /** Nothing is lost or counted twice: the entries add up to the sum of all contributing counts. */
  lemma {:induction false} TallyTotal(models: seq<GridModel>)
    ensures var t := Tally(models);
      WellFormed(t) && SumOver(t.order, t.counts) == TotalOf(models)
  {
    if models != [] {
      var prefix := models[..|models| - 1];
      var m := models[|models| - 1];
      TallyTotal(prefix);
      StepTotal(Tally(prefix), m);
    }
  }

  /** One reducer step adds the model's count, if it contributes, to the listed sum. */
  lemma StepTotal(acc: Acc, m: GridModel)
    requires WellFormed(acc)
    ensures var next := Step(acc, m);
      && WellFormed(next)
      && SumOver(next.order, next.counts) == SumOver(acc.order, acc.counts) + (if Contributes(m) then m.count.value else 0)
  {
    StepWellFormed(acc, m);
    if Contributes(m) {
      var name := m.name.value;
      if name in acc.counts {
        SumOverUpdate(acc.order, acc.counts, name, acc.counts[name] + m.count.value);
      } else {
        NewKeyTotal(acc, name, m.count.value);
      }
    }
  }

  /** Creating a key appends it to the key order and adds its value to the listed sum. */
  lemma NewKeyTotal(acc: Acc, name: string, v: int)
    requires WellFormed(acc) && name !in acc.counts
    ensures SumOver(acc.order + [name], acc.counts[name := v]) == SumOver(acc.order, acc.counts) + v
  {
    var order := acc.order + [name];
    assert order[..|order| - 1] == acc.order;
    SumOverFresh(acc.order, acc.counts, name, v);
  }

  function EntriesTotal(entries: seq<NameCount>): int {
    if entries == [] then 0 else EntriesTotal(entries[..|entries| - 1]) + entries[|entries| - 1].count
  }

  lemma {:induction false} EntriesTotalIsSumOver(order: seq<string>, counts: map<string, int>)
    requires forall n :: n in order ==> n in counts
    ensures EntriesTotal(EntriesOf(order, counts)) == SumOver(order, counts)
  {
    if order != [] {
      var prefix := order[..|order| - 1];
      EntriesTotalIsSumOver(prefix, counts);
      assert EntriesOf(order, counts)[..|order| - 1] == EntriesOf(prefix, counts);
    }
  }

  /**
   * `models.reduce(…)` then `Object.entries(…).map(…)`: the accumulator is a
   * dictionary updated in place, here a map and the order its keys were
   * created in; `Object.entries` lists them in own-key order.
   */
  method AggregateByName(models: seq<GridModel>) returns (entries: seq<NameCount>)
    ensures WellFormed(Tally(models)) && entries == Entries(Tally(models))
  {
    var acc: map<string, int> := map[];
    var order: seq<string> := [];
    for i := 0 to |models|
      invariant Acc(acc, order) == Tally(models[..i])
    {
      var model := models[i];
      assert models[..i + 1][..i] == models[..i];
      if model.name.Some? && model.name.value != "" && model.count.Some? {
        var name := model.name.value;
        if name !in acc {
          order := order + [name];
        }
        acc := acc[name := (if name in acc then acc[name] else 0) + model.count.value];
      }
    }
    assert models[..|models|] == models;
    TallySpec(models);
    var keys := OwnKeys(order);
    entries := seq(|keys|, i requires 0 <= i < |keys| => NameCount(keys[i], acc[keys[i]]));
  }

  /** Every contributing name has an entry. */
  lemma AggregateCovers(models: seq<GridModel>)
    ensures var t := Tally(models);
      WellFormed(t) &&
      var entries := Entries(t);
      forall k :: 0 <= k < |models| && Contributes(models[k]) ==>
        exists i :: 0 <= i < |entries| && entries[i].name == models[k].name.value
  {
    TallySpec(models);
    var t := Tally(models);
    var keys := OwnKeys(t.order);
    var entries := Entries(t);
    forall k | 0 <= k < |models| && Contributes(models[k])
      ensures exists i :: 0 <= i < |entries| && entries[i].name == models[k].name.value
    {
      var n := models[k].name.value;
      assert n in keys;
      var i :| 0 <= i < |keys| && keys[i] == n;
      assert entries[i].name == n;
    }
  }

  /** The entries hold every contributing count exactly once. */
  lemma AggregateTotal(models: seq<GridModel>)
    ensures var t := Tally(models);
      WellFormed(t) && EntriesTotal(Entries(t)) == TotalOf(models)
  {
    TallyTotal(models);
    var t := Tally(models);
    EntriesTotalIsSumOver(OwnKeys(t.order), t.counts);
    SumOverOwnKeys(t.order, t.counts);
  }

  /**
   * What the aggregation promises: one entry per distinct contributing name,
   * each holding that name's sum, and the entries together hold every
   * contributing count exactly once.
   */
  lemma AggregateSpec(models: seq<GridModel>)
    ensures var t := Tally(models);
      WellFormed(t) &&
      var entries := Entries(t);
      && (forall i, j :: 0 <= i < j < |entries| ==> entries[i].name != entries[j].name)
      && (forall i :: 0 <= i < |entries| ==> entries[i].count == SumFor(models, entries[i].name))
      && (forall k :: 0 <= k < |models| && Contributes(models[k]) ==>
            exists i :: 0 <= i < |entries| && entries[i].name == models[k].name.value)
      && EntriesTotal(entries) == TotalOf(models)
  {
    AggregateSums(models);
    AggregateCovers(models);
    AggregateTotal(models);
  }

  /** One entry per distinct name, holding that name's sum. */
  lemma AggregateSums(models: seq<GridModel>)
    ensures var t := Tally(models);
      WellFormed(t) &&
      var entries := Entries(t);
      && (forall i, j :: 0 <= i < j < |entries| ==> entries[i].name != entries[j].name)
      && (forall i :: 0 <= i < |entries| ==> entries[i].count == SumFor(models, entries[i].name))
  {
    TallySpec(models);
    var t := Tally(models);
    OwnKeysDistinct(t.order);
    var keys := OwnKeys(t.order);
    var entries := Entries(t);
    forall i, j | 0 <= i < j < |entries|
      ensures entries[i].name != entries[j].name
    {
      assert entries[i].name == keys[i] && entries[j].name == keys[j];
    }
  }

  /**
   * The order of the response: names that are array indices come first, in
   * ascending numeric order; the other names follow in the order in which
   * they first appear among the models.
   */
  lemma AggregateOrder(models: seq<GridModel>)
    ensures var t := Tally(models);
      WellFormed(t) &&
      var entries := Entries(t);
      && (forall i, j :: 0 <= i < j < |entries| && IsArrayIndex(entries[j].name) ==>
            IsArrayIndex(entries[i].name) && IndexValue(entries[i].name) < IndexValue(entries[j].name))
      && NamedKeys(Names(entries)) == NamedKeys(t.order)
      && (forall i, j :: 0 <= i < j < |t.order| ==> AppearsBefore(models, t.order[i], t.order[j]))
  {
    TallySpec(models);
    TallyFirstAppearance(models);
    var t := Tally(models);
    OwnKeysIndexFirst(t.order);
    OwnKeysKeepNamedOrder(t.order);
    assert Names(Entries(t)) == OwnKeys(t.order);
  }

  /** `GET`: `None` from the selection (a failed fetch) is `NextResponse.error()`. */
  method HandleGet(typeParam: Option<string>, imageReply: ModelsReply, textReply: ModelsReply)
    returns (resp: WorkersCountResponse)
    ensures var models := SelectModels(typeParam, imageReply, textReply);
      && (models.None? ==> resp == ResponseError)
      && (models.Some? ==> WellFormed(Tally(models.value)) && resp == Counts(Entries(Tally(models.value))))
  {
    var models := SelectModels(typeParam, imageReply, textReply);
    if models.None? {
      return ResponseError;
    }
    var entries := AggregateByName(models.value);
    resp := Counts(entries);
  }
}
