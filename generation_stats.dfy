/**
 * `GET /api/text-gen-stats` and `GET /api/image-gen-stats` (the two routes
 * differ only in the upstream URL): one row per model named in any of the
 * `day`, `month` and `total` objects, missing values as 0, sorted in place
 * by `total`, largest first.
 */
module GenerationStats {
  import opened JsText

  const TEXT_MODELS_STATS_URL := "https://api.aipowergrid.io/api/v2/stats/text/models"
  const IMAGE_MODELS_STATS_URL := "https://api.aipowergrid.io/api/v2/stats/img/models"

  /**
   * One timeframe object: its keys in `Object.keys` order, and the numeric
   * value of each key that has one (a key holding `null` has none).
   */
  datatype StatsTable = StatsTable(keys: seq<string>, values: map<string, int>)

  /** The parsed reply; a `None` timeframe is an absent or null one. */
  datatype StatsReply = StatsFailed
    | Stats(day: Option<StatsTable>, month: Option<StatsTable>, total: Option<StatsTable>)

  datatype Row = Row(name: string, day: int, month: int, total: int)

  datatype StatsResponse = ResponseError | StatsRows(rows: seq<Row>)

  // ---------------------------------------------------------------------
  // Key union and rows
  // ---------------------------------------------------------------------

  /** `Object.keys(t || {})`. */
  function KeysOf(t: Option<StatsTable>): seq<string> {
    if t.Some? then t.value.keys else []
  }

  /** `t?.[name] ?? 0`. */
  function ValueOf(t: Option<StatsTable>, name: string): (v: int)
    ensures (t.None? || name !in t.value.values) ==> v == 0
    ensures t.Some? && name in t.value.values ==> v == t.value.values[name]
  {
    if t.Some? && name in t.value.values then t.value.values[name] else 0
  }

  /** `Array.from(new Set(s))`: the first occurrence of each element, in order. */
  function Dedup(s: seq<string>): (d: seq<string>)
    ensures Distinct(d)
    ensures forall x :: x in d <==> x in s
    ensures |d| <= |s|
  {
    if s == [] then []
    else
      var prefix := Dedup(s[..|s| - 1]);
      var last := s[|s| - 1];
      assert forall x :: x in s <==> x in s[..|s| - 1] || x == last;
      if last in prefix then prefix else prefix + [last]
  }

  /** A sequence that already has no duplicates is its own set. */
  lemma {:induction false} DedupDistinct(s: seq<string>)
    requires Distinct(s)
    ensures Dedup(s) == s
  {
    if s != [] {
      DedupDistinct(s[..|s| - 1]);
      assert s[|s| - 1] !in s[..|s| - 1];
    }
  }

  /** `a` occurs in `s` at an index where `b` has not occurred yet. */
  ghost predicate OccursFirst(s: seq<string>, a: string, b: string) {
    exists p :: 0 <= p < |s| && s[p] == a && b !in s[..p + 1]
  }

  /** `Dedup` lists the elements in the order of their first occurrences. */
  lemma {:induction false} DedupFirstOccurrence(s: seq<string>)
    ensures forall i, j :: 0 <= i < j < |Dedup(s)| ==> OccursFirst(s, Dedup(s)[i], Dedup(s)[j])
  {
    if s != [] {
      var prefix, last := s[..|s| - 1], s[|s| - 1];
      DedupFirstOccurrence(prefix);
      var before := Dedup(prefix);
      var d := Dedup(s);
      forall i, j | 0 <= i < j < |d|
        ensures OccursFirst(s, d[i], d[j])
      {
        var a, b := d[i], d[j];
        assert a == before[i];
        if j < |before| {
          var p :| 0 <= p < |prefix| && prefix[p] == a && b !in prefix[..p + 1];
          assert s[..p + 1] == prefix[..p + 1];
        } else {
          assert b == last && last !in prefix;
          assert a in before;
          var p :| 0 <= p < |prefix| && prefix[p] == a;
          assert s[..p + 1] == prefix[..p + 1];
        }
      }
    }
  }

  /** The union of the three key lists, each name once. */
  function ModelNames(day: Option<StatsTable>, month: Option<StatsTable>, total: Option<StatsTable>): seq<string> {
    Dedup(KeysOf(day) + KeysOf(month) + KeysOf(total))
  }

  /** The rows before sorting. */
  function RowsOf(day: Option<StatsTable>, month: Option<StatsTable>, total: Option<StatsTable>): (rows: seq<Row>)
    ensures var names := ModelNames(day, month, total);
      |rows| == |names| && forall i :: 0 <= i < |rows| ==> rows[i].name == names[i]
  {
    var names := ModelNames(day, month, total);
    seq(|names|, i requires 0 <= i < |names| =>
      Row(names[i], ValueOf(day, names[i]), ValueOf(month, names[i]), ValueOf(total, names[i])))
  }

  /** Some row carries the name `n`. */
  predicate HasRow(rows: seq<Row>, n: string) {
    exists i :: 0 <= i < |rows| && rows[i].name == n
  }

  /**
   * Every name of any timeframe has exactly one row, no other name has one,
   * and each row holds that name's three values with 0 for a missing one.
   */
  lemma RowsSpec(day: Option<StatsTable>, month: Option<StatsTable>, total: Option<StatsTable>)
    ensures var rows := RowsOf(day, month, total);
      && (forall i, j :: 0 <= i < j < |rows| ==> rows[i].name != rows[j].name)
      && (forall n :: HasRow(rows, n) <==>
                      n in KeysOf(day) || n in KeysOf(month) || n in KeysOf(total))
      && (forall i :: 0 <= i < |rows| ==>
            rows[i] == Row(rows[i].name, ValueOf(day, rows[i].name), ValueOf(month, rows[i].name),
                           ValueOf(total, rows[i].name)))
  {
    var rows := RowsOf(day, month, total);
    var names := ModelNames(day, month, total);
    forall n
      ensures HasRow(rows, n) <==>
              n in KeysOf(day) || n in KeysOf(month) || n in KeysOf(total)
    {
      if n in names {
        var i :| 0 <= i < |names| && names[i] == n;
        assert rows[i].name == n;
      }
    }
  }

  // ---------------------------------------------------------------------
  // The sort
  // ---------------------------------------------------------------------

  predicate SortedDesc(s: seq<Row>) {
    forall i, j :: 0 <= i < j < |s| ==> s[i].total >= s[j].total
  }

  /** Inserts `x` after every leading row whose total is at least its own. */
  function InsertDesc(s: seq<Row>, x: Row): seq<Row> {
    if s == [] then [x]
    else if s[0].total >= x.total then [s[0]] + InsertDesc(s[1..], x)
    else [x] + s
  }

  /**
   * The result of `models.sort((a, b) => b.total - a.total)`: a stable sort
   * by descending total, written as insertion sort.
   */
  function SortDesc(s: seq<Row>): seq<Row> {
    if s == [] then [] else InsertDesc(SortDesc(s[..|s| - 1]), s[|s| - 1])
  }

  /** The rows whose total is `t`, in their order in `s`. */
  function WithTotal(s: seq<Row>, t: int): (w: seq<Row>)
    ensures |w| <= |s|
    ensures forall k :: 0 <= k < |w| ==> w[k].total == t
  {
    if s == [] then []
    else (if s[0].total == t then [s[0]] else []) + WithTotal(s[1..], t)
  }

  lemma {:induction false} WithTotalAppend(a: seq<Row>, b: seq<Row>, t: int)
    ensures WithTotal(a + b, t) == WithTotal(a, t) + WithTotal(b, t)
  {
    if a != [] {
      WithTotalAppend(a[1..], b, t);
      assert (a + b)[0] == a[0] && (a + b)[1..] == a[1..] + b;
    } else {
      assert a + b == b;
    }
  }

  lemma {:induction false} WithTotalNone(s: seq<Row>, t: int)
    requires forall k :: 0 <= k < |s| ==> s[k].total != t
    ensures WithTotal(s, t) == []
  {
    if s != [] {
      WithTotalNone(s[1..], t);
    }
  }

  lemma WithTotalCons(x: Row, s: seq<Row>, t: int)
    ensures WithTotal([x] + s, t) == (if x.total == t then [x] else []) + WithTotal(s, t)
  {
    assert ([x] + s)[1..] == s;
  }

  /** Insertion into sorted rows puts `x` after every row of the same total. */
  lemma {:induction false} InsertDescStable(s: seq<Row>, x: Row, t: int)
    requires SortedDesc(s)
    ensures WithTotal(InsertDesc(s, x), t) == WithTotal(s, t) + (if x.total == t then [x] else [])
  {
    if s == [] {
      WithTotalCons(x, [], t);
    } else if s[0].total >= x.total {
      InsertDescStable(s[1..], x, t);
      InsertBehindStable(s, x, t);
    } else {
      InsertInFrontStable(s, x, t);
    }
  }

  /** The step of `InsertDescStable` where `x` goes behind `s[0]`. */
  lemma InsertBehindStable(s: seq<Row>, x: Row, t: int)
    requires s != [] && s[0].total >= x.total
    requires WithTotal(InsertDesc(s[1..], x), t) == WithTotal(s[1..], t) + (if x.total == t then [x] else [])
    ensures WithTotal(InsertDesc(s, x), t) == WithTotal(s, t) + (if x.total == t then [x] else [])
  {
    var r, h, xs := InsertDesc(s[1..], x), (if s[0].total == t then [s[0]] else []), (if x.total == t then [x] else []);
    assert InsertDesc(s, x) == [s[0]] + r;
    WithTotalCons(s[0], r, t);
    assert [s[0]] + s[1..] == s;
    WithTotalCons(s[0], s[1..], t);
    ConcatAssoc(h, WithTotal(s[1..], t), xs);
  }

  lemma ConcatAssoc(a: seq<Row>, b: seq<Row>, c: seq<Row>)
    ensures a + (b + c) == (a + b) + c
  {
  }

  /** The step of `InsertDescStable` where `x` goes in front of sorted rows of smaller totals. */
  lemma InsertInFrontStable(s: seq<Row>, x: Row, t: int)
    requires SortedDesc(s) && s != [] && s[0].total < x.total
    ensures WithTotal(InsertDesc(s, x), t) == WithTotal(s, t) + (if x.total == t then [x] else [])
  {
    WithTotalCons(x, s, t);
    if x.total == t {
      WithTotalNone(s, t);
    }
  }

  lemma SortDescSorted(s: seq<Row>)
    ensures SortedDesc(SortDesc(s))
  {
    SortDescSpec(s);
  }

  /**
   * The sort is stable: the rows of any one total keep their input order,
   * as `Array.prototype.sort` guarantees.
   */
  lemma {:induction false} SortDescStable(s: seq<Row>, t: int)
    ensures WithTotal(SortDesc(s), t) == WithTotal(s, t)
  {
    if s != [] {
      var prefix, last := s[..|s| - 1], s[|s| - 1];
      SortDescStable(prefix, t);
      SortDescSorted(prefix);
      InsertDescStable(SortDesc(prefix), last, t);
      assert s == prefix + [last];
      WithTotalAppend(prefix, [last], t);
      WithTotalCons(last, [], t);
      assert [last] + [] == [last];
    }
  }

  lemma {:induction false} InsertDescPermutes(s: seq<Row>, x: Row)
    ensures multiset(InsertDesc(s, x)) == multiset(s) + multiset{x}
  {
    if s != [] && s[0].total >= x.total {
      var rest := InsertDesc(s[1..], x);
      InsertDescPermutes(s[1..], x);
      assert InsertDesc(s, x) == [s[0]] + rest;
      assert multiset([s[0]] + rest) == multiset([s[0]]) + multiset(rest);
      assert s == [s[0]] + s[1..];
      assert multiset(s) == multiset([s[0]]) + multiset(s[1..]);
    }
  }

  lemma {:induction false} InsertDescSorted(s: seq<Row>, x: Row)
    requires SortedDesc(s)
    ensures SortedDesc(InsertDesc(s, x))
  {
    if s != [] && s[0].total >= x.total {
      InsertDescSorted(s[1..], x);
      InsertDescPermutes(s[1..], x);
      var r := InsertDesc(s[1..], x);
      forall y | y in r
        ensures s[0].total >= y.total
      {
        assert y in multiset(r);
        assert y in multiset(s[1..]) || y == x;
      }
    }
  }

  /** The result is ordered by total, largest first, and holds exactly the input rows. */
  lemma {:induction false} SortDescSpec(s: seq<Row>)
    ensures SortedDesc(SortDesc(s))
    ensures multiset(SortDesc(s)) == multiset(s)
  {
    if s != [] {
      var prefix, last := s[..|s| - 1], s[|s| - 1];
      SortDescSpec(prefix);
      var sorted := SortDesc(prefix);
      assert SortDesc(s) == InsertDesc(sorted, last);
      InsertDescSorted(sorted, last);
      InsertDescPermutes(sorted, last);
      assert s == prefix + [last];
      assert multiset(s) == multiset(prefix) + multiset{last};
    }
  }

  /** Where the insertion lands in a sorted sequence: after the first `k` rows, whose totals are at least `x`'s. */
  lemma {:induction false} InsertDescAt(s: seq<Row>, x: Row, k: nat)
    requires k <= |s|
    requires forall j :: 0 <= j < k ==> s[j].total >= x.total
    requires k == |s| || s[k].total < x.total
    ensures InsertDesc(s, x) == s[..k] + [x] + s[k..]
  {
    if k > 0 {
      InsertDescAt(s[1..], x, k - 1);
      assert s[..k] == [s[0]] + s[1..][..k - 1];
      assert s[k..] == s[1..][k - 1..];
    }
  }

  /**
   * The inner loop of one pass: every row left of `i` with a smaller total
   * than `x` moves one place right, and the returned gap `j` is where `x`
   * belongs.
   */
  method ShiftGreater(a: array<Row>, i: nat, x: Row) returns (j: nat)
    requires i < a.Length
    modifies a
    ensures j <= i
    ensures forall k :: 0 <= k < j ==> a[k] == old(a[k])
    ensures forall k :: j < k <= i ==> a[k] == old(a[k - 1])
    ensures forall k :: i < k < a.Length ==> a[k] == old(a[k])
    ensures forall k :: j <= k < i ==> old(a[k]).total < x.total
    ensures j == 0 || old(a[j - 1]).total >= x.total
  {
    j := i;
    while j > 0 && a[j - 1].total < x.total
      invariant 0 <= j <= i
      invariant forall k :: 0 <= k < j ==> a[k] == old(a[k])
      invariant forall k :: j < k <= i ==> a[k] == old(a[k - 1])
      invariant forall k :: j <= k < i ==> old(a[k]).total < x.total
      invariant forall k :: i < k < a.Length ==> a[k] == old(a[k])
    {
      a[j] := a[j - 1];
      j := j - 1;
    }
  }

  /**
   * One pass of the sort: `a[..i]` is already sorted, and `a[i]` moves left
   * past every row with a smaller total.
   */
  method InsertAt(a: array<Row>, i: nat)
    requires i < a.Length
    requires SortedDesc(a[..i])
    modifies a
    ensures a[..i + 1] == InsertDesc(old(a[..i]), old(a[i]))
    ensures a[i + 1..] == old(a[i + 1..])
  {
    ghost var sorted := a[..i];
    var x := a[i];
    var j := ShiftGreater(a, i, x);
    a[j] := x;
    assert j == 0 || sorted[j - 1].total >= x.total;
    SortedPrefixAtLeast(sorted, x, j);
    InsertDescAt(sorted, x, j);
    ShiftedIsInserted(a[..i + 1], sorted, x, j);
  }

  /** A sequence that holds `s[..j]`, then `x`, then the rest of `s` shifted by one is the insertion of `x` at `j`. */
  lemma ShiftedIsInserted(r: seq<Row>, s: seq<Row>, x: Row, j: nat)
    requires j <= |s| && |r| == |s| + 1
    requires forall k :: 0 <= k < j ==> r[k] == s[k]
    requires r[j] == x
    requires forall k :: j < k < |r| ==> r[k] == s[k - 1]
    ensures r == s[..j] + [x] + s[j..]
  {
  }

  /** Rows already in order are left where they are (the comparator never reorders equal totals). */
  lemma {:induction false} SortDescOfSorted(s: seq<Row>)
    requires SortedDesc(s)
    ensures SortDesc(s) == s
  {
    if s != [] {
      var prefix, last := s[..|s| - 1], s[|s| - 1];
      assert SortedDesc(prefix);
      SortDescOfSorted(prefix);
      assert SortDesc(s) == InsertDesc(prefix, last);
      InsertDescAt(prefix, last, |prefix|);
      assert prefix[..|prefix|] == prefix && prefix[|prefix|..] == [];
      assert s == prefix + [last];
    }
  }

  /** In a sorted sequence, every row before one whose total is at least `x`'s also has a total at least `x`'s. */
  lemma SortedPrefixAtLeast(s: seq<Row>, x: Row, k: nat)
    requires SortedDesc(s) && k <= |s|
    requires k == 0 || s[k - 1].total >= x.total
    ensures forall j :: 0 <= j < k ==> s[j].total >= x.total
  {
  }

  /** `models.sort(…)`: insertion sort in place on the array. */
  method SortByTotalDesc(a: array<Row>)
    modifies a
    ensures a[..] == SortDesc(old(a[..]))
  {
    ghost var orig := a[..];
    for i := 0 to a.Length
      invariant a[..i] == SortDesc(orig[..i])
      invariant a[i..] == orig[i..]
    {
      SortDescSpec(orig[..i]);
      InsertAt(a, i);
      assert orig[..i + 1][..i] == orig[..i];
    }
    assert orig[..a.Length] == orig;
  }

  // ---------------------------------------------------------------------
  // The route
  // ---------------------------------------------------------------------

  /** `GET`: the sorted rows, or `NextResponse.error()` when the fetch is not ok. */
  method HandleGet(reply: StatsReply) returns (resp: StatsResponse)
    ensures reply.StatsFailed? ==> resp == ResponseError
    ensures reply.Stats? ==> resp == StatsRows(SortDesc(RowsOf(reply.day, reply.month, reply.total)))
  {
    if reply.StatsFailed? {
      return ResponseError;
    }
    var models := RowsOf(reply.day, reply.month, reply.total);
    var a := new Row[|models|](i requires 0 <= i < |models| => models[i]);
    assert a[..] == models;
    SortByTotalDesc(a);
    resp := StatsRows(a[..]);
  }

  /**
   * What a successful reply promises: one row per name of the union, each
   * once, sorted by total with the largest first.
   */
  lemma HandleGetSpec(day: Option<StatsTable>, month: Option<StatsTable>, total: Option<StatsTable>)
    ensures var rows := SortDesc(RowsOf(day, month, total));
      && SortedDesc(rows)
      && multiset(rows) == multiset(RowsOf(day, month, total))
      && (forall n :: HasRow(rows, n) <==>
                      n in KeysOf(day) || n in KeysOf(month) || n in KeysOf(total))
  {
    var unsorted := RowsOf(day, month, total);
    var rows := SortDesc(unsorted);
    SortDescSpec(unsorted);
    RowsSpec(day, month, total);
    forall n
      ensures HasRow(rows, n) <==>
              HasRow(unsorted, n)
    {
      if HasRow(rows, n) {
        var i :| 0 <= i < |rows| && rows[i].name == n;
        assert rows[i] in multiset(unsorted);
        var k :| 0 <= k < |unsorted| && unsorted[k] == rows[i];
      }
      if HasRow(unsorted, n) {
        var i :| 0 <= i < |unsorted| && unsorted[i].name == n;
        assert unsorted[i] in multiset(rows);
        var k :| 0 <= k < |rows| && rows[k] == unsorted[i];
      }
    }
  }
}
