/**
 * The workers table of the dashboard: the search filter over worker names
 * and the cell formatters (status label, performance, uptime, bridge
 * agent). The React state and the rendering are not modelled.
 */
module WorkersList {
  import opened JsText

  const SECONDS_PER_DAY := 3600 * 24
  const NOT_AVAILABLE := "N/A"

  /** The fields of a listed worker that the table reads. */
  datatype WorkerRow = WorkerRow(
    name: string, online: bool, performance: Option<string>, uptime: nat,
    bridgeAgent: Option<string>)

  // ---------------------------------------------------------------------
  // Status and performance cells
  // ---------------------------------------------------------------------

  function StatusLabel(w: WorkerRow): (status: string)
    ensures status == "Online" <==> w.online
    ensures status == "Offline" <==> !w.online
  {
    if w.online then "Online" else "Offline"
  }

  /** `worker.performance ? worker.performance : 'N/A'`. */
  function PerformanceCell(w: WorkerRow): (cell: string)
    ensures w.performance.None? || w.performance.value == "" ==> cell == NOT_AVAILABLE
    ensures w.performance.Some? && w.performance.value != "" ==> cell == w.performance.value
  {
    if w.performance.Some? && w.performance.value != "" then w.performance.value else NOT_AVAILABLE
  }

  // ---------------------------------------------------------------------
  // formatUptime
  // ---------------------------------------------------------------------

  datatype Uptime = Uptime(days: nat, hours: nat, minutes: nat)

  /** Whole seconds covered by `u`. */
  function Seconds(u: Uptime): nat {
    u.days * 86400 + u.hours * 3600 + u.minutes * 60
  }

  /** `u` is the days, hours and minutes of `s` seconds: hours below 24, minutes below 60, under a minute left over. */
  predicate Splits(s: nat, u: Uptime) {
    u.hours < 24 && u.minutes < 60 && Seconds(u) <= s < Seconds(u) + 60
  }

  /** The three `Math.floor` divisions of `formatUptime`. */
  function UptimeOf(s: nat): (u: Uptime)
    ensures Splits(s, u)
  {
    var d := s / SECONDS_PER_DAY;
    var h := (s % SECONDS_PER_DAY) / 3600;
    var m := (s % 3600) / 60;
    DivisionsSplit(s, d, h, m);
    Uptime(d, h, m)
  }

  lemma DivisionsSplit(s: nat, d: nat, h: nat, m: nat)
    requires d == s / 86400 && h == (s % 86400) / 3600 && m == (s % 3600) / 60
    ensures h < 24 && m < 60
    ensures d * 86400 + h * 3600 + m * 60 <= s < d * 86400 + h * 3600 + m * 60 + 60
  {
    var r := s % 86400;
    assert s == d * 86400 + r;
    assert r == h * 3600 + r % 3600;
    assert s % 3600 == r % 3600 by {
      assert s == (d * 24) * 3600 + r;
    }
    assert r % 3600 == m * 60 + r % 3600 % 60;
  }

  lemma DaysUnique(s: nat, q: nat)
    requires q * 86400 <= s < q * 86400 + 86400
    ensures q == s / 86400
  {
  }

  lemma HoursUnique(s: nat, q: nat)
    requires q * 3600 <= s < q * 3600 + 3600
    ensures q == s / 3600
  {
  }

  lemma MinutesUnique(s: nat, q: nat)
    requires q * 60 <= s < q * 60 + 60
    ensures q == s / 60
  {
  }

  lemma RemainderOfHours(s: nat, q: nat, r: nat)
    requires s == q * 3600 + r && r < 3600
    ensures s % 3600 == r
  {
  }

  /** Exactly one triple splits a number of seconds, so the rendering names the uptime unambiguously. */
  lemma UptimeUnique(s: nat, u: Uptime)
    requires Splits(s, u)
    ensures u == UptimeOf(s)
  {
    var within := u.hours * 3600 + u.minutes * 60;
    DaysUnique(s, u.days);
    var r := s % 86400;
    assert r == s - u.days * 86400;
    HoursUnique(r, u.hours);
    RemainderOfHours(s, u.days * 24 + u.hours, s - Seconds(u) + u.minutes * 60);
    MinutesUnique(s % 3600, u.minutes);
  }

  /** `${days}d ${hours}h ${minutes}m`. */
  function FormatUptime(s: nat): string {
    var u := UptimeOf(s);
    NatToString(u.days) + "d " + NatToString(u.hours) + "h " + NatToString(u.minutes) + "m"
  }

  /** One field of the rendering: the number, then its unit letter. */
  function Field(n: nat, unit: char): string {
    NatToString(n) + [unit]
  }

  lemma FieldHasNoSpace(n: nat, unit: char)
    requires unit != ' '
    ensures ' ' !in Field(n, unit)
  {
    var f := Field(n, unit);
    forall i | 0 <= i < |f|
      ensures f[i] != ' '
    {
      if i < |f| - 1 {
        assert IsDigit(f[i]);
      }
    }
  }

  /**
   * The rendering reads back: split at its spaces it is three fields, each
   * ending in its unit letter, and their digits give the days, hours and
   * minutes.
   */
  lemma {:induction false} FormatUptimeReadsBack(s: nat)
    ensures var pieces := Split(FormatUptime(s), ' ');
      var u := UptimeOf(s);
      && |pieces| == 3
      && pieces[0] == NatToString(u.days) + "d"
      && pieces[1] == NatToString(u.hours) + "h"
      && pieces[2] == NatToString(u.minutes) + "m"
      && ParseDecimal(NatToString(u.days)) == u.days
      && ParseDecimal(NatToString(u.hours)) == u.hours
      && ParseDecimal(NatToString(u.minutes)) == u.minutes
  {
    var u := UptimeOf(s);
    var a, b, c := Field(u.days, 'd'), Field(u.hours, 'h'), Field(u.minutes, 'm');
    FieldHasNoSpace(u.days, 'd');
    FieldHasNoSpace(u.hours, 'h');
    FieldHasNoSpace(u.minutes, 'm');
    assert FormatUptime(s) == a + [' '] + (b + [' '] + c);
    SplitAfterPrefix(a, ' ', b + [' '] + c);
    SplitAfterPrefix(b, ' ', c);
    SplitNoSeparator(c, ' ');
    ParseNatToString(u.days);
    ParseNatToString(u.hours);
    ParseNatToString(u.minutes);
  }

  // ---------------------------------------------------------------------
  // extractBridgeAgent
  // ---------------------------------------------------------------------

  /**
   * `agent ? agent.split(':')[0] : 'N/A'`: for a present, non-empty agent,
   * the longest prefix without a colon.
   */
  function ExtractBridgeAgent(agent: Option<string>): (r: string)
    ensures agent.None? || agent.value == "" ==> r == NOT_AVAILABLE
    ensures agent.Some? && agent.value != "" ==>
      && StartsWith(agent.value, r)
      && ':' !in r
      && (r == agent.value || agent.value[|r|] == ':')
  {
    if agent.Some? && agent.value != "" then
      SplitFirstPiece(agent.value, ':');
      Split(agent.value, ':')[0]
    else NOT_AVAILABLE
  }

  /** The result is the only prefix that has no colon and stops at the first colon or the end. */
  lemma BridgeAgentUnique(agent: string, p: string)
    requires agent != ""
    requires StartsWith(agent, p) && ':' !in p && (p == agent || agent[|p|] == ':')
    ensures ExtractBridgeAgent(Some(agent)) == p
  {
    var r := ExtractBridgeAgent(Some(agent));
    assert r == agent[..|r|] && p == agent[..|p|];
    assert |r| < |p| ==> p[|r|] == agent[|r|];
  }

  /** An agent without a colon is shown whole. */
  lemma BridgeAgentWithoutColon(agent: string)
    requires agent != "" && ':' !in agent
    ensures ExtractBridgeAgent(Some(agent)) == agent
  {
    BridgeAgentUnique(agent, agent);
  }

  // ---------------------------------------------------------------------
  // The search filter
  // ---------------------------------------------------------------------

  /** `worker.name.toLowerCase().includes(searchTerm.toLowerCase())`. */
  predicate MatchesSearch(w: WorkerRow, term: string) {
    Includes(ToLower(w.name), ToLower(term))
  }

  /** `workers.filter(…)`. */
  function FilterWorkers(workers: seq<WorkerRow>, term: string): (shown: seq<WorkerRow>)
    ensures |shown| <= |workers|
  {
    if workers == [] then []
    else
      var w := workers[|workers| - 1];
      FilterWorkers(workers[..|workers| - 1], term) + (if MatchesSearch(w, term) then [w] else [])
  }

  /** A worker is shown exactly when it is listed and its name matches the search. */
  lemma {:induction false} FilterWorkersSpec(workers: seq<WorkerRow>, term: string)
    ensures forall w :: w in FilterWorkers(workers, term) <==> w in workers && MatchesSearch(w, term)
  {
    if workers != [] {
      var w := workers[|workers| - 1];
      var prefix := workers[..|workers| - 1];
      FilterWorkersSpec(prefix, term);
      assert workers == prefix + [w];
    }
  }

  /** The filter keeps the list order: it distributes over concatenation. */
  lemma {:induction false} FilterAppend(a: seq<WorkerRow>, b: seq<WorkerRow>, term: string)
    ensures FilterWorkers(a + b, term) == FilterWorkers(a, term) + FilterWorkers(b, term)
    decreases |b|
  {
    if b == [] {
      assert a + b == a;
    } else {
      var b' := b[..|b| - 1];
      assert (a + b)[..|a + b| - 1] == a + b';
      FilterAppend(a, b', term);
    }
  }

  /** An empty search shows every worker. */
  lemma {:induction false} EmptySearchKeepsAll(workers: seq<WorkerRow>)
    ensures FilterWorkers(workers, "") == workers
  {
    if workers != [] {
      EmptySearchKeepsAll(workers[..|workers| - 1]);
      IncludesEmpty(ToLower(workers[|workers| - 1].name));
      assert ToLower("") == "";
    }
  }

  /** The search ignores the case of the term's ASCII letters. */
  lemma SearchIgnoresCase(workers: seq<WorkerRow>, term: string)
    ensures FilterWorkers(workers, ToUpper(term)) == FilterWorkers(workers, term)
  {
    assert ToLower(ToUpper(term)) == ToLower(term);
    SameLoweredTermSameFilter(workers, ToUpper(term), term);
  }

  lemma {:induction false} SameLoweredTermSameFilter(workers: seq<WorkerRow>, t1: string, t2: string)
    requires ToLower(t1) == ToLower(t2)
    ensures FilterWorkers(workers, t1) == FilterWorkers(workers, t2)
  {
    if workers != [] {
      SameLoweredTermSameFilter(workers[..|workers| - 1], t1, t2);
    }
  }
}
