/**
 * `GET /api/workers-rewards`: the grid's workers whose name, once stripped
 * of surrounding quotes, is an AIPG address, reduced to their reward
 * fields.
 */
module WorkersRewards {
  import opened JsText

  const WORKERS_URL := "https://api.aipowergrid.io/api/v2/workers"

  datatype KudosDetails = KudosDetails(generated: Option<int>, uptime: Option<int>)

  /** A worker record as the grid lists it; `name` is `None` when absent or not a string. */
  datatype Worker = Worker(
    id: string, name: Option<string>, requestsFulfilled: int, kudosRewards: int,
    kudosDetails: Option<KudosDetails>)

  /** An output record; `None` is `null`. */
  datatype Reward = Reward(
    id: string, name: string, requestsFulfilled: int, kudosRewards: int,
    kudosGenerated: Option<int>, kudosUptime: Option<int>)

  datatype WorkersReply = WorkersFailed | WorkersList(workers: seq<Worker>)

  datatype RewardsResponse = JsonError(status: int, error: string) | Rewards(rewards: seq<Reward>)

  const INTERNAL_ERROR := JsonError(500, "Internal Server Error")

  // ---------------------------------------------------------------------
  // sanitizeWorkerName
  // ---------------------------------------------------------------------

  /** `name.replace(/^"|"$/g, '')`: one quote off the front, then one off the end of what is left. */
  function Sanitize(name: string): (r: string)
    ensures var a := if |name| > 0 && name[0] == '"' then 1 else 0;
      var rest := name[a..];
      var b := if |rest| > 0 && rest[|rest| - 1] == '"' then |name| - 1 else |name|;
      a <= b && r == name[a..b]
  {
    var rest := if |name| > 0 && name[0] == '"' then name[1..] else name;
    if |rest| > 0 && rest[|rest| - 1] == '"' then rest[..|rest| - 1] else rest
  }

  /** At most one character goes from each end. */
  lemma SanitizeBounds(name: string)
    ensures |name| - 2 <= |Sanitize(name)| <= |name|
  {
  }

  /** A name in quotes loses exactly those quotes, whatever it holds. */
  lemma SanitizeQuoted(inner: string)
    ensures Sanitize("\"" + inner + "\"") == inner
  {
    var s := "\"" + inner + "\"";
    assert s[0] == '"';
    assert s[1..] == inner + "\"";
  }

  /** A name without a quote at either end is left as it is. */
  lemma SanitizeUnquoted(name: string)
    requires name == [] || (name[0] != '"' && name[|name| - 1] != '"')
    ensures Sanitize(name) == name
  {
  }

  // ---------------------------------------------------------------------
  // aipgAddressRegex
  // ---------------------------------------------------------------------

  /** A character of `[a-km-zA-HJ-NP-Z1-9]`: the base58 alphabet, without 0, O, I and l. */
  predicate Base58Char(c: char) {
    ('a' <= c <= 'k') || ('m' <= c <= 'z') || ('A' <= c <= 'H') || ('J' <= c <= 'N')
    || ('P' <= c <= 'Z') || ('1' <= c <= '9')
  }

  /** `/^[A][a-km-zA-HJ-NP-Z1-9]{25,34}$/.test(s)`. */
  predicate IsAipgAddress(s: string) {
    26 <= |s| <= 35 && s[0] == 'A' && forall i :: 1 <= i < |s| ==> Base58Char(s[i])
  }

  /** An address holds no quote, so sanitising it again changes nothing. */
  lemma AddressIsSanitized(s: string)
    requires IsAipgAddress(s)
    ensures Sanitize(s) == s
  {
    assert !Base58Char('"');
    assert s[|s| - 1] != '"';
  }

  /** The characters the alphabet leaves out are never part of an address. */
  lemma AddressExcludesLookalikes(s: string)
    requires IsAipgAddress(s)
    ensures '0' !in s && 'O' !in s && 'I' !in s && 'l' !in s
  {
    forall i | 0 <= i < |s|
      ensures s[i] != '0' && s[i] != 'O' && s[i] != 'I' && s[i] != 'l'
    {
      if i > 0 {
        assert Base58Char(s[i]);
      }
    }
  }

  // ---------------------------------------------------------------------
  // The filter and the map
  // ---------------------------------------------------------------------

  predicate Named(workers: seq<Worker>) {
    forall k :: 0 <= k < |workers| ==> workers[k].name.Some?
  }

  predicate Keeps(w: Worker)
    requires w.name.Some?
  {
    IsAipgAddress(Sanitize(w.name.value))
  }

  function RewardOf(w: Worker): (r: Reward)
    requires w.name.Some?
    ensures r.name == Sanitize(w.name.value) && r.id == w.id
    ensures r.requestsFulfilled == w.requestsFulfilled && r.kudosRewards == w.kudosRewards
    ensures r.kudosGenerated == (if w.kudosDetails.Some? then w.kudosDetails.value.generated else None)
    ensures r.kudosUptime == (if w.kudosDetails.Some? then w.kudosDetails.value.uptime else None)
  {
    var details := w.kudosDetails;
    Reward(w.id, Sanitize(w.name.value), w.requestsFulfilled, w.kudosRewards,
      if details.Some? then details.value.generated else None,
      if details.Some? then details.value.uptime else None)
  }

  /** `data.filter(…).map(…)`. */
  function RewardsOf(workers: seq<Worker>): (rewards: seq<Reward>)
    requires Named(workers)
    ensures |rewards| <= |workers|
    ensures forall i :: 0 <= i < |rewards| ==> IsAipgAddress(rewards[i].name)
  {
    if workers == [] then []
    else
      var w := workers[|workers| - 1];
      RewardsOf(workers[..|workers| - 1]) + (if Keeps(w) then [RewardOf(w)] else [])
  }

  /** The filter and map go worker by worker, in order: the output of a concatenation is the concatenation of the outputs. */
  lemma {:induction false} RewardsAppend(a: seq<Worker>, b: seq<Worker>)
    requires Named(a) && Named(b)
    ensures Named(a + b) && RewardsOf(a + b) == RewardsOf(a) + RewardsOf(b)
    decreases |b|
  {
    if b != [] {
      var b' := b[..|b| - 1];
      assert (a + b)[..|a + b| - 1] == a + b';
      RewardsAppend(a, b');
    } else {
      assert a + b == a;
    }
  }

  /** One worker gives one reward exactly when its sanitized name is an address. */
  lemma RewardsSingle(w: Worker)
    requires w.name.Some?
    ensures RewardsOf([w]) == if Keeps(w) then [RewardOf(w)] else []
  {
    assert [w][..0] == [];
  }

  /** `GET`: the rewards, or 500 when the fetch is not ok or a worker has no string name. */
  function HandleGet(reply: WorkersReply): (resp: RewardsResponse)
    ensures reply.WorkersFailed? ==> resp == INTERNAL_ERROR
    ensures reply.WorkersList? && !Named(reply.workers) ==> resp == INTERNAL_ERROR
    ensures reply.WorkersList? && Named(reply.workers) ==> resp == Rewards(RewardsOf(reply.workers))
  {
    if reply.WorkersFailed? || !Named(reply.workers) then INTERNAL_ERROR
    else Rewards(RewardsOf(reply.workers))
  }
}
