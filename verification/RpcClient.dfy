/** The JSON-RPC client of the Core daemon: one connection, one retry (internal/core/rpc_client.go). */
module RpcClient {
  import opened Sequences

  /**
   A line read back; an id that is missing or no integer is None. Section 5 of the JSON-RPC 2.0
   Specification: a response carries its request's id.
   */
  datatype Line = Garbled | Reply(id: Option<int>, failed: bool, result: string)

  /** What the link does during one round trip, should the client get that far. */
  datatype Trip = Trip(dials: bool, writes: bool, heard: Option<Line>)

  /** `delivered` lists the ids of the requests written in full, in order. */
  datatype Client = Client(id: int, connected: bool, delivered: seq<int>)

  const FRESH := Client(0, false, [])

  predicate Mutating(method_: string) {
    method_ in {"state_apply_tx", "state_credit", "state_credit_token", "kernel_apply_batch", "kernel_commit_diff",
                "rocks_commit_block", "rocks_bootstrap_snapshot", "migrate_json_to_rocks",
                "dag_insert", "dag_try_commit", "dag_try_commit_batches", "dag_reset",
                "dag_ingest", "mempool_admit", "block_cycle"}
  }

  /** The result of a line for this request: a missing id reads as zero. */
  function Accepted(line: Line, id: int): Option<string> {
    if line.Reply? && (if line.id.None? then 0 else line.id.value) == id && !line.failed then Some(line.result)
    else None
  }

  /** One round trip: the client after it, whether the request was written, and the result. */
  function RoundTrip(c: Client, t: Trip): (Client, bool, Option<string>) {
    if !c.connected && !t.dials then (c, false, None)
    else if !t.writes then (c.(connected := false), false, None)
    else
      var sent := c.(connected := true, delivered := c.delivered + [c.id]);
      if t.heard.None? then (sent.(connected := false), true, None)
      else (sent, true, Accepted(t.heard.value, c.id))
  }

  /** A call: what it asks, and what the link would do on the first trip, the redial and the second trip. */
  datatype Call = Call(name: string, first: Trip, redials: bool, second: Trip)

  /** `once` says which methods must not be sent twice. */
  function Perform(once: string -> bool, c: Client, call: Call): (Client, Option<string>) {
    var (d, wrote, out) := RoundTrip(c.(id := c.id + 1), call.first);
    if out.Some? || (wrote && once(call.name)) then (d, out)
    else if !call.redials then (d.(connected := false), None)
    else
      var (e, _, again) := RoundTrip(d.(connected := true), call.second);
      (e, again)
  }

  // ----- one call -----

  function Copies(n: nat, x: int): seq<int> {
    seq(n, _ => x)
  }

  /** How often one call delivers its request. */
  function Sent(once: string -> bool, c: Client, call: Call): (n: nat)
    ensures Perform(once, c, call).0.delivered == c.delivered + Copies(n, c.id + 1)
    ensures n <= if once(call.name) then 1 else 2
    ensures Perform(once, c, call).1.Some? ==> n >= 1
  {
    var (d, wrote, out) := RoundTrip(c.(id := c.id + 1), call.first);
    var first := if wrote then 1 else 0;
    assert d.delivered == c.delivered + Copies(first, c.id + 1);
    if out.Some? || (wrote && once(call.name)) || !call.redials then first
    else
      var second := if call.second.writes then 1 else 0;
      assert c.delivered + Copies(first, c.id + 1) + Copies(second, c.id + 1) ==
             c.delivered + Copies(first + second, c.id + 1);
      assert Copies(1, c.id + 1) == [c.id + 1];
      first + second
  }

  function Count(ids: seq<int>, id: int): nat {
    if ids == [] then 0 else Count(ids[..|ids| - 1], id) + if ids[|ids| - 1] == id then 1 else 0
  }

  lemma {:induction false} CountMore(ids: seq<int>, n: nat, x: int, id: int)
    ensures Count(ids + Copies(n, x), id) == Count(ids, id) + if id == x then n else 0
    decreases n
  {
    var all := ids + Copies(n, x);
    if n == 0 {
      assert all == ids;
    } else {
      CountMore(ids, n - 1, x, id);
      assert all[..|all| - 1] == ids + Copies(n - 1, x);
    }
  }

  /** A call delivers nothing under any id but its own. */
  lemma DeliversItsOwn(once: string -> bool, c: Client, call: Call, id: int)
    ensures Count(Perform(once, c, call).0.delivered, id) ==
            Count(c.delivered, id) + if id == c.id + 1 then Sent(once, c, call) else 0
  {
    CountAppended(c.delivered, Perform(once, c, call).0.delivered, Sent(once, c, call), c.id + 1, id);
  }

  lemma CountAppended(before: seq<int>, after: seq<int>, n: nat, x: int, id: int)
    requires after == before + Copies(n, x)
    ensures Count(after, id) == Count(before, id) + if id == x then n else 0
  {
    CountMore(before, n, x, id);
  }

  lemma NextId(once: string -> bool, c: Client, call: Call)
    ensures Perform(once, c, call).0.id == c.id + 1
  {
  }

  /** A method that must not be sent twice is tried again exactly when its request was not written the first time. */
  lemma RetriedOnlyIfUnwritten(once: string -> bool, c: Client, call: Call)
    requires once(call.name) && call.redials && call.second.writes
    ensures Sent(once, c, call) == 1
  {
  }

  // ----- runs -----

  ghost function Run(once: string -> bool, calls: seq<Call>): Client {
    if calls == [] then FRESH else Perform(once, Run(once, calls[..|calls| - 1]), calls[|calls| - 1]).0
  }

  /** The k-th call's outcome. */
  ghost function Outcome(once: string -> bool, calls: seq<Call>, k: nat): Option<string>
    requires k < |calls|
  {
    Perform(once, Run(once, calls[..k]), calls[k]).1
  }

  lemma {:induction false} IdsCountCalls(once: string -> bool, calls: seq<Call>)
    ensures Run(once, calls).id == |calls|
    decreases |calls|
  {
    if calls != [] {
      var n := |calls| - 1;
      IdsCountCalls(once, calls[..n]);
      NextId(once, Run(once, calls[..n]), calls[n]);
    }
  }

  /** How often the k-th call delivered its request. */
  ghost function SentAt(once: string -> bool, calls: seq<Call>, k: nat): nat
    requires k < |calls|
  {
    Sent(once, Run(once, calls[..k]), calls[k])
  }

  /** The deliveries of one id so far. */
  ghost function Deliveries(once: string -> bool, calls: seq<Call>, id: int): nat {
    Count(Run(once, calls).delivered, id)
  }

  lemma LastCall(once: string -> bool, calls: seq<Call>, id: int)
    requires calls != []
    ensures var n := |calls| - 1;
            Deliveries(once, calls, id) ==
            Deliveries(once, calls[..n], id) + if id == n + 1 then SentAt(once, calls, n) else 0
  {
    var n := |calls| - 1;
    IdsCountCalls(once, calls[..n]);
    DeliversItsOwn(once, Run(once, calls[..n]), calls[n], id);
  }

  lemma {:induction false} NotYetSent(once: string -> bool, calls: seq<Call>, id: int)
    requires id > |calls|
    ensures Deliveries(once, calls, id) == 0
    decreases |calls|
  {
    if calls != [] {
      NotYetSent(once, calls[..|calls| - 1], id);
      LastCall(once, calls, id);
    }
  }

  lemma SentBefore(once: string -> bool, calls: seq<Call>, n: nat, k: nat)
    requires k < n <= |calls|
    ensures SentAt(once, calls[..n], k) == SentAt(once, calls, k)
  {
    assert calls[..n][..k] == calls[..k];
  }

  /** In the end each request has been delivered just as often as its own call delivered it. */
  lemma {:induction false} DeliveredByItsCall(once: string -> bool, calls: seq<Call>, k: nat)
    requires k < |calls|
    ensures Deliveries(once, calls, k + 1) == SentAt(once, calls, k)
    decreases |calls|
  {
    var n := |calls| - 1;
    LastCall(once, calls, k + 1);
    if k < n {
      DeliveredByItsCall(once, calls[..n], k);
      SentBefore(once, calls, n, k);
    } else {
      NotYetSent(once, calls[..n], n + 1);
    }
  }

  /**
   In every run, whatever the link does: a mutating call's request is delivered at most once, and
   exactly once if the call succeeded; any other at most twice.
   */
  lemma AtMostOnce(calls: seq<Call>, k: nat)
    requires k < |calls|
    ensures var n := Deliveries(Mutating, calls, k + 1);
            && n <= (if Mutating(calls[k].name) then 1 else 2)
            && (Outcome(Mutating, calls, k).Some? ==> n >= 1)
  {
    DeliveredByItsCall(Mutating, calls, k);
  }

  /** The line carries this id and this result, and no error. */
  predicate Carries(line: Line, id: int, result: string) {
    line == Reply(Some(id), false, result)
  }

  /** The k-th call returns a result only from a line that carries its own id: stale lines are never accepted. */
  lemma OnlyItsOwnResponse(once: string -> bool, calls: seq<Call>, k: nat, result: string)
    requires k < |calls| && Outcome(once, calls, k) == Some(result)
    ensures || (calls[k].first.heard.Some? && Carries(calls[k].first.heard.value, k + 1, result))
            || (calls[k].second.heard.Some? && Carries(calls[k].second.heard.value, k + 1, result))
  {
    IdsCountCalls(once, calls[..k]);
  }

  ghost predicate Truthful(t: Trip, answer: int -> string) {
    t.heard.Some? && t.heard.value.Reply? && t.heard.value.id.Some? && !t.heard.value.failed ==>
      t.heard.value.result == answer(t.heard.value.id.value)
  }

  /** If Core answers each request with its id and one answer, a successful call returns that answer. */
  lemma ResultIsTheAnswer(once: string -> bool, calls: seq<Call>, k: nat, answer: int -> string)
    requires k < |calls|
    requires forall i :: 0 <= i < |calls| ==> Truthful(calls[i].first, answer) && Truthful(calls[i].second, answer)
    ensures Outcome(once, calls, k) == None || Outcome(once, calls, k) == Some(answer(k + 1))
  {
    var out := Outcome(once, calls, k);
    if out.Some? {
      OnlyItsOwnResponse(once, calls, k, out.value);
    }
  }

  // ----- the client object -----

  class RPCClient {
    var id: int
    var connected: bool
    ghost var delivered: seq<int>

    ghost function Now(): Client
      reads this
    {
      Client(id, connected, delivered)
    }

    constructor ()
      ensures Now() == FRESH
    {
      id, connected, delivered := 0, false, [];
    }

    method RoundTripLocked(t: Trip) returns (wrote: bool, out: Option<string>)
      modifies this
      ensures (Now(), wrote, out) == RoundTrip(old(Now()), t)
    {
      if !connected {
        if !t.dials {
          return false, None;
        }
        connected := true;
      }
      if !t.writes {
        connected := false;
        return false, None;
      }
      delivered := delivered + [id];
      if t.heard.None? {
        connected := false;
        return true, None;
      }
      return true, Accepted(t.heard.value, id);
    }

    method Invoke(call: Call) returns (out: Option<string>)
      modifies this
      ensures (Now(), out) == Perform(Mutating, old(Now()), call)
    {
      id := id + 1;
      var wrote: bool;
      wrote, out := RoundTripLocked(call.first);
      if out.Some? || (wrote && Mutating(call.name)) {
        return;
      }
      connected := call.redials;
      if !connected {
        return;
      }
      wrote, out := RoundTripLocked(call.second);
    }
  }
}
