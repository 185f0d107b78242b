/** One request through the router (control-plane/router/router.go:71-155, 268-296): the retry loop
    with its set of tried workers, the point of no return, and the metrics hook.

    What a worker does to a proxied call is an oracle: `proxied(k, id)` is the outcome when the k-th
    attempt goes to worker `id`. So is what pickWorker reads off the in-flight counters at the k-th
    choice, `flights(k)`: every counter twice, and other requests may move it in between. */
module RequestRouting {
  import opened Http
  import opened Membership
  import opened Options
  import opened Routing
  import opened Sets
  import Arithmetic
  import Catalogue
  import RegistryService

  /** What the handler makes of a request before it looks for a worker. */
  datatype Received =
    | NotPost
    | Unreadable
    | Malformed
    | Asks(model: string)

  /** What becomes of one proxied call; `body` is what of the worker's body reached the client. */
  datatype Proxied =
    | BuildFails
    | Unreachable
    | Streamed(status: int, body: string)
    | Interrupted(status: int, body: string)

  /** Nothing was written to the client yet. */
  predicate Retryable(p: Proxied) {
    p.BuildFails? || p.Unreachable?
  }

  const MAX_ATTEMPTS := 3

  /** What is written after the status: one of the router's own messages, or a worker's bytes. */
  datatype Payload =
    | Message(text: Text)
    | FromWorker(bytes: string)

  datatype Text = MethodNotAllowed | FailedToRead | NoModelField | NoHealthyWorkers | AllWorkersFailed

  /** What the metrics hook is told. */
  datatype Outcome = Success | Error

  datatype HookCall = HookCall(model: string, outcome: Outcome)

  /** The two passes of pickWorker over the in-flight counters. */
  datatype Readings = Readings(first: string -> int, second: string -> int)

  // ---------------------------------------------------------------- what the attempts were

  datatype Access = Inc(workerId: string) | Dec(workerId: string)

  /** Each attempt counted while it lasted, and only then. */
  function Balanced(tried: seq<Entry>): (log: seq<Access>)
    ensures |log| == 2 * |tried|
    ensures forall k :: 0 <= k < |tried| ==>
              log[2 * k] == Inc(tried[k].info.workerId) && log[2 * k + 1] == Dec(tried[k].info.workerId)
  {
    if tried == [] then []
    else
      var id := tried[|tried| - 1].info.workerId;
      Balanced(tried[..|tried| - 1]) + [Inc(id), Dec(id)]
  }

  function TriedIds(tried: seq<Entry>): set<string> {
    if tried == [] then {}
    else TriedIds(tried[..|tried| - 1]) + {tried[|tried| - 1].info.workerId}
  }

  /** The workers that can serve a model. */
  function Pool(entries: map<string, Entry>, model: string): (pool: map<string, Entry>)
    ensures pool.Keys == Catalogue.Servers(entries, model)
  {
    map id | id in Catalogue.Servers(entries, model) :: entries[id]
  }

  /** The first pass finds this minimum among the workers that are open to choice. */
  ghost predicate IsLeastCount(open: map<string, Entry>, first: string -> int, m: int) {
    && (forall id :: id in open ==> m <= first(id))
    && (exists id :: id in open && first(id) == m)
  }

  /** The worker reads m in the second pass, and none that does is cheaper. */
  ghost predicate IsCheapestAt(e: Entry, open: map<string, Entry>, second: string -> int, m: int) {
    && second(e.info.workerId) == m
    && forall id :: id in open && second(id) == m ==> e.info.costPerHour <= open[id].info.costPerHour
  }

  ghost predicate Agree(open: map<string, Entry>, r: Readings) {
    forall id :: id in open ==> r.first(id) == r.second(id)
  }

  /** One of the open workers, a cheapest of those the second pass still finds at the minimum of the
      first; with counts that stay as they are, a lexicographic minimum of all. */
  ghost predicate IsChoice(e: Entry, open: map<string, Entry>, r: Readings) {
    && e.info.workerId in open && open[e.info.workerId] == e
    && (|open| > 1 ==> exists m :: IsLeastCount(open, r.first, m) && IsCheapestAt(e, open, r.second, m))
    && (Agree(open, r) ==> forall id :: id in open ==> NoWorse(e, open[id], r.first))
  }

  /** No open worker is at the minimum any more when the second pass reads it, and pickWorker, which
      has a choice to make, indexes into an empty slice. */
  ghost predicate FindsNobody(open: map<string, Entry>, r: Readings) {
    |open| > 1 && exists m :: IsLeastCount(open, r.first, m) && forall id :: id in open ==> r.second(id) != m
  }

  /** Each attempt went to a worker chosen among those not tried before. */
  ghost predicate AreAttempts(tried: seq<Entry>, pool: map<string, Entry>, flights: nat -> Readings) {
    if tried == [] then true
    else
      var n := |tried| - 1;
      && AreAttempts(tried[..n], pool, flights)
      && IsChoice(tried[n], pool - TriedIds(tried[..n]), flights(n))
  }

  /** What became of the last attempt. */
  function LastOf(tried: seq<Entry>, proxied: (nat, string) -> Proxied): Proxied
    requires tried != []
  {
    proxied(|tried| - 1, tried[|tried| - 1].info.workerId)
  }

  predicate AllRetryable(tried: seq<Entry>, proxied: (nat, string) -> Proxied) {
    if tried == [] then true
    else AllRetryable(tried[..|tried| - 1], proxied) && Retryable(LastOf(tried, proxied))
  }

  /** The whole of what one request did: it stopped at its first attempt that was not retryable, or
      when there were no attempts left, or crashed, which it did exactly if there was another attempt
      to make and the choice found nobody. */
  ghost predicate IsSearch(
      tried: seq<Entry>, crashed: bool, pool: map<string, Entry>, flights: nat -> Readings,
      proxied: (nat, string) -> Proxied)
  {
    && AreAttempts(tried, pool, flights)
    && |tried| <= Arithmetic.Min(|pool|, MAX_ATTEMPTS)
    && (tried != [] ==> AllRetryable(tried[..|tried| - 1], proxied))
    && (crashed <==>
          && AllRetryable(tried, proxied)
          && |tried| < Arithmetic.Min(|pool|, MAX_ATTEMPTS)
          && FindsNobody(pool - TriedIds(tried), flights(|tried|)))
    && (AllRetryable(tried, proxied) && !crashed ==> |tried| == Arithmetic.Min(|pool|, MAX_ATTEMPTS))
  }

  lemma {:induction false} IsTried(tried: seq<Entry>, id: string)
    ensures id in TriedIds(tried) <==> exists k :: 0 <= k < |tried| && tried[k].info.workerId == id
  {
    if tried != [] {
      var n := |tried| - 1;
      IsTried(tried[..n], id);
      assert tried == tried[..n] + [tried[n]];
    }
  }

  /** The workers tried for one request are pairwise distinct, and all of them can serve it. */
  lemma {:induction false} TriedAreDistinct(
      tried: seq<Entry>, pool: map<string, Entry>, flights: nat -> Readings)
    requires AreAttempts(tried, pool, flights)
    ensures TriedIds(tried) <= pool.Keys
    ensures |TriedIds(tried)| == |tried| <= |pool|
  {
    if tried != [] {
      TriedAreDistinct(tried[..|tried| - 1], pool, flights);
    }
    SubsetSize(TriedIds(tried), pool.Keys);
  }

  /** With counts that stay as they are no choice crashes. */
  lemma SteadyCountsNeverCrash(
      tried: seq<Entry>, crashed: bool, pool: map<string, Entry>, flights: nat -> Readings,
      proxied: (nat, string) -> Proxied)
    requires IsSearch(tried, crashed, pool, flights, proxied)
    requires Agree(pool - TriedIds(tried), flights(|tried|))
    ensures !crashed
  {
    var open, r := pool - TriedIds(tried), flights(|tried|);
    forall m | IsLeastCount(open, r.first, m) ensures exists id :: id in open && r.second(id) == m {
      var id :| id in open && r.first(id) == m;
      assert r.second(id) == m;
    }
  }

  lemma {:induction false} RetryableAt(tried: seq<Entry>, proxied: (nat, string) -> Proxied, k: nat)
    requires AllRetryable(tried, proxied) && k < |tried|
    ensures Retryable(proxied(k, tried[k].info.workerId))
  {
    if k < |tried| - 1 {
      RetryableAt(tried[..|tried| - 1], proxied, k);
    }
  }

  /** The client sees the router's own 502 only if nobody could be reached: with at most three
      workers for the model, one that is reachable throughout is never missed, unless a choice on
      moving counts crashes first. */
  lemma ReachableWorkerIsFound(
      tried: seq<Entry>, crashed: bool, pool: map<string, Entry>, flights: nat -> Readings,
      proxied: (nat, string) -> Proxied, id: string)
    requires IsSearch(tried, crashed, pool, flights, proxied) && |pool| <= 3
    requires id in pool && forall k: nat :: !Retryable(proxied(k, id))
    ensures crashed || (tried != [] && !Retryable(LastOf(tried, proxied)))
  {
    if AllRetryable(tried, proxied) && !crashed {
      TriedAreDistinct(tried, pool, flights);
      SubsetSize(TriedIds(tried), pool.Keys);
      IsTried(tried, id);
      var k: nat :| k < |tried| && tried[k].info.workerId == id;
      RetryableAt(tried, proxied, k);
      assert false;
    }
  }

  /** Nobody was written to: none of the attempts got an answer. */
  predicate AllUnanswered(tried: seq<Entry>, proxied: (nat, string) -> Proxied) {
    forall k :: 0 <= k < |tried| ==>
      proxied(k, tried[k].info.workerId) == BuildFails || proxied(k, tried[k].info.workerId) == Unreachable
  }

  lemma {:induction false} UnansweredAreRetryable(tried: seq<Entry>, proxied: (nat, string) -> Proxied)
    ensures AllRetryable(tried, proxied) <==> AllUnanswered(tried, proxied)
  {
    if tried != [] {
      var n := |tried| - 1;
      UnansweredAreRetryable(tried[..n], proxied);
      assert forall k :: 0 <= k < n ==> tried[..n][k] == tried[k];
    }
  }

  lemma NewIdsDiffer(before: seq<Entry>, e: Entry)
    requires DistinctIds(before) && e.info.workerId !in TriedIds(before)
    ensures DistinctIds(before + [e])
  {
    IsTried(before, e.info.workerId);
  }

  lemma {:induction false} AttemptsDiffer(tried: seq<Entry>, pool: map<string, Entry>, flights: nat -> Readings)
    requires AreAttempts(tried, pool, flights)
    ensures DistinctIds(tried)
  {
    if tried != [] {
      var n := |tried| - 1;
      AttemptsDiffer(tried[..n], pool, flights);
      NewIdsDiffer(tried[..n], tried[n]);
      assert tried == tried[..n] + [tried[n]];
    }
  }

  lemma LastDecides(tried: seq<Entry>, proxied: (nat, string) -> Proxied)
    requires tried != [] && AllRetryable(tried[..|tried| - 1], proxied)
    ensures AllUnanswered(tried[..|tried| - 1], proxied)
    ensures Retryable(LastOf(tried, proxied)) <==> AllUnanswered(tried, proxied)
    ensures AllRetryable(tried, proxied) <==> AllUnanswered(tried, proxied)
  {
    UnansweredAreRetryable(tried[..|tried| - 1], proxied);
    UnansweredAreRetryable(tried, proxied);
  }

  /** Exactly when the loop gives up: after min(n, 3) attempts at different workers, none of which
      was answered. */
  lemma GivesUpAfterThree(
      tried: seq<Entry>, crashed: bool, pool: map<string, Entry>, flights: nat -> Readings,
      proxied: (nat, string) -> Proxied)
    requires IsSearch(tried, crashed, pool, flights, proxied) && !crashed && tried != []
    ensures |tried| <= |pool| && |tried| <= 3 && DistinctIds(tried)
    ensures TriedIds(tried) <= pool.Keys
    ensures AllUnanswered(tried[..|tried| - 1], proxied)
    ensures Retryable(LastOf(tried, proxied)) <==> AllUnanswered(tried, proxied)
    ensures AllUnanswered(tried, proxied) ==> |tried| == if |pool| < 3 then |pool| else 3
  {
    AttemptsDiffer(tried, pool, flights);
    TriedAreDistinct(tried, pool, flights);
    LastDecides(tried, proxied);
  }

  // ---------------------------------------------------------------- lists and sets of workers

  /** The router's list against the registry's map. */
  ghost predicate Lists(workers: seq<Entry>, pool: map<string, Entry>) {
    && |workers| == |pool| && DistinctIds(workers)
    && (forall id :: id in pool ==> pool[id].info.workerId == id)
    && (forall e :: e in workers <==> e.info.workerId in pool && pool[e.info.workerId] == e)
  }

  ghost predicate DistinctIds(workers: seq<Entry>) {
    forall i, j :: 0 <= i < j < |workers| ==> workers[i].info.workerId != workers[j].info.workerId
  }

  lemma {:induction false} IdsAreCounted(workers: seq<Entry>)
    requires DistinctIds(workers)
    ensures |TriedIds(workers)| == |workers|
  {
    if workers != [] {
      var n := |workers| - 1;
      IdsAreCounted(workers[..n]);
      IsTried(workers[..n], workers[n].info.workerId);
    }
  }

  lemma DistinctListing(workers: seq<Entry>, pool: map<string, Entry>)
    requires DistinctIds(workers)
    requires forall id :: id in pool ==> pool[id].info.workerId == id
    requires forall e :: e in workers <==> e.info.workerId in pool && pool[e.info.workerId] == e
    ensures Lists(workers, pool)
  {
    IdsAreCounted(workers);
    forall id ensures id in TriedIds(workers) <==> id in pool {
      IsTried(workers, id);
      if id in pool {
        assert pool[id] in workers;
      }
      forall k | 0 <= k < |workers| && workers[k].info.workerId == id ensures id in pool {
        assert workers[k] in workers;
      }
    }
    assert TriedIds(workers) == pool.Keys;
  }

  function Untried(ids: set<string>): Entry -> bool {
    (e: Entry) => e.info.workerId !in ids
  }

  /** As long as there are attempts left there is a worker that was not tried: the loop's guard
      against an empty candidate list never fires. */
  lemma SomebodyIsLeft(
      workers: seq<Entry>, tried: seq<Entry>, pool: map<string, Entry>, flights: nat -> Readings)
    requires Lists(workers, pool) && AreAttempts(tried, pool, flights)
    requires |tried| < |workers|
    ensures Filter(workers, Untried(TriedIds(tried))) != []
  {
    TriedAreDistinct(tried, pool, flights);
    if forall id :: id in pool ==> id in TriedIds(tried) {
      SubsetSize(pool.Keys, TriedIds(tried));
      assert false;
    }
    var id :| id in pool && id !in TriedIds(tried);
    FilterKeeps(workers, Untried(TriedIds(tried)), pool[id]);
  }

  lemma {:induction false} FilterKeepsIdsDistinct(workers: seq<Entry>, p: Entry -> bool)
    requires DistinctIds(workers)
    ensures DistinctIds(Filter(workers, p))
  {
    if workers != [] {
      var n := |workers| - 1;
      FilterKeepsIdsDistinct(workers[..n], p);
      var front := Filter(workers[..n], p);
      forall k | 0 <= k < |front| ensures front[k].info.workerId != workers[n].info.workerId {
        assert front[k] in front;
        FilterKeeps(workers[..n], p, front[k]);
      }
    }
  }

  /** The candidates list the open workers, as the list of all lists the pool. */
  lemma CandidatesAreOpen(workers: seq<Entry>, before: set<string>, pool: map<string, Entry>)
    requires Lists(workers, pool)
    ensures Lists(Filter(workers, Untried(before)), pool - before)
  {
    var candidates := Filter(workers, Untried(before));
    FilterKeepsIdsDistinct(workers, Untried(before));
    forall e ensures e in candidates <==> e in workers && e.info.workerId !in before {
      FilterKeeps(workers, Untried(before), e);
    }
    DistinctListing(candidates, pool - before);
  }

  lemma LeastCountOfList(candidates: seq<Entry>, open: map<string, Entry>, first: string -> int, m: int)
    requires Lists(candidates, open)
    ensures IsMinFlight(candidates, first, m) <==> IsLeastCount(open, first, m)
  {
    forall id | id in open ensures open[id] in candidates {
    }
    if IsMinFlight(candidates, first, m) {
      var w :| w in candidates && first(w.info.workerId) == m;
      assert w.info.workerId in open;
      forall id | id in open ensures m <= first(id) {
        assert open[id] in candidates;
      }
    }
    if IsLeastCount(open, first, m) {
      var id :| id in open && first(id) == m;
      assert open[id] in candidates;
    }
  }

  lemma ChosenIsChoice(e: Entry, candidates: seq<Entry>, open: map<string, Entry>, r: Readings, m: int)
    requires Lists(candidates, open) && e in candidates && IsMinFlight(candidates, r.first, m)
    requires |candidates| > 1 ==> IsCheapest(e, SecondPass(candidates, r.second, m))
    requires Stable(candidates, r.first, r.second) ==> Minimal(e, candidates, r.first)
    ensures IsChoice(e, open, r)
  {
    LeastCountOfList(candidates, open, r.first, m);
    forall id | id in open ensures open[id] in candidates {
    }
    if |open| > 1 {
      var left := SecondPass(candidates, r.second, m);
      FilterKeeps(candidates, HasFlight(r.second, m), e);
      forall id | id in open && r.second(id) == m ensures e.info.costPerHour <= open[id].info.costPerHour {
        FilterKeeps(candidates, HasFlight(r.second, m), open[id]);
        assert open[id] in left;
      }
      assert IsCheapestAt(e, open, r.second, m);
    }
  }

  lemma NobodyIsFound(candidates: seq<Entry>, open: map<string, Entry>, r: Readings, m: int)
    requires Lists(candidates, open) && IsMinFlight(candidates, r.first, m)
    ensures |candidates| > 1 && SecondPass(candidates, r.second, m) == [] <==> FindsNobody(open, r)
  {
    LeastCountOfList(candidates, open, r.first, m);
    var left := SecondPass(candidates, r.second, m);
    forall id | id in open ensures open[id] in left <==> r.second(id) == m {
      assert open[id] in candidates;
      FilterKeeps(candidates, HasFlight(r.second, m), open[id]);
    }
    if left != [] {
      var w := left[0];
      FilterKeeps(candidates, HasFlight(r.second, m), w);
      assert w.info.workerId in open && r.second(w.info.workerId) == m;
      forall n | IsLeastCount(open, r.first, n) ensures n == m {
        LeastCountsAgree(open, r.first, m, n);
      }
    }
  }

  lemma LeastCountsAgree(open: map<string, Entry>, first: string -> int, m: int, n: int)
    requires IsLeastCount(open, first, m) && IsLeastCount(open, first, n)
    ensures m == n
  {
  }

  /** The search so far: every attempt failed before anything was written. */
  ghost predicate IsUnderWay(
      tried: seq<Entry>, pool: map<string, Entry>, flights: nat -> Readings, proxied: (nat, string) -> Proxied)
  {
    AreAttempts(tried, pool, flights) && AllRetryable(tried, proxied)
  }

  /** It ended with an attempt that was not retryable. */
  ghost predicate IsCommitted(
      tried: seq<Entry>, pool: map<string, Entry>, flights: nat -> Readings, proxied: (nat, string) -> Proxied)
  {
    && tried != []
    && AreAttempts(tried, pool, flights)
    && |tried| <= Arithmetic.Min(|pool|, MAX_ATTEMPTS)
    && AllRetryable(tried[..|tried| - 1], proxied)
    && !Retryable(LastOf(tried, proxied))
  }

  /** It ended without attempts left. */
  ghost predicate IsExhausted(
      tried: seq<Entry>, pool: map<string, Entry>, flights: nat -> Readings, proxied: (nat, string) -> Proxied)
  {
    && tried != []
    && IsUnderWay(tried, pool, flights, proxied)
    && |tried| == Arithmetic.Min(|pool|, MAX_ATTEMPTS)
  }

  /** It ended in a crash. */
  ghost predicate IsCrashed(
      tried: seq<Entry>, pool: map<string, Entry>, flights: nat -> Readings, proxied: (nat, string) -> Proxied)
  {
    && IsUnderWay(tried, pool, flights, proxied)
    && |tried| < Arithmetic.Min(|pool|, MAX_ATTEMPTS)
    && FindsNobody(pool - TriedIds(tried), flights(|tried|))
  }

  lemma IdsExtend(before: seq<Entry>, e: Entry)
    ensures TriedIds(before + [e]) == TriedIds(before) + {e.info.workerId}
  {
    assert (before + [e])[..|before|] == before;
  }

  lemma LastExtends(before: seq<Entry>, e: Entry, proxied: (nat, string) -> Proxied)
    ensures LastOf(before + [e], proxied) == proxied(|before|, e.info.workerId)
  {
    assert (before + [e])[|before|] == e;
  }

  lemma LogExtends(log: seq<Access>, before: seq<Entry>, e: Entry)
    ensures (log + Balanced(before)) + [Inc(e.info.workerId), Dec(e.info.workerId)] == log + Balanced(before + [e])
  {
    assert (before + [e])[..|before|] == before;
    assert Balanced(before + [e]) == Balanced(before) + [Inc(e.info.workerId), Dec(e.info.workerId)];
  }

  lemma AttemptsExtend(before: seq<Entry>, e: Entry, pool: map<string, Entry>, flights: nat -> Readings)
    requires AreAttempts(before, pool, flights) && IsChoice(e, pool - TriedIds(before), flights(|before|))
    ensures AreAttempts(before + [e], pool, flights)
  {
    assert (before + [e])[..|before|] == before;
  }

  /** What one more attempt makes of the search. */
  lemma SearchExtends(
      before: seq<Entry>, e: Entry, pool: map<string, Entry>, flights: nat -> Readings,
      proxied: (nat, string) -> Proxied)
    requires AreAttempts(before + [e], pool, flights) && AllRetryable(before, proxied)
    requires |before| < Arithmetic.Min(|pool|, MAX_ATTEMPTS)
    ensures if Retryable(LastOf(before + [e], proxied)) then IsUnderWay(before + [e], pool, flights, proxied)
            else IsCommitted(before + [e], pool, flights, proxied)
  {
    assert (before + [e])[..|before|] == before;
  }

  lemma EveryEndIsSearch(
      tried: seq<Entry>, pool: map<string, Entry>, flights: nat -> Readings, proxied: (nat, string) -> Proxied)
    ensures IsCommitted(tried, pool, flights, proxied) ==> IsSearch(tried, false, pool, flights, proxied)
    ensures IsExhausted(tried, pool, flights, proxied) ==> IsSearch(tried, false, pool, flights, proxied)
    ensures IsCrashed(tried, pool, flights, proxied) ==> IsSearch(tried, true, pool, flights, proxied)
  {
  }

  // ---------------------------------------------------------------- the handler

  /** A worker's response, as far as it came. */
  predicate IsResponse(last: Proxied, statuses: seq<int>, written: seq<Payload>) {
    !Retryable(last) && statuses == [last.status] && written == [FromWorker(last.body)]
  }

  /** How the loop ends; `failed` is a worker's response that broke off. */
  datatype End = Crashed | Exhausted | Committed(failed: bool)

  /** A request that got as far as the loop and did not crash: the response and the hook follow from
      the last attempt. */
  ghost predicate Answered(
      last: Proxied, model: string, statuses: seq<int>, written: seq<Payload>, reported: seq<HookCall>, hasHook: bool)
  {
    && (if Retryable(last) then statuses == [502] && written == [Message(AllWorkersFailed)]
        else IsResponse(last, statuses, written))
    && reported == if hasHook then [HookCall(model, if last.Streamed? then Success else Error)] else []
  }

  /** What a request that did not crash has tried, in plain terms: up to three different workers, until
      one answered; and if none did, then all of them, or three. */
  ghost predicate IsTrail(tried: seq<Entry>, pool: map<string, Entry>, proxied: (nat, string) -> Proxied) {
    && 1 <= |tried| <= |pool| && |tried| <= 3 && DistinctIds(tried)
    && AllUnanswered(tried[..|tried| - 1], proxied)
    && (Retryable(LastOf(tried, proxied)) <==> AllUnanswered(tried, proxied))
    && (AllUnanswered(tried, proxied) ==> |tried| == if |pool| < 3 then |pool| else 3)
  }

  lemma SearchIsTrail(
      tried: seq<Entry>, pool: map<string, Entry>, flights: nat -> Readings, proxied: (nat, string) -> Proxied)
    requires IsSearch(tried, false, pool, flights, proxied) && tried != []
    ensures IsTrail(tried, pool, proxied)
  {
    GivesUpAfterThree(tried, false, pool, flights, proxied);
  }

  /** As many workers as there are, but no more than three, were tried, and none of them answered. */
  ghost predicate GaveUp(tried: seq<Entry>, pool: map<string, Entry>, proxied: (nat, string) -> Proxied) {
    |tried| == (if |pool| < 3 then |pool| else 3) && DistinctIds(tried) && AllUnanswered(tried, proxied)
  }

  lemma OwnFailureMeansGivenUp(
      tried: seq<Entry>, pool: map<string, Entry>, proxied: (nat, string) -> Proxied, model: string,
      statuses: seq<int>, written: seq<Payload>, reported: seq<HookCall>, hasHook: bool)
    requires IsTrail(tried, pool, proxied)
    requires Answered(LastOf(tried, proxied), model, statuses, written, reported, hasHook)
    ensures Message(AllWorkersFailed) in written <==> GaveUp(tried, pool, proxied)
    ensures Message(AllWorkersFailed) in written ==> statuses == [502]
  {
  }

  class Router {
    const registry: RegistryService.Registry
    const counter: Counter
    const hasHook: bool
    var hookCalls: seq<HookCall>
    var accesses: seq<Access>

    constructor (registry: RegistryService.Registry, hasHook: bool)
      ensures this.registry == registry && this.hasHook == hasHook && fresh(counter)
      ensures counter.value == 0 && hookCalls == [] && accesses == []
    {
      this.registry, this.hasHook := registry, hasHook;
      hookCalls, accesses := [], [];
      counter := new Counter();
    }

    method OnRequest(model: string, outcome: Outcome) returns (ghost reported: seq<HookCall>)
      modifies this`hookCalls
      ensures reported == if hasHook then [HookCall(model, outcome)] else []
      ensures hookCalls == old(hookCalls) + reported
    {
      reported := if hasHook then [HookCall(model, outcome)] else [];
      if hasHook {
        hookCalls := hookCalls + [HookCall(model, outcome)];
      }
    }

    /** Commits the response as soon as the worker has answered. */
    method Proxy(w: ResponseWriter<Payload>, p: Proxied) returns (retryable: bool, failed: bool)
      modifies w
      ensures retryable == Retryable(p) && failed == !p.Streamed?
      ensures w.statuses == old(w.statuses) + if Retryable(p) then [] else [p.status]
      ensures w.written == old(w.written) + if Retryable(p) then [] else [FromWorker(p.body)]
    {
      match p
      case BuildFails =>
        return true, true;
      case Unreachable =>
        return true, true;
      case Streamed(status, body) =>
        w.WriteHeader(status);
        w.Write(FromWorker(body));
        return false, false;
      case Interrupted(status, body) =>
        w.WriteHeader(status);
        w.Write(FromWorker(body));
        return false, true;
    }

    /** `None` is a panic. */
    method Choose(workers: seq<Entry>, triedIds: set<string>, r: Readings, ghost pool: map<string, Entry>)
      returns (chosen: Option<Entry>)
      requires Lists(workers, pool) && Filter(workers, Untried(triedIds)) != []
      modifies counter
      ensures chosen == None <==> FindsNobody(pool - triedIds, r)
      ensures chosen.Some? ==> IsChoice(chosen.value, pool - triedIds, r)
    {
      var candidates := Select(workers, Untried(triedIds));
      CandidatesAreOpen(workers, triedIds, pool);
      ghost var m;
      chosen, m := PickWorker(candidates, counter, r.first, r.second);
      NobodyIsFound(candidates, pool - triedIds, r, m);
      if chosen.Some? {
        ChosenIsChoice(chosen.value, candidates, pool - triedIds, r, m);
      }
    }

    /** Proxies to a worker while it is counted as in flight. */
    method Ask(id: string, p: Proxied, w: ResponseWriter<Payload>) returns (retryable: bool, failed: bool)
      modifies w, this`accesses
      ensures accesses == old(accesses) + [Inc(id), Dec(id)]
      ensures retryable == Retryable(p) && failed == !p.Streamed?
      ensures w.statuses == old(w.statuses) + if Retryable(p) then [] else [p.status]
      ensures w.written == old(w.written) + if Retryable(p) then [] else [FromWorker(p.body)]
    {
      accesses := accesses + [Inc(id)];
      retryable, failed := Proxy(w, p);
      accesses := accesses + [Dec(id)];
    }

    /** One round: choose among the untried, and ask. */
    method TryNext(
        workers: seq<Entry>, triedIds: set<string>, ghost pool: map<string, Entry>, ghost before: seq<Entry>,
        ghost log: seq<Access>, flights: nat -> Readings, proxied: (nat, string) -> Proxied, k: nat,
        w: ResponseWriter<Payload>)
      returns (chosen: Option<Entry>, retryable: bool, failed: bool)
      requires Lists(workers, pool) && IsUnderWay(before, pool, flights, proxied)
      requires k == |before| < Arithmetic.Min(|workers|, MAX_ATTEMPTS) && triedIds == TriedIds(before)
      requires w.statuses == [] && w.written == [] && accesses == log + Balanced(before)
      modifies w, counter, this`accesses
      ensures chosen == None ==> IsCrashed(before, pool, flights, proxied)
      ensures chosen.Some? ==>
                var tried, id := before + [chosen.value], chosen.value.info.workerId;
                && TriedIds(tried) == triedIds + {id}
                && LastOf(tried, proxied) == proxied(k, id)
                && retryable == Retryable(proxied(k, id)) && failed == !proxied(k, id).Streamed?
                && (if retryable then IsUnderWay(tried, pool, flights, proxied)
                    else IsCommitted(tried, pool, flights, proxied))
                && accesses == log + Balanced(tried)
      ensures chosen == None ==> accesses == old(accesses)
      ensures chosen == None || retryable ==> w.statuses == [] && w.written == []
      ensures chosen.Some? && !retryable ==>
                var p := proxied(k, chosen.value.info.workerId);
                w.statuses == [p.status] && w.written == [FromWorker(p.body)]
    {
      SomebodyIsLeft(workers, before, pool, flights);
      chosen := Choose(workers, triedIds, flights(k), pool);
      if chosen == None {
        return None, false, true;
      }
      var id := chosen.value.info.workerId;
      IdsExtend(before, chosen.value);
      LastExtends(before, chosen.value, proxied);
      LogExtends(log, before, chosen.value);
      AttemptsExtend(before, chosen.value, pool, flights);
      SearchExtends(before, chosen.value, pool, flights, proxied);
      retryable, failed := Ask(id, proxied(k, id), w);
    }

    /** The retry loop, over the workers that were healthy when the request came. `tried` is who was
        asked, in order. A crash leaves the response unwritten. */
    method Search(
        workers: seq<Entry>, ghost pool: map<string, Entry>,
        flights: nat -> Readings, proxied: (nat, string) -> Proxied, w: ResponseWriter<Payload>)
      returns (ghost tried: seq<Entry>, end: End)
      requires Lists(workers, pool) && workers != []
      requires w.statuses == [] && w.written == []
      modifies w, counter, this`accesses
      ensures accesses == old(accesses) + Balanced(tried)
      ensures end == Crashed ==> IsCrashed(tried, pool, flights, proxied)
      ensures end == Exhausted ==> IsExhausted(tried, pool, flights, proxied)
      ensures end.Committed? ==> IsCommitted(tried, pool, flights, proxied)
      ensures end.Committed? ==> IsResponse(LastOf(tried, proxied), w.statuses, w.written)
      ensures end.Committed? ==> end.failed == !LastOf(tried, proxied).Streamed?
      ensures !end.Committed? ==> w.statuses == [] && w.written == []
    {
      var maxAttempts := Arithmetic.Min(|workers|, MAX_ATTEMPTS);
      var triedIds: set<string> := {};
      tried := [];
      for attempt := 1 to maxAttempts + 1
        invariant |tried| == attempt - 1 && triedIds == TriedIds(tried)
        invariant IsUnderWay(tried, pool, flights, proxied)
        invariant accesses == old(accesses) + Balanced(tried)
        invariant w.statuses == [] && w.written == []
      {
        ghost var before := tried;
        var chosen, retryable, failed;
        chosen, retryable, failed :=
          TryNext(workers, triedIds, pool, before, old(accesses), flights, proxied, attempt - 1, w);
        if chosen == None {
          return tried, Crashed;
        }
        triedIds := triedIds + {chosen.value.info.workerId};
        tried := before + [chosen.value];
        if !retryable {
          return tried, Committed(failed);
        }
      }
      end := Exhausted;
    }

    /** The loop and its exits. */
    method Route(
        model: string, workers: seq<Entry>, ghost pool: map<string, Entry>,
        flights: nat -> Readings, proxied: (nat, string) -> Proxied, w: ResponseWriter<Payload>)
      returns (ghost tried: seq<Entry>, crashed: bool, ghost reported: seq<HookCall>)
      requires Lists(workers, pool) && workers != []
      requires w.statuses == [] && w.written == []
      modifies w, counter, this`hookCalls, this`accesses
      ensures accesses == old(accesses) + Balanced(tried) && hookCalls == old(hookCalls) + reported
      ensures IsSearch(tried, crashed, pool, flights, proxied)
      ensures crashed ==> w.statuses == [] && w.written == [] && reported == []
      ensures !crashed ==>
                tried != [] && Answered(LastOf(tried, proxied), model, w.statuses, w.written, reported, hasHook)
    {
      var end;
      tried, end := Search(workers, pool, flights, proxied, w);
      EveryEndIsSearch(tried, pool, flights, proxied);
      reported, crashed := [], end == Crashed;
      match end
      case Crashed =>
      case Committed(failed) =>
        reported := OnRequest(model, if failed then Error else Success);
      case Exhausted =>
        reported := OnRequest(model, Error);
        w.Error(Message(AllWorkersFailed), BAD_GATEWAY);
    }

    /** From the lookup of the workers on. */
    method Serve(
        model: string, flights: nat -> Readings, proxied: (nat, string) -> Proxied, w: ResponseWriter<Payload>)
      returns (ghost tried: seq<Entry>, crashed: bool, ghost reported: seq<HookCall>)
      requires registry.Valid()
      requires w.statuses == [] && w.written == []
      modifies w, counter, this`hookCalls, this`accesses
      ensures accesses == old(accesses) + Balanced(tried) && hookCalls == old(hookCalls) + reported
      ensures |w.statuses| == if crashed then 0 else 1
      ensures var pool := old(Pool(registry.Entries(), model));
              if pool == map[] then w.statuses == [503] && tried == [] && reported == []
              else
                && IsSearch(tried, crashed, pool, flights, proxied)
                && if crashed then w.written == [] && reported == []
                   else
                     && IsTrail(tried, pool, proxied)
                     && Answered(LastOf(tried, proxied), model, w.statuses, w.written, reported, hasHook)
      ensures Message(AllWorkersFailed) in w.written ==>
                w.statuses == [502] && GaveUp(tried, old(Pool(registry.Entries(), model)), proxied)
    {
      tried, crashed, reported := [], false, [];
      ghost var pool := Pool(registry.Entries(), model);
      var workers := Candidates(model);
      if |workers| == 0 {
        w.Error(Message(NoHealthyWorkers), SERVICE_UNAVAILABLE);
        return;
      }
      tried, crashed, reported := Route(model, workers, pool, flights, proxied, w);
      if !crashed {
        SearchIsTrail(tried, pool, flights, proxied);
        OwnFailureMeansGivenUp(tried, pool, proxied, model, w.statuses, w.written, reported, hasHook);
      }
    }

    /** Every request that does not crash gets exactly one status. */
    method HandleInference(
        req: Received, flights: nat -> Readings, proxied: (nat, string) -> Proxied, w: ResponseWriter<Payload>)
      returns (ghost tried: seq<Entry>, crashed: bool, ghost reported: seq<HookCall>)
      requires registry.Valid()
      requires w.statuses == [] && w.written == []
      modifies w, counter, this`hookCalls, this`accesses
      ensures accesses == old(accesses) + Balanced(tried) && hookCalls == old(hookCalls) + reported
      ensures |w.statuses| == if crashed then 0 else 1
      ensures req.NotPost? ==> w.statuses == [405] && tried == [] && reported == []
      ensures req.Unreadable? || req.Malformed? || req == Asks("") ==>
                w.statuses == [400] && tried == [] && reported == []
      ensures req.Asks? && req.model != "" ==>
                var pool := old(Pool(registry.Entries(), req.model));
                if pool == map[] then w.statuses == [503] && tried == [] && reported == []
                else
                  && IsSearch(tried, crashed, pool, flights, proxied)
                  && if crashed then w.written == [] && reported == []
                     else
                       && IsTrail(tried, pool, proxied)
                       && Answered(LastOf(tried, proxied), req.model, w.statuses, w.written, reported, hasHook)
      ensures tried != [] && !crashed ==>
                && w.statuses == (match LastOf(tried, proxied)
                                  case BuildFails => [502]
                                  case Unreachable => [502]
                                  case Streamed(status, _) => [status]
                                  case Interrupted(status, _) => [status])
                && (hasHook ==> reported == [HookCall(if req.Asks? then req.model else "",
                                                      if LastOf(tried, proxied).Streamed? then Success else Error)])
      ensures Message(AllWorkersFailed) in w.written ==>
                && req.Asks? && w.statuses == [502]
                && var pool := old(Pool(registry.Entries(), req.model));
                   && |tried| == (if |pool| < 3 then |pool| else 3) && DistinctIds(tried)
                   && AllUnanswered(tried, proxied)
    {
      tried, crashed, reported := [], false, [];
      match req
      case NotPost => w.Error(Message(MethodNotAllowed), METHOD_NOT_ALLOWED);
      case Unreadable => w.Error(Message(FailedToRead), BAD_REQUEST);
      case Malformed => w.Error(Message(NoModelField), BAD_REQUEST);
      case Asks(model) =>
        if model == "" {
          w.Error(Message(NoModelField), BAD_REQUEST);
          return;
        }
        tried, crashed, reported := Serve(model, flights, proxied, w);
    }

    /** The registry's answer, as the list the loop works on. */
    method Candidates(model: string) returns (workers: seq<Entry>)
      requires registry.Valid()
      ensures Lists(workers, Pool(registry.Entries(), model))
    {
      workers := registry.HealthyWorkersForModel(model);
      DistinctListing(workers, Pool(registry.Entries(), model));
    }
  }
}
