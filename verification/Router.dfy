/** The router (control-plane/router/router.go): choosing a worker, and retrying with another one.
    In-flight counts are parameters here; RouterInterleaving reads them off a run of the counters. */
module Routing {
  import opened Membership
  import opened Options
  import Arithmetic

  const UINT64 := 0x1_0000_0000_0000_0000

  /** The shared round-robin counter, an atomic.Uint64. */
  class Counter {
    var value: nat

    constructor ()
      ensures value == 0
    {
      value := 0;
    }

    method Add() returns (v: nat)
      modifies this
      ensures v == value == (old(value) + 1) % 0x1_0000_0000_0000_0000
    {
      value := (value + 1) % UINT64;
      v := value;
    }
  }

  // ---------------------------------------------------------------- choosing

  /** The entries that pass a test, in order: what the append loops build. */
  function Filter(workers: seq<Entry>, p: Entry -> bool): (r: seq<Entry>) {
    if workers == [] then []
    else
      var n := |workers| - 1;
      Filter(workers[..n], p) + if p(workers[n]) then [workers[n]] else []
  }

  lemma {:induction false} FilterKeeps(workers: seq<Entry>, p: Entry -> bool, w: Entry)
    ensures w in Filter(workers, p) <==> w in workers && p(w)
  {
    if workers != [] {
      var n := |workers| - 1;
      assert workers == workers[..n] + [workers[n]];
      FilterKeeps(workers[..n], p, w);
    }
  }

  lemma {:induction false} FilterAgrees(workers: seq<Entry>, p: Entry -> bool, q: Entry -> bool)
    requires forall w :: w in workers ==> p(w) == q(w)
    ensures Filter(workers, p) == Filter(workers, q)
  {
    if workers != [] {
      var n := |workers| - 1;
      assert workers == workers[..n] + [workers[n]];
      FilterAgrees(workers[..n], p, q);
      assert workers[n] in workers;
    }
  }

  /** Filtering twice keeps what passes both tests. */
  lemma {:induction false} FilterTwice(workers: seq<Entry>, p: Entry -> bool, q: Entry -> bool, both: Entry -> bool)
    requires forall w :: w in workers ==> both(w) == (p(w) && q(w))
    ensures Filter(Filter(workers, p), q) == Filter(workers, both)
  {
    if workers != [] {
      var n := |workers| - 1;
      assert workers == workers[..n] + [workers[n]];
      FilterTwice(workers[..n], p, q, both);
      assert workers[n] in workers;
      var front := Filter(workers[..n], p);
      if p(workers[n]) {
        assert (front + [workers[n]])[..|front|] == front;
      } else {
        assert Filter(workers, p) == front;
      }
    }
  }

  function HasFlight(flight: string -> int, f: int): Entry -> bool {
    (w: Entry) => flight(w.info.workerId) == f
  }

  function HasCost(c: real): Entry -> bool {
    (w: Entry) => w.info.costPerHour == c
  }

  /** Nobody in the list is less loaded. */
  ghost predicate LeastLoaded(w: Entry, workers: seq<Entry>, flight: string -> int) {
    forall x :: x in workers ==> flight(w.info.workerId) <= flight(x.info.workerId)
  }

  /** At most as loaded, and among equally loaded ones at most as expensive. */
  predicate NoWorse(a: Entry, b: Entry, flight: string -> int) {
    var fa, fb := flight(a.info.workerId), flight(b.info.workerId);
    fa < fb || (fa == fb && a.info.costPerHour <= b.info.costPerHour)
  }

  /** Lexicographically minimal in (in-flight, cost). */
  ghost predicate Minimal(w: Entry, workers: seq<Entry>, flight: string -> int) {
    forall x :: x in workers ==> NoWorse(w, x, flight)
  }

  ghost function IsLeast(workers: seq<Entry>, flight: string -> int): Entry -> bool {
    (w: Entry) => LeastLoaded(w, workers, flight)
  }

  ghost function IsMinimal(workers: seq<Entry>, flight: string -> int): Entry -> bool {
    (w: Entry) => Minimal(w, workers, flight)
  }

  /** The equally good candidates, in the order of the list. */
  ghost function Best(workers: seq<Entry>, flight: string -> int): seq<Entry> {
    Filter(workers, IsMinimal(workers, flight))
  }

  ghost function Least(workers: seq<Entry>, flight: string -> int): seq<Entry> {
    Filter(workers, IsLeast(workers, flight))
  }

  ghost predicate IsMinFlight(workers: seq<Entry>, flight: string -> int, f: int) {
    && (forall w :: w in workers ==> f <= flight(w.info.workerId))
    && (exists w :: w in workers && flight(w.info.workerId) == f)
  }

  ghost predicate IsMinCost(workers: seq<Entry>, c: real) {
    && (forall w :: w in workers ==> c <= w.info.costPerHour)
    && (exists w :: w in workers && w.info.costPerHour == c)
  }

  lemma FlightFilterIsLeast(workers: seq<Entry>, flight: string -> int, f: int)
    requires IsMinFlight(workers, flight, f)
    ensures Filter(workers, HasFlight(flight, f)) == Least(workers, flight) != []
  {
    FilterAgrees(workers, HasFlight(flight, f), IsLeast(workers, flight));
    var w :| w in workers && flight(w.info.workerId) == f;
    FilterKeeps(workers, HasFlight(flight, f), w);
  }

  lemma CostFilterIsBest(workers: seq<Entry>, flight: string -> int, f: int, c: real)
    requires IsMinFlight(workers, flight, f)
    requires IsMinCost(Filter(workers, HasFlight(flight, f)), c)
    ensures Filter(Filter(workers, HasFlight(flight, f)), HasCost(c)) == Best(workers, flight) != []
  {
    var least := Filter(workers, HasFlight(flight, f));
    forall w ensures w in least <==> w in workers && flight(w.info.workerId) == f {
      FilterKeeps(workers, HasFlight(flight, f), w);
    }
    var m :| m in least && m.info.costPerHour == c;
    forall w | w in workers
      ensures Minimal(w, workers, flight) <==> flight(w.info.workerId) == f && w.info.costPerHour == c
    {
      assert Minimal(w, workers, flight) ==> NoWorse(w, m, flight);
      assert flight(w.info.workerId) == f ==> w in least;
    }
    FilterTwice(workers, HasFlight(flight, f), HasCost(c), IsMinimal(workers, flight));
    FilterKeeps(workers, IsMinimal(workers, flight), m);
  }

  /** Of one least loaded worker nothing more need be asked. */
  lemma OneLeastIsBest(workers: seq<Entry>, flight: string -> int)
    requires |Least(workers, flight)| == 1
    ensures Best(workers, flight) == Least(workers, flight)
  {
    var least := Least(workers, flight);
    forall w | w in workers ensures IsMinimal(workers, flight)(w) == IsLeast(workers, flight)(w) {
      if LeastLoaded(w, workers, flight) {
        FilterKeeps(workers, IsLeast(workers, flight), w);
        forall x | x in workers ensures NoWorse(w, x, flight) {
          FilterKeeps(workers, IsLeast(workers, flight), x);
        }
      }
    }
    FilterAgrees(workers, IsMinimal(workers, flight), IsLeast(workers, flight));
  }

  method MinFlight(workers: seq<Entry>, flight: string -> int) returns (f: int)
    requires workers != []
    ensures IsMinFlight(workers, flight, f)
  {
    f := flight(workers[0].info.workerId);
    ghost var at := workers[0];
    for i := 1 to |workers|
      invariant forall k :: 0 <= k < i ==> f <= flight(workers[k].info.workerId)
      invariant at in workers && flight(at.info.workerId) == f
    {
      var g := flight(workers[i].info.workerId);
      if g < f {
        f, at := g, workers[i];
      }
    }
  }

  method MinCost(workers: seq<Entry>) returns (c: real)
    requires workers != []
    ensures IsMinCost(workers, c)
  {
    c := workers[0].info.costPerHour;
    ghost var at := workers[0];
    for i := 1 to |workers|
      invariant forall k :: 0 <= k < i ==> c <= workers[k].info.costPerHour
      invariant at in workers && at.info.costPerHour == c
    {
      if workers[i].info.costPerHour < c {
        c, at := workers[i].info.costPerHour, workers[i];
      }
    }
  }

  method Select(workers: seq<Entry>, p: Entry -> bool) returns (out: seq<Entry>)
    ensures out == Filter(workers, p)
  {
    out := [];
    for i := 0 to |workers|
      invariant out == Filter(workers[..i], p)
    {
      assert workers[..i + 1][..i] == workers[..i];
      if p(workers[i]) {
        out := out + [workers[i]];
      }
    }
    assert workers[..|workers|] == workers;
  }

  /** What level 3 may answer, given where the counter stood before and stands after. */
  ghost predicate IsPick(chosen: Entry, workers: seq<Entry>, flight: string -> int, before: nat, after: nat) {
    var best := Best(workers, flight);
    && best != []
    && if |Least(workers, flight)| == 1 then chosen == best[0] && after == before
       else after == (before + 1) % UINT64 && chosen == best[after % |best|]
  }

  lemma PickIsMinimal(chosen: Entry, workers: seq<Entry>, flight: string -> int, before: nat, after: nat)
    requires IsPick(chosen, workers, flight, before, after)
    ensures chosen in workers && Minimal(chosen, workers, flight)
  {
    var best := Best(workers, flight);
    assert chosen in best;
    FilterKeeps(workers, IsMinimal(workers, flight), chosen);
  }

  /** Level 1 reads the counts twice: the minimum comes from the first pass, this list from the
      second. */
  function SecondPass(workers: seq<Entry>, second: string -> int, minFlight: int): (left: seq<Entry>) {
    Filter(workers, HasFlight(second, minFlight))
  }

  ghost predicate IsCheapest(w: Entry, workers: seq<Entry>) {
    w in workers && forall x :: x in workers ==> w.info.costPerHour <= x.info.costPerHour
  }

  ghost predicate Stable(workers: seq<Entry>, first: string -> int, second: string -> int) {
    forall w :: w in workers ==> first(w.info.workerId) == second(w.info.workerId)
  }

  /** One turn of the counter among the cheapest of these. */
  ghost predicate IsTurn(chosen: Entry, least: seq<Entry>, minCost: real, before: nat, after: nat) {
    var cheapest := Filter(least, HasCost(minCost));
    && IsMinCost(least, minCost)
    && after == (before + 1) % UINT64
    && cheapest != [] && chosen == cheapest[after % |cheapest|]
  }

  /** Level 2 and 3: the cheapest of the least loaded, in turn. */
  method TieBreak(least: seq<Entry>, counter: Counter) returns (chosen: Entry, ghost minCost: real)
    requires least != []
    modifies counter
    ensures IsTurn(chosen, least, minCost, old(counter.value), counter.value)
    ensures IsCheapest(chosen, least)
  {
    var cost := MinCost(least);
    minCost := cost;
    var cheapest := Select(least, HasCost(cost));
    CheapestRemain(least, cost);
    var idx := counter.Add();
    chosen := cheapest[idx % |cheapest|];
    assert chosen in cheapest;
    FilterKeeps(least, HasCost(cost), chosen);
  }

  lemma CheapestRemain(least: seq<Entry>, minCost: real)
    requires IsMinCost(least, minCost)
    ensures Filter(least, HasCost(minCost)) != []
  {
    var w :| w in least && w.info.costPerHour == minCost;
    FilterKeeps(least, HasCost(minCost), w);
  }

  lemma CheapestIsLeft(w: Entry, left: seq<Entry>, workers: seq<Entry>, second: string -> int, minFlight: int)
    requires left == SecondPass(workers, second, minFlight) && w in left
    ensures w in workers
  {
    FilterKeeps(workers, HasFlight(second, minFlight), w);
  }

  /** With counts that stay as they are, the second pass finds the least loaded. */
  lemma StablePassIsLeast(workers: seq<Entry>, first: string -> int, second: string -> int, minFlight: int)
    requires Stable(workers, first, second) && IsMinFlight(workers, first, minFlight)
    ensures SecondPass(workers, second, minFlight) == Filter(workers, HasFlight(first, minFlight))
    ensures SecondPass(workers, second, minFlight) == Least(workers, first) != []
  {
    FilterAgrees(workers, HasFlight(second, minFlight), HasFlight(first, minFlight));
    FlightFilterIsLeast(workers, first, minFlight);
  }

  /** What is chosen among those the second pass left, if the counts were stable. */
  lemma StableChoiceIsPick(
      chosen: Entry, workers: seq<Entry>, first: string -> int, second: string -> int, minFlight: int,
      minCost: real, before: nat, after: nat)
    requires Stable(workers, first, second) && IsMinFlight(workers, first, minFlight)
    requires var left := SecondPass(workers, second, minFlight);
             if |left| == 1 then chosen == left[0] && after == before
             else IsTurn(chosen, left, minCost, before, after)
    ensures IsPick(chosen, workers, first, before, after) && Minimal(chosen, workers, first)
  {
    StablePassIsLeast(workers, first, second, minFlight);
    if |Least(workers, first)| == 1 {
      OneLeastIsBest(workers, first);
    } else {
      CostFilterIsBest(workers, first, minFlight, minCost);
    }
    PickIsMinimal(chosen, workers, first, before, after);
  }

  /** Least loaded, then cheapest, then round-robin among the equally good. Every count is read once
      in each of two passes, and may change in between; `None` is where the original indexes into an
      empty slice. With counts that stay as they are the choice is a lexicographic minimum, and the
      counter moves exactly if more than one worker is least loaded. */
  method PickWorker(workers: seq<Entry>, counter: Counter, first: string -> int, second: string -> int)
    returns (chosen: Option<Entry>, ghost minFlight: int)
    requires workers != []
    modifies counter
    ensures IsMinFlight(workers, first, minFlight)
    ensures chosen == None <==> |workers| > 1 && SecondPass(workers, second, minFlight) == []
    ensures chosen.Some? ==> chosen.value in workers
    ensures chosen.Some? && |workers| > 1 ==> IsCheapest(chosen.value, SecondPass(workers, second, minFlight))
    ensures Stable(workers, first, second) ==>
              chosen.Some? && IsPick(chosen.value, workers, first, old(counter.value), counter.value)
              && Minimal(chosen.value, workers, first)
    ensures Stable(workers, first, second) ==>
              forall x :: x in workers ==>
                var mine, other := first(chosen.value.info.workerId), first(x.info.workerId);
                mine < other || (mine == other && chosen.value.info.costPerHour <= x.info.costPerHour)
  {
    if |workers| == 1 {
      OnlyWorker(workers, first);
      return Some(workers[0]), first(workers[0].info.workerId);
    }
    chosen, minFlight := PickAmong(workers, counter, first, second);
  }

  /** With a choice to make. */
  method PickAmong(workers: seq<Entry>, counter: Counter, first: string -> int, second: string -> int)
    returns (chosen: Option<Entry>, ghost minFlight: int)
    requires |workers| > 1
    modifies counter
    ensures IsMinFlight(workers, first, minFlight)
    ensures chosen == None <==> SecondPass(workers, second, minFlight) == []
    ensures chosen.Some? ==>
              chosen.value in workers && IsCheapest(chosen.value, SecondPass(workers, second, minFlight))
    ensures Stable(workers, first, second) ==>
              chosen.Some? && IsPick(chosen.value, workers, first, old(counter.value), counter.value)
              && Minimal(chosen.value, workers, first)
  {
    var least := MinFlight(workers, first);
    minFlight := least;
    var left := Select(workers, HasFlight(second, least));
    if Stable(workers, first, second) { StablePassIsLeast(workers, first, second, least); }
    if |left| == 0 {
      return None, minFlight;
    }
    var w := PickFrom(left, workers, counter, first, second, least);
    chosen := Some(w);
  }

  /** With somebody left to choose. */
  method PickFrom(
      left: seq<Entry>, ghost workers: seq<Entry>, counter: Counter, ghost first: string -> int,
      ghost second: string -> int, ghost minFlight: int)
    returns (w: Entry)
    requires IsMinFlight(workers, first, minFlight) && left == SecondPass(workers, second, minFlight) != []
    modifies counter
    ensures w in workers && IsCheapest(w, left)
    ensures Stable(workers, first, second) ==>
              IsPick(w, workers, first, old(counter.value), counter.value) && Minimal(w, workers, first)
  {
    w := left[0];
    ghost var minCost := 0.0;
    if |left| > 1 {
      w, minCost := TieBreak(left, counter);
    }
    CheapestIsLeft(w, left, workers, second, minFlight);
    if Stable(workers, first, second) {
      StableChoiceIsPick(w, workers, first, second, minFlight, minCost, old(counter.value), counter.value);
    }
  }

  lemma OnlyWorker(workers: seq<Entry>, flight: string -> int)
    requires |workers| == 1
    ensures Least(workers, flight) == workers == Best(workers, flight)
    ensures Minimal(workers[0], workers, flight)
  {
    assert workers == [workers[0]];
    assert workers[..0] == [];
    assert Filter(workers[..0], IsLeast(workers, flight)) == Filter(workers[..0], IsMinimal(workers, flight)) == [];
    assert IsLeast(workers, flight)(workers[0]) && IsMinimal(workers, flight)(workers[0]);
  }

  // ---------------------------------------------------------------- round-robin

  /** How often index i comes up in the next m round-robin turns over n candidates, from a counter
      that stands at c. */
  function Turns(c: nat, n: nat, m: nat, i: nat): nat
    requires n > 0
  {
    if m == 0 then 0 else Turns(c, n, m - 1, i) + if (c + m) % n == i then 1 else 0
  }

  lemma QuotientStep(x: int, n: int)
    requires n > 0
    ensures (x + 1) / n == x / n + if (x + 1) % n == 0 then 1 else 0
  {
    var q := (x + 1) / n;
    var r := (x + 1) % n;
    assert x + 1 == n * q + r;
    if r == 0 {
      Arithmetic.Distribute(n, q, -1);
      Arithmetic.QuotientByBounds(x, n, q - 1);
    } else {
      Arithmetic.QuotientByBounds(x, n, q);
    }
  }

  lemma ResidueShift(x: int, i: int, n: int)
    requires 0 <= i < n
    ensures (x - i) % n == 0 <==> x % n == i
  {
    var q, r := x / n, x % n;
    assert x == n * q + r;
    if (x - i) % n == 0 {
      var p := (x - i) / n;
      assert x == n * p + i;
      Arithmetic.QuotientByBounds(x, n, p);
    }
    if r == i {
      Arithmetic.QuotientByBounds(x - i, n, q);
    }
  }

  /** In closed form. */
  lemma {:induction false} TurnsClosedForm(c: nat, n: nat, m: nat, i: nat)
    requires i < n
    ensures Turns(c, n, m, i) == (c + m - i) / n - (c - i) / n
  {
    if m > 0 {
      TurnsClosedForm(c, n, m - 1, i);
      QuotientStep(c + m - 1 - i, n);
      ResidueShift(c + m, i, n);
    }
  }

  lemma QuotientSpread(x: int, m: nat, n: int)
    requires n > 0
    ensures m / n <= (x + m) / n - x / n <= m / n + 1
    ensures m % n == 0 ==> (x + m) / n - x / n == m / n
  {
    var qx, rx, qm, rm := x / n, x % n, m / n, m % n;
    assert x == n * qx + rx && m == n * qm + rm;
    Arithmetic.Distribute(n, qx, qm);
    Arithmetic.Distribute(n, qx + qm, 1);
    if rx + rm < n {
      Arithmetic.QuotientByBounds(x + m, n, qx + qm);
    } else {
      Arithmetic.QuotientByBounds(x + m, n, qx + qm + 1);
    }
  }

  /** A stretch of picks from the same list with the same counts: counter[k] is where the counter
      stood before the k-th of them. */
  ghost predicate ArePicks(chosen: seq<Entry>, counter: seq<nat>, workers: seq<Entry>, flight: string -> int) {
    && |counter| == |chosen| + 1
    && forall k :: 0 <= k < |chosen| ==> IsPick(chosen[k], workers, flight, counter[k], counter[k + 1])
  }

  ghost predicate Distinct(workers: seq<Entry>) {
    forall a, b :: 0 <= a < b < |workers| ==> workers[a] != workers[b]
  }

  lemma {:induction false} FilterStaysDistinct(workers: seq<Entry>, p: Entry -> bool)
    requires Distinct(workers)
    ensures Distinct(Filter(workers, p))
  {
    if workers != [] {
      var n := |workers| - 1;
      FilterStaysDistinct(workers[..n], p);
      var front := Filter(workers[..n], p);
      forall k | 0 <= k < |front| ensures front[k] != workers[n] {
        assert front[k] in front;
        FilterKeeps(workers[..n], p, front[k]);
      }
    }
  }

  lemma OneTurn(chosen: Entry, workers: seq<Entry>, flight: string -> int, before: nat, after: nat, i: nat)
    requires IsPick(chosen, workers, flight, before, after) && |Least(workers, flight)| != 1 && before + 1 < UINT64
    requires Distinct(Best(workers, flight)) && i < |Best(workers, flight)|
    ensures after == before + 1
    ensures chosen == Best(workers, flight)[i] <==> (before + 1) % |Best(workers, flight)| == i
  {
    Arithmetic.QuotientByBounds(before + 1, UINT64, 0);
  }

  lemma {:induction false} PicksTakeTurns(
      chosen: seq<Entry>, counter: seq<nat>, workers: seq<Entry>, flight: string -> int, i: nat)
    requires ArePicks(chosen, counter, workers, flight) && |Least(workers, flight)| != 1
    requires counter[0] + |chosen| < UINT64
    requires Distinct(Best(workers, flight)) && i < |Best(workers, flight)|
    ensures counter[|chosen|] == counter[0] + |chosen|
    ensures multiset(chosen)[Best(workers, flight)[i]] == Turns(counter[0], |Best(workers, flight)|, |chosen|, i)
  {
    var best, m := Best(workers, flight), |chosen|;
    if m > 0 {
      PicksTakeTurns(chosen[..m - 1], counter[..m], workers, flight, i);
      OneTurn(chosen[m - 1], workers, flight, counter[m - 1], counter[m], i);
      assert chosen == chosen[..m - 1] + [chosen[m - 1]];
    }
  }

  /** Round-robin is fair: over any stretch of consecutive tie-breaks on the same list, without the
      64-bit counter wrapping, how often two of the equally good candidates are chosen differs by at
      most one, and over k rounds of the list each is chosen exactly k times. */
  lemma RoundRobinIsFair(
      chosen: seq<Entry>, counter: seq<nat>, workers: seq<Entry>, flight: string -> int, a: Entry, b: Entry)
    requires ArePicks(chosen, counter, workers, flight) && |Least(workers, flight)| != 1
    requires counter[0] + |chosen| < 0x1_0000_0000_0000_0000
    requires Distinct(workers) && a in Best(workers, flight) && b in Best(workers, flight)
    ensures multiset(chosen)[a] <= multiset(chosen)[b] + 1
    ensures var n := |Best(workers, flight)|;
            |chosen| % n == 0 ==> multiset(chosen)[a] == |chosen| / n
  {
    var best, c, m := Best(workers, flight), counter[0], |chosen|;
    FilterStaysDistinct(workers, IsMinimal(workers, flight));
    var i: nat :| i < |best| && best[i] == a;
    var j: nat :| j < |best| && best[j] == b;
    PicksTakeTurns(chosen, counter, workers, flight, i);
    PicksTakeTurns(chosen, counter, workers, flight, j);
    TurnsClosedForm(c, |best|, m, i);
    TurnsClosedForm(c, |best|, m, j);
    QuotientSpread(c - i, m, |best|);
    QuotientSpread(c - j, m, |best|);
  }
}
