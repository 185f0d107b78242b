/** The wait estimate (request-plane/slo/estimator.go), and how close it comes to the schedule
    that the dispatcher's loops really produce (request-plane/dispatcher/dispatcher.go:103-127).

    Floating-point rounding is not modelled: the product is exact and then truncated. */
module WaitEstimation {
  import opened LatencyTracking
  import Arithmetic

  class Estimator {
    const tracker: LatencyTracker
    const concurrency: nat

    constructor (tracker: LatencyTracker, concurrency: int)
      ensures this.tracker == tracker
      ensures this.concurrency == if concurrency < 1 then 1 else concurrency
    {
      this.tracker := tracker;
      this.concurrency := if concurrency < 1 then 1 else concurrency;
    }

    function Estimate(model: string, aheadCount: nat): int
      requires concurrency >= 1
      reads tracker
    {
      EstimateOf(tracker.Average(model), aheadCount, concurrency)
    }
  }

  /** rounds * average, rounds = ahead / loops. */
  function EstimateOf(average: int, ahead: nat, loops: nat): int
    requires loops >= 1
  {
    TruncDiv(ahead * average, loops)
  }

  /** What an estimate rests on: the average of the latencies recorded for this very model, or the
      fallback if there are none. */
  lemma EstimateFollowsSamples(estimator: Estimator, samples: seq<Sample>, model: string, ahead: nat)
    requires estimator.concurrency >= 1 && estimator.tracker.avg == RecordAll(map[], samples)
    ensures var own := SamplesOf(samples, model);
            var average := if own == [] then estimator.tracker.fallback else Stored(own);
            estimator.Estimate(model, ahead) == TruncDiv(ahead * average, estimator.concurrency)
  {
    TrackerHoldsPerModel(samples, model);
  }

  // ---------------------------------------------------------------- the real schedule

  function Sum(s: seq<int>): int {
    if s == [] then 0 else Sum(s[..|s| - 1]) + s[|s| - 1]
  }

  /** When each loop is free, after the k-th request of the queue went to loop `to[k]` and kept
      it for `took[k]`. */
  function FreeAt(free: seq<int>, to: seq<nat>, took: seq<int>): (r: seq<int>)
    requires |to| == |took| && forall k :: 0 <= k < |to| ==> to[k] < |free|
    ensures |r| == |free|
  {
    if to == [] then free
    else
      var n := |to| - 1;
      var before := FreeAt(free, to[..n], took[..n]);
      before[to[n] := before[to[n]] + took[n]]
  }

  /** Loop i is the next to become free. */
  ghost predicate FreesFirst(free: seq<int>, i: nat) {
    i < |free| && forall j :: 0 <= j < |free| ==> free[i] <= free[j]
  }

  /** Each request in turn goes to a loop that becomes free first; ties go either way. */
  ghost predicate Greedy(free: seq<int>, to: seq<nat>, took: seq<int>) {
    && |to| == |took|
    && (forall k :: 0 <= k < |to| ==> to[k] < |free|)
    && (to != [] ==>
          var n := |to| - 1;
          Greedy(free, to[..n], took[..n]) && FreesFirst(FreeAt(free, to[..n], took[..n]), to[n]))
  }

  ghost predicate Spread(free: seq<int>, L: int) {
    forall i, j :: 0 <= i < |free| && 0 <= j < |free| ==> free[i] <= free[j] + L
  }

  lemma {:induction false} SumUpdate(s: seq<int>, i: nat, x: int)
    requires i < |s|
    ensures Sum(s[i := x]) == Sum(s) - s[i] + x
  {
    var n := |s| - 1;
    var t := s[i := x];
    if i == n {
      assert t[..n] == s[..n];
    } else {
      assert t[..n] == s[..n][i := x];
      SumUpdate(s[..n], i, x);
    }
  }

  lemma {:induction false} SumBounds(s: seq<int>, lo: int, hi: int)
    requires forall i :: 0 <= i < |s| ==> lo <= s[i] <= hi
    ensures |s| * lo <= Sum(s) <= |s| * hi
  {
    if s != [] {
      var n := |s| - 1;
      SumBounds(s[..n], lo, hi);
      Arithmetic.OneMore(n, lo);
      Arithmetic.OneMore(n, hi);
    }
  }

  /** The first loop to become free is close to the mean. */
  lemma FirstFreeNearMean(free: seq<int>, i: nat, L: int)
    requires L >= 0 && FreesFirst(free, i) && Spread(free, L)
    ensures |free| * free[i] <= Sum(free) <= |free| * free[i] + |free| * L - L
  {
    var m := free[i];
    SumBounds(free, m, m + L);
    SumUpdate(free, i, m + L);
    SumBounds(free[i := m + L], m, m + L);
    Arithmetic.Distribute(|free|, m, L);
  }

  lemma SpreadStep(free: seq<int>, i: nat, d: int, L: int)
    requires FreesFirst(free, i) && Spread(free, L) && 0 <= d <= L
    ensures Spread(free[i := free[i] + d], L)
  {
  }

  /** The loops stay within one service time of each other. */
  lemma {:induction false} GreedyKeepsSpread(free: seq<int>, to: seq<nat>, took: seq<int>, L: int)
    requires Greedy(free, to, took) && Spread(free, L)
    requires forall k :: 0 <= k < |took| ==> 0 <= took[k] <= L
    ensures Spread(FreeAt(free, to, took), L)
  {
    if to != [] {
      var n := |to| - 1;
      GreedyKeepsSpread(free, to[..n], took[..n], L);
      SpreadStep(FreeAt(free, to[..n], took[..n]), to[n], took[n], L);
    }
  }

  /** Their sum only counts the work handed out. */
  lemma {:induction false} SumCountsWork(free: seq<int>, to: seq<nat>, took: seq<int>)
    requires |to| == |took| && forall k :: 0 <= k < |to| ==> to[k] < |free|
    ensures Sum(FreeAt(free, to, took)) == Sum(free) + Sum(took)
  {
    if to != [] {
      var n := |to| - 1;
      var before := FreeAt(free, to[..n], took[..n]);
      SumCountsWork(free, to[..n], took[..n]);
      SumUpdate(before, to[n], before[to[n]] + took[n]);
    }
  }

  ghost predicate AllTake(took: seq<int>, L: int) {
    forall k :: 0 <= k < |took| ==> took[k] == L
  }

  /** Every loop is free at a whole number of service times. */
  ghost predicate Multiples(free: seq<int>, L: int) {
    forall i :: 0 <= i < |free| ==> IsMultiple(free[i], L)
  }

  ghost predicate IsMultiple(x: int, L: int) {
    exists q :: x == L * q
  }

  lemma NextMultiple(x: int, L: int)
    requires IsMultiple(x, L)
    ensures IsMultiple(x + L, L)
  {
    var q :| x == L * q;
    Arithmetic.Distribute(L, q, 1);
    assert x + L == L * (q + 1);
  }

  lemma {:induction false} MultiplesStay(free: seq<int>, to: seq<nat>, took: seq<int>, L: int)
    requires Greedy(free, to, took) && AllTake(took, L) && Multiples(free, L)
    ensures Multiples(FreeAt(free, to, took), L)
  {
    if to != [] {
      var n := |to| - 1;
      MultiplesStay(free, to[..n], took[..n], L);
      NextMultiple(FreeAt(free, to[..n], took[..n])[to[n]], L);
    }
  }

  lemma AllTakeSum(took: seq<int>, L: int)
    requires AllTake(took, L)
    ensures Sum(took) == |took| * L
  {
    SumBounds(took, L, L);
  }

  function Idle(loops: nat): (free: seq<int>)
    ensures |free| == loops
  {
    seq(loops, i => 0)
  }

  lemma QuotientOfWork(c: int, n: int, q: int, L: int, whole: int)
    requires c > 0 && L > 0 && whole == c * q
    requires L * whole <= L * n <= L * whole + L * c - L
    ensures q == n / c
  {
    Arithmetic.Distribute(L, n, 1);
    Arithmetic.Distribute(L, whole, c);
    Arithmetic.Cancel(L, n, whole + c);
    Arithmetic.Cancel(L, whole, n + 1);
    Arithmetic.QuotientByBounds(n, c, q);
  }

  /** c loops, n requests of L each, first free at m = L * q. */
  lemma IdleQuotient(c: int, n: int, q: int, L: int)
    requires c > 0 && L > 0
    requires c * (L * q) <= n * L <= c * (L * q) + c * L - L
    ensures q == n / c
  {
    Arithmetic.Associate(c, L, q);
    Arithmetic.Commute(c, L);
    Arithmetic.Associate(L, c, q);
    Arithmetic.Commute(n, L);
    QuotientOfWork(c, n, q, L, c * q);
  }

  /** All loops idle, every request takes L: the request with N ahead of it starts at exactly
      floor(N / C) * L, on every greedy schedule. */
  lemma IdleStart(loops: nat, to: seq<nat>, took: seq<int>, L: int, next: nat)
    requires loops > 0 && L > 0
    requires Greedy(Idle(loops), to, took) && AllTake(took, L) && FreesFirst(FreeAt(Idle(loops), to, took), next)
    ensures FreeAt(Idle(loops), to, took)[next] == L * (|to| / loops)
  {
    var idle := Idle(loops);
    var free := FreeAt(idle, to, took);
    SumBounds(idle, 0, 0);
    assert Multiples(idle, L) by { assert 0 == L * 0; }
    GreedyKeepsSpread(idle, to, took, L);
    SumCountsWork(idle, to, took);
    MultiplesStay(idle, to, took, L);
    AllTakeSum(took, L);
    FirstFreeNearMean(free, next, L);
    assert IsMultiple(free[next], L);
    var q :| free[next] == L * q;
    IdleQuotient(loops, |to|, q, L);
  }

  /** What truncation does to the exact ratio. */
  lemma EstimateBrackets(ahead: nat, loops: nat, L: int)
    requires loops > 0 && L > 0
    ensures loops * EstimateOf(L, ahead, loops) <= ahead * L <= loops * EstimateOf(L, ahead, loops) + loops - 1
  {
    Arithmetic.Monotone(L, 0, ahead);
    var p := ahead * L;
    assert p == loops * (p / loops) + p % loops;
  }

  /** With start = L * (n / c) and part = L * (n % c). */
  lemma GapFromProducts(c: int, e: int, start: int, part: int, L: int)
    requires c > 0 && L > 0 && 0 <= part <= c * L - L
    requires c * e <= c * start + part <= c * e + c - 1
    ensures 0 <= e - start < L
  {
    Arithmetic.Distribute(c, start, L);
    Arithmetic.Cancel(c, e, start + L);
    Arithmetic.Distribute(c, e, 1);
    Arithmetic.Cancel(c, start, e + 1);
  }

  lemma SplitWork(c: int, n: int, L: int)
    requires c > 0 && L > 0
    ensures n * L == c * (L * (n / c)) + L * (n % c) && 0 <= L * (n % c) <= c * L - L
  {
    var q, r := n / c, n % c;
    Arithmetic.Commute(n, L);
    Arithmetic.Distribute(L, c * q, r);
    Arithmetic.Associate(L, c, q);
    Arithmetic.Commute(L, c);
    Arithmetic.Associate(c, L, q);
    Arithmetic.Monotone(L, 0, r);
    Arithmetic.Monotone(L, r, c - 1);
    Arithmetic.Distribute(L, c, -1);
  }

  lemma IdleGap(c: int, n: int, e: int, L: int)
    requires c > 0 && L > 0
    requires c * e <= n * L <= c * e + c - 1
    ensures 0 <= e - L * (n / c) < L
  {
    SplitWork(c, n, L);
    GapFromProducts(c, e, L * (n / c), L * (n % c), L);
  }

  /** With all loops idle the estimate is never early and less than one service time late. */
  lemma IdleEstimateIsClose(loops: nat, to: seq<nat>, took: seq<int>, L: int, next: nat)
    requires loops > 0 && L > 0
    requires Greedy(Idle(loops), to, took) && AllTake(took, L) && FreesFirst(FreeAt(Idle(loops), to, took), next)
    ensures 0 <= EstimateOf(L, |to|, loops) - FreeAt(Idle(loops), to, took)[next] < L
  {
    IdleStart(loops, to, took, L, next);
    EstimateBrackets(|to|, loops, L);
    IdleGap(loops, |to|, EstimateOf(L, |to|, loops), L);
  }

  /** The work handed out is at most w, the residual work at most c * L. */
  lemma NotTooEarly(c: int, sum: int, w: int, e: int, start: int, L: int)
    requires c > 0
    requires c * start <= sum <= w + c * L && w <= c * e + c - 1
    ensures start <= e + L
  {
    Arithmetic.Distribute(c, e, L);
    Arithmetic.Distribute(c, e + L, 1);
    Arithmetic.Cancel(c, start, e + L + 1);
  }

  lemma NotTooLate(c: int, sum: int, w: int, e: int, start: int, L: int)
    requires c > 0 && L > 0
    requires c * e <= w <= sum <= c * start + c * L - L
    ensures e < start + L
  {
    Arithmetic.Distribute(c, start, L);
    Arithmetic.Cancel(c, e, start + L);
  }

  /** With up to L of unfinished work on each loop, whatever it is, the estimate is within one
      service time of the real start, on every greedy schedule. */
  lemma BusyEstimateIsClose(free: seq<int>, to: seq<nat>, took: seq<int>, L: int, next: nat)
    requires L > 0 && free != [] && forall i :: 0 <= i < |free| ==> 0 <= free[i] <= L
    requires Greedy(free, to, took) && AllTake(took, L) && FreesFirst(FreeAt(free, to, took), next)
    ensures -L <= EstimateOf(L, |to|, |free|) - FreeAt(free, to, took)[next] < L
  {
    var c, e, w := |free|, EstimateOf(L, |to|, |free|), |to| * L;
    var sum, start := Sum(FreeAt(free, to, took)), FreeAt(free, to, took)[next];
    assert w <= sum <= w + c * L by {
      SumBounds(free, 0, L);
      SumCountsWork(free, to, took);
      AllTakeSum(took, L);
    }
    assert c * start <= sum <= c * start + c * L - L by {
      GreedyKeepsSpread(free, to, took, L);
      FirstFreeNearMean(FreeAt(free, to, took), next, L);
    }
    EstimateBrackets(|to|, c, L);
    NotTooEarly(c, sum, w, e, start, L);
    NotTooLate(c, sum, w, e, start, L);
  }

  /** Requests may also be faster than L: then the real start is never more than L after the
      estimate. */
  lemma FasterRequestsStartNoLater(free: seq<int>, to: seq<nat>, took: seq<int>, L: int, next: nat)
    requires L > 0 && free != [] && forall i :: 0 <= i < |free| ==> 0 <= free[i] <= L
    requires Greedy(free, to, took) && FreesFirst(FreeAt(free, to, took), next)
    requires forall k :: 0 <= k < |took| ==> 0 <= took[k] <= L
    ensures FreeAt(free, to, took)[next] <= EstimateOf(L, |to|, |free|) + L
  {
    var c, w := |free|, |to| * L;
    var sum, start := Sum(FreeAt(free, to, took)), FreeAt(free, to, took)[next];
    assert sum <= w + c * L by {
      SumBounds(free, 0, L);
      SumBounds(took, 0, L);
      SumCountsWork(free, to, took);
    }
    assert c * start <= sum by {
      GreedyKeepsSpread(free, to, took, L);
      FirstFreeNearMean(FreeAt(free, to, took), next, L);
    }
    EstimateBrackets(|to|, c, L);
    NotTooEarly(c, sum, w, EstimateOf(L, |to|, c), start, L);
  }
}
