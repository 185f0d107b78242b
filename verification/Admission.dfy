/** Admission by predicted wait (request-plane/gateway/gateway.go:165-202 with
    request-plane/backpressure/policy.go). A handler measures the queue, decides later on the
    average of that moment, and pushes later still, while other handlers do the same: this is
    check-then-act, and the theorem says how far it can overshoot. */
module AdmissionControl {
  import opened PriorityQueue
  import opened LatencyTracking
  import opened WaitEstimation
  import opened Sets
  import Arithmetic

  /** Policy.Admit: a priority without a threshold is always admitted. */
  predicate Admit(maxWait: map<Priority, int>, p: Priority, wait: int) {
    p in maxWait ==> wait <= maxWait[p]
  }

  datatype Config = Config(capacity: nat, loops: nat, fallback: int, maxWait: map<Priority, int>)

  /** A handler between AheadOf and TryPush. */
  datatype Handler =
    | Measured(model: string, p: Priority, ahead: nat)
    | Admitted(model: string, p: Priority, ahead: nat)

  datatype State = State(lanes: Lanes, avg: map<string, int>, handlers: map<nat, Handler>)

  datatype Event =
    // AheadOf reads the lanes one after another and p's own last: `above` is what the higher
    // lanes showed when they were read.
    | Measure(h: nat, model: string, p: Priority, above: nat)
    | Decide(h: nat)
    | Enqueue(h: nat, id: nat, stream: bool)
    | Take(p: Priority)
    | Record(model: string, d: int)

  function Average(c: Config, s: State, model: string): int {
    if model in s.avg then s.avg[model] else c.fallback
  }

  function Step(c: Config, s: State, e: Event): State
    requires c.loops >= 1
  {
    match e
    case Measure(h, model, p, above) =>
      if h in s.handlers then s
      else s.(handlers := s.handlers[h := Measured(model, p, above + |s.lanes.Lane(p)|)])
    case Decide(h) =>
      if h !in s.handlers || !s.handlers[h].Measured? then s
      else
        var m := s.handlers[h];
        if Admit(c.maxWait, m.p, EstimateOf(Average(c, s, m.model), m.ahead, c.loops))
        then s.(handlers := s.handlers[h := Admitted(m.model, m.p, m.ahead)])
        else s.(handlers := s.handlers - {h})
    case Enqueue(h, id, stream) =>
      if h !in s.handlers || !s.handlers[h].Admitted? then s
      else
        var m := s.handlers[h];
        State(PushStep(s.lanes, c.capacity, Request(id, m.model, m.p, stream)).0, s.avg, s.handlers - {h})
    case Take(p) =>
      if s.lanes.Lane(p) == [] then s else s.(lanes := s.lanes.With(p, s.lanes.Lane(p)[1..]))
    case Record(model, d) => s.(avg := RecordStep(s.avg, model, d))
  }

  function Run(c: Config, es: seq<Event>): State
    requires c.loops >= 1
  {
    if es == [] then State(EMPTY, map[], map[]) else Step(c, Run(c, es[..|es| - 1]), es[|es| - 1])
  }

  /** The latencies recorded in a run. */
  function RecordedIn(es: seq<Event>): seq<Sample> {
    if es == [] then []
    else
      var e := es[|es| - 1];
      RecordedIn(es[..|es| - 1]) + if e.Record? then [Sample(e.model, e.d)] else []
  }

  lemma {:induction false} RunKeepsAverages(c: Config, es: seq<Event>)
    requires c.loops >= 1
    ensures Run(c, es).avg == RecordAll(map[], RecordedIn(es))
  {
    if es != [] {
      var earlier, e := RecordedIn(es[..|es| - 1]), es[|es| - 1];
      RunKeepsAverages(c, es[..|es| - 1]);
      if e.Record? {
        assert (earlier + [Sample(e.model, e.d)])[..|earlier|] == earlier;
      } else {
        assert RecordedIn(es) == earlier;
      }
    }
  }

  /** Whom the policy admits, in any run: a handler gets through exactly if its priority has no
      threshold, or the queue it saw, at the average of the latencies recorded for its model so far,
      is not too long a wait. */
  lemma DecidesOnRecordedLatencies(c: Config, es: seq<Event>, h: nat)
    requires c.loops >= 1 && h in Run(c, es).handlers && Run(c, es).handlers[h].Measured?
    ensures var m := Run(c, es).handlers[h];
            var own := SamplesOf(RecordedIn(es), m.model);
            var average := if own == [] then c.fallback else Stored(own);
            h in Step(c, Run(c, es), Decide(h)).handlers <==>
              m.p !in c.maxWait || TruncDiv(m.ahead * average, c.loops) <= c.maxWait[m.p]
  {
    RunKeepsAverages(c, es);
    TrackerHoldsPerModel(RecordedIn(es), Run(c, es).handlers[h].model);
  }

  /** The deepest queue that a wait of W admits when every request takes at least A. */
  function DeepestAdmitted(A: int, loops: nat, W: int): int
    requires A > 0
  {
    ((W + 1) * loops - 1) / A
  }

  lemma ShallowIsAdmitted(A: int, loops: int, W: int, d: int, n: int, e: int)
    requires A > 0 && loops >= 1 && n <= d
    requires A * d < loops * (W + 1) && loops * e <= A * n
    ensures e <= W
  {
    Arithmetic.Monotone(A, n, d);
    Arithmetic.Cancel(loops, e, W + 1);
  }

  lemma DeeperIsNot(A: int, loops: int, W: int, d: int, n: int, e: int)
    requires A > 0 && loops >= 1 && n > d
    requires loops * (W + 1) <= A * d + A && A * n < loops * e + loops
    ensures e > W
  {
    Arithmetic.Monotone(A, d + 1, n);
    Arithmetic.Distribute(A, d, 1);
    Arithmetic.Distribute(loops, e, 1);
    Arithmetic.Cancel(loops, W + 1, e + 1);
  }

  /** It is the largest N with floor(N * A / C) <= W. */
  lemma DeepestAdmittedIsLargest(A: int, loops: nat, W: int, n: nat)
    requires A > 0 && loops >= 1
    ensures EstimateOf(A, n, loops) <= W <==> n <= DeepestAdmitted(A, loops, W)
  {
    var d, e := DeepestAdmitted(A, loops, W), EstimateOf(A, n, loops);
    Arithmetic.QuotientBounds((W + 1) * loops - 1, A);
    Arithmetic.Commute(W + 1, loops);
    EstimateBrackets(n, loops, A);
    Arithmetic.Commute(n, A);
    if n <= d {
      ShallowIsAdmitted(A, loops, W, d, n, e);
    } else {
      DeeperIsNot(A, loops, W, d, n, e);
    }
  }

  lemma EstimateGrowsWithAverage(A: int, average: int, n: nat, loops: nat)
    requires 0 < A <= average && loops >= 1
    ensures EstimateOf(A, n, loops) <= EstimateOf(average, n, loops)
  {
    EstimateBrackets(n, loops, A);
    EstimateBrackets(n, loops, average);
    Arithmetic.Monotone(n, A, average);
    var e, e' := EstimateOf(A, n, loops), EstimateOf(average, n, loops);
    Arithmetic.Distribute(loops, e', 1);
    Arithmetic.Cancel(loops, e, e' + 1);
  }

  /** The handlers of priority p that are between measuring and pushing. */
  function Pending(s: State, p: Priority): set<nat> {
    set h | h in s.handlers && s.handlers[h].p == p
  }

  /** Those of them that can still get through: they saw a queue no deeper than N. */
  function Promising(s: State, p: Priority, N: int): set<nat> {
    set h | h in s.handlers && s.handlers[h].p == p && s.handlers[h].ahead <= N
  }

  /** Every latency that can be used for an estimate is at least A. */
  ghost predicate AveragesAtLeast(s: State, A: int) {
    forall m :: m in s.avg ==> s.avg[m] >= A
  }

  ghost predicate SamplesAtLeast(es: seq<Event>, A: int) {
    forall i :: 0 <= i < |es| && es[i].Record? ==> es[i].d >= A
  }

  ghost predicate AtMostPending(c: Config, es: seq<Event>, p: Priority, k: nat)
    requires c.loops >= 1
  {
    forall i :: 0 <= i <= |es| ==> |Pending(Run(c, es[..i]), p)| <= k
  }

  /** The invariant, N being the deepest queue that is admitted. */
  ghost predicate Bounded(c: Config, s: State, A: int, p: Priority, N: int, k: nat) {
    && AveragesAtLeast(s, A)
    && s.lanes.WithinCapacity(c.capacity)
    && (forall h :: h in s.handlers && s.handlers[h].p == p && s.handlers[h].Admitted? ==> s.handlers[h].ahead <= N)
    && |s.lanes.Lane(p)| + |Promising(s, p, N)| <= N + k
  }

  /** A handler that measures no more than N sees the lane itself no longer than N, and then at
      most k handlers are pending. */
  lemma MeasureKeepsBound(c: Config, s: State, e: Event, A: int, p: Priority, N: int, k: nat)
    requires c.loops >= 1 && e.Measure? && Bounded(c, s, A, p, N, k)
    requires |Pending(Step(c, s, e), p)| <= k
    ensures Bounded(c, Step(c, s, e), A, p, N, k)
  {
    var s' := Step(c, s, e);
    if e.h !in s.handlers && e.p == p && s'.handlers[e.h].ahead <= N {
      SubsetSize(Promising(s', p, N), Pending(s', p));
    } else {
      assert Promising(s', p, N) == Promising(s, p, N);
    }
  }

  lemma DecideKeepsBound(c: Config, s: State, e: Event, A: int, p: Priority, N: int, k: nat)
    requires c.loops >= 1 && A > 0 && c.fallback >= A && p in c.maxWait
    requires N == DeepestAdmitted(A, c.loops, c.maxWait[p])
    requires e.Decide? && Bounded(c, s, A, p, N, k)
    ensures Bounded(c, Step(c, s, e), A, p, N, k)
  {
    if e.h in s.handlers && s.handlers[e.h].Measured? {
      DecideIsSound(c, s, e.h, A, p);
      SubsetSize(Promising(Step(c, s, e), p, N), Promising(s, p, N));
    }
  }

  lemma PushGrows(lanes: Lanes, capacity: nat, r: Request, p: Priority)
    requires lanes.WithinCapacity(capacity)
    ensures PushStep(lanes, capacity, r).0.WithinCapacity(capacity)
    ensures |PushStep(lanes, capacity, r).0.Lane(p)| <= |lanes.Lane(p)| + if r.priority == p then 1 else 0
  {
  }

  lemma EnqueueKeepsBound(c: Config, s: State, e: Event, A: int, p: Priority, N: int, k: nat)
    requires c.loops >= 1 && e.Enqueue? && Bounded(c, s, A, p, N, k)
    ensures Bounded(c, Step(c, s, e), A, p, N, k)
  {
    if e.h in s.handlers && s.handlers[e.h].Admitted? {
      var s' := Step(c, s, e);
      PushGrows(s.lanes, c.capacity, Request(e.id, s.handlers[e.h].model, s.handlers[e.h].p, e.stream), p);
      if s.handlers[e.h].p == p {
        assert e.h in Promising(s, p, N);
        assert Promising(s', p, N) == Promising(s, p, N) - {e.h};
      } else {
        assert Promising(s', p, N) == Promising(s, p, N);
      }
    }
  }

  lemma StepKeepsBound(c: Config, s: State, e: Event, A: int, p: Priority, N: int, k: nat)
    requires c.loops >= 1 && A > 0 && c.fallback >= A && p in c.maxWait
    requires N == DeepestAdmitted(A, c.loops, c.maxWait[p])
    requires Bounded(c, s, A, p, N, k) && |Pending(Step(c, s, e), p)| <= k
    requires e.Record? ==> e.d >= A
    ensures Bounded(c, Step(c, s, e), A, p, N, k)
  {
    match e
    case Measure(_, _, _, _) => MeasureKeepsBound(c, s, e, A, p, N, k);
    case Decide(_) => DecideKeepsBound(c, s, e, A, p, N, k);
    case Enqueue(_, _, _) => EnqueueKeepsBound(c, s, e, A, p, N, k);
    case Take(_) =>
      assert Promising(Step(c, s, e), p, N) == Promising(s, p, N);
    case Record(model, d) =>
      assert Promising(Step(c, s, e), p, N) == Promising(s, p, N);
      RecordStaysAbove(s.avg, model, d, A);
  }

  lemma RecordStaysAbove(avg: map<string, int>, model: string, d: int, A: int)
    requires d >= A && forall m :: m in avg ==> avg[m] >= A
    ensures forall m :: m in RecordStep(avg, model, d) ==> RecordStep(avg, model, d)[m] >= A
  {
    if model in avg {
      BlendIsBetween(A, if avg[model] > d then avg[model] else d, avg[model], d);
    }
  }

  /** Whoever is admitted saw a queue no deeper than N. */
  lemma DecideIsSound(c: Config, s: State, h: nat, A: int, p: Priority)
    requires c.loops >= 1 && A > 0 && c.fallback >= A && p in c.maxWait && AveragesAtLeast(s, A)
    requires h in s.handlers && s.handlers[h].Measured?
    ensures var s' := Step(c, s, Decide(h));
            h in s'.handlers && s'.handlers[h].p == p ==>
              s'.handlers[h].ahead <= DeepestAdmitted(A, c.loops, c.maxWait[p])
  {
    var m := s.handlers[h];
    EstimateGrowsWithAverage(A, Average(c, s, m.model), m.ahead, c.loops);
    DeepestAdmittedIsLargest(A, c.loops, c.maxWait[p], m.ahead);
  }

  lemma DeepestIsNat(A: int, loops: nat, W: int)
    requires A > 0 && loops >= 1 && W >= 0
    ensures DeepestAdmitted(A, loops, W) >= 0
  {
    assert (W + 1) * loops >= 1;
  }

  lemma {:induction false} RunKeepsBound(c: Config, es: seq<Event>, A: int, p: Priority, N: int, k: nat)
    requires c.loops >= 1 && A > 0 && c.fallback >= A && p in c.maxWait
    requires N == DeepestAdmitted(A, c.loops, c.maxWait[p]) && N >= 0
    requires SamplesAtLeast(es, A) && AtMostPending(c, es, p, k)
    ensures Bounded(c, Run(c, es), A, p, N, k)
  {
    if es == [] {
      assert Promising(Run(c, es), p, N) == {};
    } else {
      var n := |es| - 1;
      forall i | 0 <= i <= n ensures |Pending(Run(c, es[..n][..i]), p)| <= k {
        assert es[..n][..i] == es[..i];
      }
      RunKeepsBound(c, es[..n], A, p, N, k);
      assert es[..|es|] == es;
      StepKeepsBound(c, Run(c, es[..n]), es[n], A, p, N, k);
    }
  }

  /** Main theorem, for every lane that has a threshold: in every run in which latencies are at
      least A and at most k handlers of priority p are between estimate and push at any time, the
      lane never holds more than min(capacity, N + k) requests, N being the deepest queue that
      the threshold admits. */
  lemma LaneNeverExceeds(c: Config, es: seq<Event>, A: int, p: Priority, k: nat)
    requires c.loops >= 1 && A > 0 && c.fallback >= A && p in c.maxWait && c.maxWait[p] >= 0
    requires SamplesAtLeast(es, A) && AtMostPending(c, es, p, k)
    ensures |Run(c, es).lanes.Lane(p)| <= c.capacity
    ensures |Run(c, es).lanes.Lane(p)| <= DeepestAdmitted(A, c.loops, c.maxWait[p]) + k
  {
    DeepestIsNat(A, c.loops, c.maxWait[p]);
    RunKeepsBound(c, es, A, p, DeepestAdmitted(A, c.loops, c.maxWait[p]), k);
  }

  /** With handlers drawn from H only, at most |H| are ever pending. */
  lemma {:induction false} PendingAmong(c: Config, es: seq<Event>, H: set<nat>, p: Priority)
    requires c.loops >= 1 && forall i :: 0 <= i < |es| && es[i].Measure? ==> es[i].h in H
    ensures Run(c, es).handlers.Keys <= H && |Pending(Run(c, es), p)| <= |H|
  {
    if es != [] {
      var n := |es| - 1;
      PendingAmong(c, es[..n], H, p);
    }
    SubsetSize(Pending(Run(c, es), p), H);
  }

  // ---------------------------------------------------------------- the bound is reached

  lemma RunSnoc(c: Config, es: seq<Event>, e: Event)
    requires c.loops >= 1
    ensures Run(c, es + [e]) == Step(c, Run(c, es), e)
  {
    assert (es + [e])[..|es|] == es;
  }

  /** Only handlers below k, and no latency is recorded. */
  ghost predicate Plain(es: seq<Event>, k: nat) {
    forall i :: 0 <= i < |es| ==> (es[i].Measure? ==> es[i].h < k) && !es[i].Record?
  }

  /** The lane has n requests, and these handlers are under way. */
  ghost predicate Stands(c: Config, es: seq<Event>, p: Priority, n: nat, handlers: map<nat, Handler>)
    requires c.loops >= 1
  {
    Run(c, es).avg == map[] && |Run(c, es).lanes.Lane(p)| == n && Run(c, es).handlers == handlers
  }

  /** The threshold admits a depth of n. */
  ghost predicate Admits(c: Config, p: Priority, n: nat)
    requires c.loops >= 1
  {
    p in c.maxWait && EstimateOf(c.fallback, n, c.loops) <= c.maxWait[p]
  }

  function Below(k: nat): (hs: set<nat>)
    ensures |hs| == k && forall h: nat :: h in hs <==> h < k
  {
    if k == 0 then {} else Below(k - 1) + {k - 1}
  }

  /** The first `admitted` of the handlers from `pushed` to k have been admitted, and the others have
      measured; those below `pushed` are through. */
  function Crowd(model: string, p: Priority, n: nat, pushed: nat, admitted: nat, k: nat): map<nat, Handler> {
    map h | h in Below(k) && pushed <= h :: if h < admitted then Admitted(model, p, n) else Measured(model, p, n)
  }

  lemma MeasureOne(c: Config, es: seq<Event>, model: string, p: Priority, n: nat, h: nat)
    requires c.loops >= 1 && Stands(c, es, p, n, Crowd(model, p, n, 0, 0, h))
    ensures Stands(c, es + [Measure(h, model, p, 0)], p, n, Crowd(model, p, n, 0, 0, h + 1))
  {
    RunSnoc(c, es, Measure(h, model, p, 0));
    assert Crowd(model, p, n, 0, 0, h)[h := Measured(model, p, n)] == Crowd(model, p, n, 0, 0, h + 1);
  }

  lemma DecideOne(c: Config, es: seq<Event>, model: string, p: Priority, n: nat, h: nat, k: nat)
    requires c.loops >= 1 && Admits(c, p, n) && h < k && Stands(c, es, p, n, Crowd(model, p, n, 0, h, k))
    ensures Stands(c, es + [Decide(h)], p, n, Crowd(model, p, n, 0, h + 1, k))
  {
    RunSnoc(c, es, Decide(h));
    assert Crowd(model, p, n, 0, h, k)[h := Admitted(model, p, n)] == Crowd(model, p, n, 0, h + 1, k);
  }

  lemma EnqueueOne(c: Config, es: seq<Event>, model: string, p: Priority, n: nat, len: nat, h: nat, k: nat)
    requires c.loops >= 1 && h < k && len <= c.capacity
    requires Stands(c, es, p, len, Crowd(model, p, n, h, k, k))
    ensures Stands(c, es + [Enqueue(h, 0, false)], p, Arithmetic.Min(c.capacity, len + 1),
                   Crowd(model, p, n, h + 1, k, k))
  {
    RunSnoc(c, es, Enqueue(h, 0, false));
    assert Crowd(model, p, n, h, k, k) - {h} == Crowd(model, p, n, h + 1, k, k);
  }

  lemma {:induction false} MeasureAll(c: Config, es: seq<Event>, model: string, p: Priority, n: nat, j: nat, k: nat)
    returns (es': seq<Event>)
    requires c.loops >= 1 && Plain(es, k) && Stands(c, es, p, n, Crowd(model, p, n, 0, 0, 0)) && j <= k
    ensures Plain(es', k) && Stands(c, es', p, n, Crowd(model, p, n, 0, 0, j))
  {
    es' := es;
    if j > 0 {
      es' := MeasureAll(c, es, model, p, n, j - 1, k);
      MeasureOne(c, es', model, p, n, j - 1);
      es' := es' + [Measure(j - 1, model, p, 0)];
    }
  }

  lemma {:induction false} DecideAll(
      c: Config, es: seq<Event>, model: string, p: Priority, n: nat, j: nat, k: nat, most: nat)
    returns (es': seq<Event>)
    requires c.loops >= 1 && Admits(c, p, n) && j <= k && Plain(es, most)
    requires Stands(c, es, p, n, Crowd(model, p, n, 0, 0, k))
    ensures Plain(es', most) && Stands(c, es', p, n, Crowd(model, p, n, 0, j, k))
  {
    es' := es;
    if j > 0 {
      es' := DecideAll(c, es, model, p, n, j - 1, k, most);
      DecideOne(c, es', model, p, n, j - 1, k);
      es' := es' + [Decide(j - 1)];
    }
  }

  lemma {:induction false} EnqueueAll(
      c: Config, es: seq<Event>, model: string, p: Priority, n: nat, j: nat, k: nat, most: nat)
    returns (es': seq<Event>)
    requires c.loops >= 1 && n <= c.capacity && j <= k && Plain(es, most)
    requires Stands(c, es, p, n, Crowd(model, p, n, 0, k, k))
    ensures Plain(es', most) && Stands(c, es', p, Arithmetic.Min(c.capacity, n + j), Crowd(model, p, n, j, k, k))
  {
    es' := es;
    if j > 0 {
      es' := EnqueueAll(c, es, model, p, n, j - 1, k, most);
      var len: nat := Arithmetic.Min(c.capacity, n + j - 1);
      assert Arithmetic.Min(c.capacity, len + 1) == Arithmetic.Min(c.capacity, n + j);
      EnqueueOne(c, es', model, p, n, len, j - 1, k);
      es' := es' + [Enqueue(j - 1, 0, false)];
    }
  }

  /** k handlers measure the same lane, are all admitted, and then all push. */
  lemma Rush(c: Config, es: seq<Event>, model: string, p: Priority, n: nat, j: nat, k: nat) returns (es': seq<Event>)
    requires c.loops >= 1 && n <= c.capacity && Admits(c, p, n) && j <= k && Plain(es, k) && Stands(c, es, p, n, map[])
    ensures Plain(es', k) && Stands(c, es', p, Arithmetic.Min(c.capacity, n + j), map[])
  {
    assert Crowd(model, p, n, 0, 0, 0) == map[];
    es' := MeasureAll(c, es, model, p, n, j, k);
    es' := DecideAll(c, es', model, p, n, j, j, k);
    es' := EnqueueAll(c, es', model, p, n, j, j, k);
    assert Crowd(model, p, n, j, j, j) == map[];
  }

  /** Handlers that come one after another fill the lane as far as it admits them. */
  lemma {:induction false} Fill(c: Config, model: string, p: Priority, m: nat, k: nat) returns (es: seq<Event>)
    requires c.loops >= 1 && k >= 1 && m <= c.capacity && forall n: nat :: n < m ==> Admits(c, p, n)
    ensures Plain(es, k) && Stands(c, es, p, m, map[])
  {
    es := [];
    if m > 0 {
      es := Fill(c, model, p, m - 1, k);
      es := Rush(c, es, model, p, m - 1, 1, k);
    }
  }

  /** The overshoot by k is real, for every configuration and every k: there is a run, of latencies no
      shorter than the fallback and with never more than k handlers between estimate and push, after
      which the lane holds min(capacity, N + k) requests. */
  lemma RaceReachesTheBound(c: Config, p: Priority, model: string, k: nat) returns (es: seq<Event>)
    requires c.loops >= 1 && c.fallback > 0 && p in c.maxWait && c.maxWait[p] >= 0 && k >= 1
    ensures SamplesAtLeast(es, c.fallback) && AtMostPending(c, es, p, k)
    ensures |Run(c, es).lanes.Lane(p)|
         == Arithmetic.Min(c.capacity, DeepestAdmitted(c.fallback, c.loops, c.maxWait[p]) + k)
  {
    DeepestIsNat(c.fallback, c.loops, c.maxWait[p]);
    var N: nat := DeepestAdmitted(c.fallback, c.loops, c.maxWait[p]);
    var m: nat := Arithmetic.Min(c.capacity, N);
    forall n: nat | n <= N ensures Admits(c, p, n) {
      DeepestAdmittedIsLargest(c.fallback, c.loops, c.maxWait[p], n);
    }
    es := Fill(c, model, p, m, k);
    es := Rush(c, es, model, p, m, k, k);
    forall i | 0 <= i <= |es| ensures |Pending(Run(c, es[..i]), p)| <= k {
      PendingAmong(c, es[..i], Below(k), p);
    }
  }
}
