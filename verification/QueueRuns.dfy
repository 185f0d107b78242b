/** Whole runs of the priority queue (request-plane/queue/queue.go), with `TryPush` and `Pop` as
    atomic operations: conservation, and what AheadOf foretells about later pops. */
module QueueRuns {
  import opened PriorityQueue

  datatype Event = Push(r: Request) | Pop

  function Step(s: Lanes, capacity: nat, e: Event): (Lanes, Outcome) {
    match e
    case Push(r) => PushStep(s, capacity, r)
    case Pop => PopStep(s)
  }

  function Run(s: Lanes, capacity: nat, es: seq<Event>): Lanes {
    if es == [] then s
    else Step(Run(s, capacity, es[..|es| - 1]), capacity, es[|es| - 1]).0
  }

  /** What each event of the run did. */
  function Outcomes(s: Lanes, capacity: nat, es: seq<Event>): (os: seq<Outcome>)
    ensures |os| == |es|
  {
    if es == [] then []
    else
      var n := |es| - 1;
      Outcomes(s, capacity, es[..n]) + [Step(Run(s, capacity, es[..n]), capacity, es[n]).1]
  }

  /** The requests accepted into one lane, in order. */
  function AcceptedInto(os: seq<Outcome>, p: Priority): seq<Request> {
    if os == [] then []
    else
      var o := os[|os| - 1];
      AcceptedInto(os[..|os| - 1], p) + Gained(o, p)
  }

  /** The requests popped from one lane, in order. */
  function PoppedFrom(os: seq<Outcome>, p: Priority): seq<Request> {
    if os == [] then []
    else
      var o := os[|os| - 1];
      PoppedFrom(os[..|os| - 1], p) + Lost(o, p)
  }

  /** All popped requests, in order. */
  function Popped(os: seq<Outcome>): seq<Request> {
    if os == [] then []
    else
      var o := os[|os| - 1];
      Popped(os[..|os| - 1]) + if o.Got? then [o.r] else []
  }

  /** How many requests of strictly higher priority than p were accepted. */
  function AcceptedAbove(os: seq<Outcome>, p: Priority): nat {
    if os == [] then 0
    else
      var o := os[|os| - 1];
      AcceptedAbove(os[..|os| - 1], p) + if o.Accepted? && Rank(o.r.priority) < Rank(p) then 1 else 0
  }

  /** What an outcome adds to and removes from a lane. */
  function Gained(o: Outcome, p: Priority): seq<Request> {
    if o.Accepted? && o.r.priority == p then [o.r] else []
  }

  function Lost(o: Outcome, p: Priority): seq<Request> {
    if o.Got? && o.lane == p then [o.r] else []
  }

  lemma StepConserves(s: Lanes, capacity: nat, e: Event, p: Priority)
    ensures var (s', o) := Step(s, capacity, e);
            s.Lane(p) + Gained(o, p) == Lost(o, p) + s'.Lane(p)
  {
  }

  /** Nothing is lost, duplicated or reordered within a lane: what was there and what was
      accepted is what was popped followed by what is still queued. */
  lemma {:induction false} LaneConservation(s: Lanes, capacity: nat, es: seq<Event>, p: Priority)
    ensures var os := Outcomes(s, capacity, es);
            s.Lane(p) + AcceptedInto(os, p) == PoppedFrom(os, p) + Run(s, capacity, es).Lane(p)
  {
    if es != [] {
      var n := |es| - 1;
      var before, os := Run(s, capacity, es[..n]), Outcomes(s, capacity, es[..n]);
      LaneConservation(s, capacity, es[..n], p);
      StepConserves(before, capacity, es[n], p);
      var (after, o) := Step(before, capacity, es[n]);
      assert (os + [o])[..n] == os;
      Telescope(s.Lane(p), AcceptedInto(os, p), PoppedFrom(os, p), before.Lane(p),
                Gained(o, p), Lost(o, p), after.Lane(p));
    }
  }

  // ---------------------------------------------------------------- AheadOf as a prophecy

  /** r waits at index i of its lane, and nowhere else. */
  ghost predicate Waiting(s: Lanes, r: Request, i: nat) {
    && i < |s.Lane(r.priority)|
    && s.Lane(r.priority)[i] == r
    && (forall j :: 0 <= j < |s.Lane(r.priority)| && s.Lane(r.priority)[j] == r ==> j == i)
  }

  /** How many pops serve others before r. */
  ghost function Distance(s: Lanes, r: Request, i: nat): nat {
    s.Above(r.priority) + i
  }

  /** One event moves a waiting request as follows; only a pop at distance 0 can return it. */
  lemma StepDistance(s: Lanes, capacity: nat, e: Event, r: Request, i: nat) returns (i': nat)
    requires Waiting(s, r, i) && e != Push(r)
    ensures var (s', o) := Step(s, capacity, e);
            if Distance(s, r, i) == 0 && e == Pop then (
              o == Got(r.priority, r)
            ) else (
              && Waiting(s', r, i')
              && o != Got(r.priority, r)
              && Distance(s', r, i') == Distance(s, r, i)
                                      + (if o.Accepted? && Rank(o.r.priority) < Rank(r.priority) then 1 else 0)
                                      - (if o.Got? then 1 else 0)
            )
  {
    i' := i;
    var (s', o) := Step(s, capacity, e);
    if o.Got? && o.lane == r.priority && i > 0 {
      i' := i - 1;
      assert s'.Lane(r.priority) == s.Lane(r.priority)[1..];
    }
  }

  /** r was accepted just before the run and is not pushed again (the gateway numbers requests). */
  ghost predicate JustPushed(s: Lanes, capacity: nat, r: Request, es: seq<Event>) {
    && |s.Lane(r.priority)| < capacity
    && r !in s.Lane(r.priority)
    && Push(r) !in es
  }

  ghost predicate NotServed(os: seq<Outcome>, r: Request) {
    forall k :: 0 <= k < |os| ==> os[k] != Got(r.priority, r)
  }

  /** As long as r has not been served, its distance is AheadOf before its push, plus the
      strictly-higher-priority requests accepted since, minus the pops since. */
  lemma {:induction false} DistanceInvariant(s: Lanes, capacity: nat, r: Request, es: seq<Event>) returns (i: nat)
    requires JustPushed(s, capacity, r, es)
    requires NotServed(Outcomes(PushStep(s, capacity, r).0, capacity, es), r)
    ensures var s1 := PushStep(s, capacity, r).0;
            var os := Outcomes(s1, capacity, es);
            Waiting(Run(s1, capacity, es), r, i) &&
            Distance(Run(s1, capacity, es), r, i) + |Popped(os)| == s.Ahead(r.priority) + AcceptedAbove(os, r.priority)
  {
    var s1 := PushStep(s, capacity, r).0;
    if es == [] {
      i := |s.Lane(r.priority)|;
    } else {
      var n := |es| - 1;
      var os, all := Outcomes(s1, capacity, es[..n]), Outcomes(s1, capacity, es);
      assert all[..n] == os;
      forall k | 0 <= k < |os| ensures os[k] != Got(r.priority, r) { assert os[k] == all[k]; }
      var before := DistanceInvariant(s, capacity, r, es[..n]);
      assert es[n] in es;
      i := StepDistance(Run(s1, capacity, es[..n]), capacity, es[n], r, before);
      assert all[n] != Got(r.priority, r);
    }
  }

  /** Main theorem. While r has not been served: the next pop returns r exactly when the pops
      since r's push number AheadOf just before the push plus the strictly-higher-priority
      requests accepted in between; and they are never more. */
  lemma AheadOfIsExact(s: Lanes, capacity: nat, r: Request, es: seq<Event>)
    requires JustPushed(s, capacity, r, es)
    requires NotServed(Outcomes(PushStep(s, capacity, r).0, capacity, es), r)
    ensures var s1 := PushStep(s, capacity, r).0;
            var os := Outcomes(s1, capacity, es);
            && |Popped(os)| <= s.Ahead(r.priority) + AcceptedAbove(os, r.priority)
            && (PopStep(Run(s1, capacity, es)).1 == Got(r.priority, r) <==>
                |Popped(os)| == s.Ahead(r.priority) + AcceptedAbove(os, r.priority))
  {
    var i := DistanceInvariant(s, capacity, r, es);
    var now := Run(PushStep(s, capacity, r).0, capacity, es);
    var i' := StepDistance(now, capacity, Pop, r, i);
  }

  lemma {:induction false} NothingAboveHigh(os: seq<Outcome>)
    ensures AcceptedAbove(os, PriorityHigh) == 0
  {
    if os != [] { NothingAboveHigh(os[..|os| - 1]); }
  }

  lemma {:induction false} LanePopsAreSome(os: seq<Outcome>, p: Priority)
    ensures |PoppedFrom(os, p)| <= |Popped(os)|
    ensures |PoppedFrom(os, p)| == |Popped(os)| ==> PoppedFrom(os, p) == Popped(os)
  {
    if os != [] { LanePopsAreSome(os[..|os| - 1], p); }
  }

  /** A high-priority request is never overtaken: whatever is pushed meanwhile, the requests
      served before it are exactly the ones that were in the High lane when it was pushed, in
      their order, so it waits fewer than capacityPerLane pops. */
  lemma HighIsNeverOvertaken(s: Lanes, capacity: nat, r: Request, es: seq<Event>)
    requires r.priority == PriorityHigh && JustPushed(s, capacity, r, es)
    requires NotServed(Outcomes(PushStep(s, capacity, r).0, capacity, es), r)
    requires PopStep(Run(PushStep(s, capacity, r).0, capacity, es)).1 == Got(PriorityHigh, r)
    ensures Popped(Outcomes(PushStep(s, capacity, r).0, capacity, es)) == s.high
    ensures |Popped(Outcomes(PushStep(s, capacity, r).0, capacity, es))| < capacity
  {
    var s1 := PushStep(s, capacity, r).0;
    var os := Outcomes(s1, capacity, es);
    var i := DistanceInvariant(s, capacity, r, es);
    AheadOfIsExact(s, capacity, r, es);
    NothingAboveHigh(os);
    LaneConservation(s1, capacity, es, PriorityHigh);
    LanePopsAreSome(os, PriorityHigh);
    var popped, queued, line := PoppedFrom(os, PriorityHigh), Run(s1, capacity, es).high,
      s.high + [r] + AcceptedInto(os, PriorityHigh);
    assert queued[0] == r && line == popped + queued;
    assert line[|popped|] == r;
    assert |popped| == |s.high|;
    assert popped == line[..|popped|] == s.high;
  }
}
