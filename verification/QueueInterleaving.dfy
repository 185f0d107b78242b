/** `Pop` taken apart (request-plane/queue/queue.go:136-161): it probes the lanes one at a time
    and then waits in an unordered select, while other goroutines push and pop. Each channel
    operation is one event; an event that is not possible changes nothing. */
module QueueInterleaving {
  import opened PriorityQueue

  /** Where a call of Pop is. `since` is the number of events before the call began. */
  datatype Pc =
    | Idle
    | Probing(next: nat, since: nat)

  datatype System = System(capacity: nat, lanes: Lanes, threads: map<nat, Pc>, clock: nat) {
    function Pc(t: nat): Pc {
      if t in threads then threads[t] else Idle
    }
  }

  datatype Event =
    | TryPush(r: Request)
    | Begin(t: nat)                 // thread t calls Pop
    | Probe(t: nat)                 // one turn of the loop of tryPopHighestPriority
    | Wake(t: nat, p: Priority)     // the blocking select takes from any non-empty lane
    | Cancel(t: nat)                // ctx.Done() in the select

  /** What an event did; Took records which call took which head. */
  datatype Effect =
    | Nothing
    | Entered(r: Request)
    | Took(t: nat, since: nat, p: Priority, r: Request)

  function Take(s: System, t: nat, p: Priority): (System, Effect)
    requires s.Pc(t).Probing? && s.lanes.Lane(p) != []
  {
    var lane := s.lanes.Lane(p);
    (s.(lanes := s.lanes.With(p, lane[1..]), threads := s.threads[t := Idle]),
     Took(t, s.Pc(t).since, p, lane[0]))
  }

  function Act(s: System, e: Event): (System, Effect) {
    match e
    case TryPush(r) =>
      var lane := s.lanes.Lane(r.priority);
      if |lane| < s.capacity then (s.(lanes := s.lanes.With(r.priority, lane + [r])), Entered(r))
      else (s, Nothing)
    case Begin(t) =>
      if s.Pc(t) == Idle then (s.(threads := s.threads[t := Probing(0, s.clock)]), Nothing) else (s, Nothing)
    case Probe(t) =>
      var pc := s.Pc(t);
      if pc == Idle || pc.next >= |POP_ORDER| then (s, Nothing)
      else if s.lanes.Lane(POP_ORDER[pc.next]) != [] then Take(s, t, POP_ORDER[pc.next])
      else (s.(threads := s.threads[t := Probing(pc.next + 1, pc.since)]), Nothing)
    case Wake(t, p) =>
      if s.Pc(t) != Idle && s.Pc(t).next == |POP_ORDER| && s.lanes.Lane(p) != [] then Take(s, t, p)
      else (s, Nothing)
    case Cancel(t) =>
      if s.Pc(t) != Idle && s.Pc(t).next == |POP_ORDER| then (s.(threads := s.threads[t := Idle]), Nothing)
      else (s, Nothing)
  }

  function Step(s: System, e: Event): (System, Effect) {
    var (s', effect) := Act(s, e);
    (s'.(clock := s.clock + 1), effect)
  }

  function Start(capacity: nat): System {
    System(capacity, EMPTY, map[], 0)
  }

  function Run(capacity: nat, es: seq<Event>): System {
    if es == [] then Start(capacity) else Step(Run(capacity, es[..|es| - 1]), es[|es| - 1]).0
  }

  /** What the k-th event of the run did. */
  function EffectAt(capacity: nat, es: seq<Event>, k: nat): Effect
    requires k < |es|
  {
    Step(Run(capacity, es[..k]), es[k]).1
  }

  /** The lane after the first k events. */
  function LaneAt(capacity: nat, es: seq<Event>, k: nat, p: Priority): seq<Request>
    requires k <= |es|
  {
    Run(capacity, es[..k]).lanes.Lane(p)
  }

  /** What has been accepted into and taken from a lane, in order of the events. */
  function AcceptedInto(capacity: nat, es: seq<Event>, p: Priority): seq<Request> {
    if es == [] then []
    else
      var n := |es| - 1;
      var effect := EffectAt(capacity, es, n);
      AcceptedInto(capacity, es[..n], p)
      + if effect.Entered? && effect.r.priority == p then [effect.r] else []
  }

  function TakenFrom(capacity: nat, es: seq<Event>, p: Priority): seq<Request> {
    if es == [] then []
    else
      var n := |es| - 1;
      var effect := EffectAt(capacity, es, n);
      TakenFrom(capacity, es[..n], p) + if effect.Took? && effect.p == p then [effect.r] else []
  }

  /** No request is lost, delivered twice or reordered within its lane, however the calls
      interleave: what was accepted is what was taken, in order of removal, then what waits. */
  lemma {:induction false} Conservation(capacity: nat, es: seq<Event>, p: Priority)
    ensures AcceptedInto(capacity, es, p) == TakenFrom(capacity, es, p) + Run(capacity, es).lanes.Lane(p)
  {
    if es != [] {
      var n := |es| - 1;
      Conservation(capacity, es[..n], p);
      StepConserves(Run(capacity, es[..n]), es[n], p);
      var effect := EffectAt(capacity, es, n);
      var gained := if effect.Entered? && effect.r.priority == p then [effect.r] else [];
      var lost := if effect.Took? && effect.p == p then [effect.r] else [];
      Telescope([], AcceptedInto(capacity, es[..n], p), TakenFrom(capacity, es[..n], p),
                Run(capacity, es[..n]).lanes.Lane(p), gained, lost, Run(capacity, es).lanes.Lane(p));
    }
  }

  lemma StepConserves(s: System, e: Event, p: Priority)
    ensures var (s', effect) := Step(s, e);
            s.lanes.Lane(p) + (if effect.Entered? && effect.r.priority == p then [effect.r] else [])
            == (if effect.Took? && effect.p == p then [effect.r] else []) + s'.lanes.Lane(p)
  {
  }

  // ---------------------------------------------------------------- a call left alone

  /** n probes of thread t, one after another. */
  function Probes(s: System, t: nat, n: nat): System {
    if n == 0 then s else Step(Probes(s, t, n - 1), Probe(t)).0
  }

  lemma ProbeTakes(s: System, t: nat)
    requires s.Pc(t).Probing? && s.Pc(t).next < 3 && s.lanes.Lane(POP_ORDER[s.Pc(t).next]) != []
    ensures var s', p := Step(s, Probe(t)).0, POP_ORDER[s.Pc(t).next];
            s'.Pc(t) == Idle && s'.lanes == s.lanes.With(p, s.lanes.Lane(p)[1..])
  {
  }

  lemma ProbeMisses(s: System, t: nat)
    requires s.Pc(t).Probing? && s.Pc(t).next < 3 && s.lanes.Lane(POP_ORDER[s.Pc(t).next]) == []
    ensures var s' := Step(s, Probe(t)).0;
            s'.Pc(t) == Probing(s.Pc(t).next + 1, s.Pc(t).since) && s'.lanes == s.lanes
  {
  }

  lemma {:induction false} IdleProbesDoNothing(s: System, t: nat, n: nat)
    requires s.Pc(t) == Idle
    ensures Probes(s, t, n).lanes == s.lanes && Probes(s, t, n).Pc(t) == Idle
  {
    if n > 0 { IdleProbesDoNothing(s, t, n - 1); }
  }

  lemma {:induction false} ProbesAfterOne(s: System, t: nat, n: nat)
    ensures Probes(s, t, n + 1) == Probes(Step(s, Probe(t)).0, t, n)
  {
    if n > 0 { ProbesAfterOne(s, t, n - 1); }
  }

  /** The remaining probes of a call, alone: the head of the first of the remaining lanes that has one. */
  lemma {:induction false} ProbesPop(s: System, t: nat, i: nat)
    requires i <= 3 && s.Pc(t).Probing? && s.Pc(t).next == i
    requires forall j :: 0 <= j < i ==> s.lanes.Lane(POP_ORDER[j]) == []
    ensures var s' := Probes(s, t, 3 - i);
            && s'.lanes == PopStep(s.lanes).0
            && (PopStep(s.lanes).1.Got? ==> s'.Pc(t) == Idle)
            && (PopStep(s.lanes).1 == Blocked ==> s'.Pc(t) == Probing(3, s.Pc(t).since))
    decreases 3 - i
  {
    if i == 3 {
      NoHeadInOrder(s.lanes);
    } else {
      var s1 := Step(s, Probe(t)).0;
      ProbesAfterOne(s, t, 2 - i);
      if s.lanes.Lane(POP_ORDER[i]) != [] {
        ProbeTakes(s, t);
        IdleProbesDoNothing(s1, t, 2 - i);
        FirstHeadInOrder(s.lanes, i);
      } else {
        ProbeMisses(s, t);
        ProbesPop(s1, t, i + 1);
      }
    }
  }

  /** Left alone, a call of Pop is the atomic one, or waits; and a push is always the atomic one. */
  lemma AloneItIsAtomic(s: System, t: nat, r: Request)
    requires s.Pc(t) == Idle
    ensures var s' := Probes(Step(s, Begin(t)).0, t, 3);
            && s'.lanes == PopStep(s.lanes).0
            && (s'.Pc(t) == Idle <==> PopStep(s.lanes).1.Got?)
    ensures Step(s, TryPush(r)).0.lanes == PushStep(s.lanes, s.capacity, r).0
    ensures Step(s, TryPush(r)).1 == Entered(r) <==> |s.lanes.Lane(r.priority)| < s.capacity
  {
    ProbesPop(Step(s, Begin(t)).0, t, 0);
  }

  /** A call that waits can take the head of any lane that gets one, and can be cancelled. */
  lemma WaitingCallCanTake(s: System, t: nat, p: Priority)
    requires s.Pc(t).Probing? && s.Pc(t).next == 3
    ensures s.lanes.Lane(p) != [] ==>
              && Step(s, Wake(t, p)).1 == Took(t, s.Pc(t).since, p, s.lanes.Lane(p)[0])
              && Step(s, Wake(t, p)).0.lanes == s.lanes.With(p, s.lanes.Lane(p)[1..])
    ensures Step(s, Cancel(t)).0.Pc(t) == Idle && Step(s, Cancel(t)).0.lanes == s.lanes
  {
  }

  // ---------------------------------------------------------------- what the calls have seen

  /** Some instant of the call, after it began, when the lane was empty. */
  ghost predicate WasEmpty(capacity: nat, es: seq<Event>, since: nat, p: Priority) {
    exists k :: since < k <= |es| && LaneAt(capacity, es, k, p) == []
  }

  lemma WasEmptyPersists(capacity: nat, es: seq<Event>, e: Event, since: nat, p: Priority)
    requires WasEmpty(capacity, es, since, p)
    ensures WasEmpty(capacity, es + [e], since, p)
  {
    var k :| since < k <= |es| && LaneAt(capacity, es, k, p) == [];
    assert (es + [e])[..k] == es[..k];
    assert LaneAt(capacity, es + [e], k, p) == [];
  }

  /** A call that is under way began at the event it says, and found every lane it has passed
      empty at some instant since. */
  ghost predicate CallIsHonest(capacity: nat, es: seq<Event>, t: nat) {
    var pc := Run(capacity, es).Pc(t);
    pc.Probing? ==>
      && pc.next <= |POP_ORDER|
      && pc.since < |es| && es[pc.since] == Begin(t)
      && Run(capacity, es[..pc.since]).Pc(t) == Idle
      && forall j :: 0 <= j < pc.next ==> WasEmpty(capacity, es, pc.since, POP_ORDER[j])
  }

  lemma {:induction false} ClockCounts(capacity: nat, es: seq<Event>)
    ensures Run(capacity, es).clock == |es|
    ensures Run(capacity, es).capacity == capacity
  {
    if es != [] { ClockCounts(capacity, es[..|es| - 1]); }
  }

  lemma {:induction false} CallsAreHonest(capacity: nat, es: seq<Event>, t: nat)
    ensures CallIsHonest(capacity, es, t)
  {
    if es != [] {
      var n := |es| - 1;
      var earlier, e := es[..n], es[n];
      assert es == earlier + [e];
      CallsAreHonest(capacity, earlier, t);
      ClockCounts(capacity, earlier);
      var pc, pc' := Run(capacity, earlier).Pc(t), Run(capacity, es).Pc(t);
      if pc'.Probing? {
        if pc.Probing? {
          assert es[..pc.since] == earlier[..pc.since];
          forall j | 0 <= j < pc'.next ensures WasEmpty(capacity, es, pc'.since, POP_ORDER[j]) {
            if j < pc.next {
              WasEmptyPersists(capacity, earlier, e, pc.since, POP_ORDER[j]);
            } else {
              assert es[..|es|] == es;
              assert LaneAt(capacity, es, |es|, POP_ORDER[j]) == [];
            }
          }
        } else {
          assert pc' == Probing(0, n);
        }
      }
    }
  }

  /** Main theorem: whatever else runs, if a call of Pop takes a request from lane p at event k,
      then for every higher-priority lane there was an instant during that very call when it was
      empty. (The comment at queue.go:95-96 claims more; see PopCanOvertake.) */
  lemma HigherLanesWereEmpty(capacity: nat, es: seq<Event>, k: nat, q: Priority)
    requires k < |es| && EffectAt(capacity, es, k).Took?
    requires Rank(q) < Rank(EffectAt(capacity, es, k).p)
    ensures var call := EffectAt(capacity, es, k);
            && call.since < k && es[call.since] == Begin(call.t)
            && Run(capacity, es[..call.since]).Pc(call.t) == Idle
            && exists i :: call.since < i <= k && LaneAt(capacity, es, i, q) == []
  {
    var call := EffectAt(capacity, es, k);
    var before := es[..k];
    CallsAreHonest(capacity, before, call.t);
    var pc := Run(capacity, before).Pc(call.t);
    assert before[..pc.since] == es[..pc.since];
    assert Rank(q) < pc.next;
    assert WasEmpty(capacity, before, pc.since, POP_ORDER[Rank(q)]);
    var i :| pc.since < i <= |before| && LaneAt(capacity, before, i, q) == [];
    assert before[..i] == es[..i];
    assert LaneAt(capacity, es, i, q) == [];
  }

  lemma {:induction false} CountsGrow(capacity: nat, es: seq<Event>, i: nat, k: nat, p: Priority)
    requires i <= k <= |es|
    ensures |AcceptedInto(capacity, es[..i], p)| <= |AcceptedInto(capacity, es[..k], p)|
    ensures |TakenFrom(capacity, es[..i], p)| <= |TakenFrom(capacity, es[..k], p)|
    decreases k
  {
    if i < k {
      CountsGrow(capacity, es, i, k - 1, p);
      assert es[..k][..k - 1] == es[..k - 1];
    }
  }

  /** Exactly when the strict claim fails: at event k a higher lane q is occupied if and only if,
      since an instant i of the call at which it was empty, more was accepted into q than taken
      from it. */
  lemma OvertakesExactlyWhenRefilled(capacity: nat, es: seq<Event>, i: nat, k: nat, q: Priority)
    requires i <= k <= |es| && LaneAt(capacity, es, i, q) == []
    ensures var accepted := |AcceptedInto(capacity, es[..k], q)| - |AcceptedInto(capacity, es[..i], q)|;
            var taken := |TakenFrom(capacity, es[..k], q)| - |TakenFrom(capacity, es[..i], q)|;
            && 0 <= taken <= accepted
            && |LaneAt(capacity, es, k, q)| == accepted - taken
            && (LaneAt(capacity, es, k, q) != [] <==> taken < accepted)
  {
    Conservation(capacity, es[..i], q);
    Conservation(capacity, es[..k], q);
    CountsGrow(capacity, es, i, k, q);
  }

  /** Request x entered lane q by an event from i to k. */
  ghost predicate EnteredBetween(capacity: nat, es: seq<Event>, i: nat, k: nat, q: Priority, x: Request)
    requires k <= |es|
  {
    exists m :: i <= m < k && EffectAt(capacity, es, m) == Entered(x) && x.priority == q
  }

  lemma StepFillsLane(s: System, e: Event, q: Priority, x: Request)
    requires x in Step(s, e).0.lanes.Lane(q)
    ensures x in s.lanes.Lane(q) || (Step(s, e).1 == Entered(x) && x.priority == q)
  {
  }

  /** What is in a lane that was empty at i has entered it since. */
  lemma {:induction false} LaneWasFilledSince(capacity: nat, es: seq<Event>, i: nat, k: nat, q: Priority, x: Request)
    requires i <= k <= |es| && LaneAt(capacity, es, i, q) == [] && x in LaneAt(capacity, es, k, q)
    ensures EnteredBetween(capacity, es, i, k, q, x)
    decreases k
  {
    var s, e := Run(capacity, es[..k - 1]), es[k - 1];
    assert es[..k][..k - 1] == es[..k - 1];
    if x in s.lanes.Lane(q) {
      LaneWasFilledSince(capacity, es, i, k - 1, q, x);
    } else {
      StepFillsLane(s, e, q, x);
      assert EffectAt(capacity, es, k - 1) == Entered(x);
    }
  }

  /** Whom a call of Pop can overtake: if it takes a request from lane p at event k, then every request
      that waits in a higher lane at that moment was pushed during that very call. Nothing is
      overtaken that was there when the call began. */
  lemma OvertakenCameDuringTheCall(capacity: nat, es: seq<Event>, k: nat, q: Priority, x: Request)
    requires k < |es| && EffectAt(capacity, es, k).Took?
    requires Rank(q) < Rank(EffectAt(capacity, es, k).p) && x in LaneAt(capacity, es, k, q)
    ensures EffectAt(capacity, es, k).since < k
    ensures EnteredBetween(capacity, es, EffectAt(capacity, es, k).since + 1, k, q, x)
  {
    var call := EffectAt(capacity, es, k);
    HigherLanesWereEmpty(capacity, es, k, q);
    var i :| call.since < i <= k && LaneAt(capacity, es, i, q) == [];
    LaneWasFilledSince(capacity, es, i, k, q, x);
    var m :| i <= m < k && EffectAt(capacity, es, m) == Entered(x) && x.priority == q;
    assert call.since + 1 <= m;
  }

  /** The strict claim "Pop never returns a normal or low request while a high-priority one is
      waiting" is false of the code: the two pushes land between two probes of one call. */
  lemma PopCanOvertake() returns (es: seq<Event>, high: Request, normal: Request)
    ensures high.priority == PriorityHigh && normal.priority == PriorityNormal
    ensures |es| == 5 && EffectAt(1, es, 4).Took? && EffectAt(1, es, 4).r == normal
    ensures LaneAt(1, es, 4, PriorityHigh) == [high]
  {
    high, normal := Request(1, "m", PriorityHigh, false), Request(2, "m", PriorityNormal, false);
    var e0, e1, e2, e3, e4 := Begin(0), Probe(0), TryPush(high), TryPush(normal), Probe(0);
    var s1 := [e0];
    var s2 := s1 + [e1];
    var s3 := s2 + [e2];
    var s4 := s3 + [e3];
    es := s4 + [e4];
    assert s1[..0] == [] && s2[..1] == s1 && s3[..2] == s2 && s4[..3] == s3 && es[..4] == s4;
    assert Run(1, s1) == Step(Start(1), e0).0;
    assert Run(1, s1).Pc(0) == Probing(0, 0);
    assert Run(1, s2) == Step(Run(1, s1), e1).0;
    assert Run(1, s2).Pc(0) == Probing(1, 0);
    assert Run(1, s3) == Step(Run(1, s2), e2).0;
    assert Run(1, s4) == Step(Run(1, s3), e3).0;
    assert Run(1, s4).lanes == Lanes([high], [normal], []);
    assert Run(1, s4).Pc(0) == Probing(1, 0);
    assert EffectAt(1, es, 4) == Step(Run(1, s4), e4).1;
  }
}
