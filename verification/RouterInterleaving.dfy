/** Choosing a worker while the counts move (control-plane/router/router.go:164-209, 213-241):
    pickWorker reads every in-flight counter once in each of two passes, and other requests go on
    adding to the same counters. The readings here are taken at instants of a run of
    InFlightCounting. */
module RouterInterleaving {
  import opened Membership
  import opened Options
  import opened Routing
  import Flights = InFlightCounting

  /** What an event adds to a worker's counter. */
  function Added(s: Flights.State, e: Flights.Event, w: string): int {
    if e.Act? && Flights.PcOf(s, e.t).Found? && Flights.PcOf(s, e.t).w == w then
      if Flights.PcOf(s, e.t).op == Flights.Inc then 1 else -1
    else 0
  }

  /** What the events from i to j have added to it, all in all. */
  function Net(es: seq<Flights.Event>, i: nat, j: nat, w: string): int
    requires i <= j <= |es|
    decreases j
  {
    if i == j then 0 else Net(es, i, j - 1, w) + Added(Flights.Run(es[..j - 1]), es[j - 1], w)
  }

  /** Some event from i to j adds to the worker's counter. */
  ghost predicate Touched(es: seq<Flights.Event>, i: nat, j: nat, w: string)
    requires i <= j <= |es|
  {
    exists k :: i <= k < j && Added(Flights.Run(es[..k]), es[k], w) != 0
  }

  lemma RunSnoc(es: seq<Flights.Event>, e: Flights.Event)
    ensures Flights.Run(es + [e]) == Flights.Step(Flights.Run(es), e)
  {
    assert (es + [e])[..|es|] == es;
  }

  lemma StepAdds(s: Flights.State, e: Flights.Event, s': Flights.State, w: string)
    requires Flights.Consistent(s) && s' == Flights.Step(s, e)
    ensures Flights.InFlightOf(s', w) == Flights.InFlightOf(s, w) + Added(s, e, w)
  {
    if e.Act? && e.t in s.threads {
      assert Flights.ThreadInv(s, s.threads[e.t]);
    }
  }

  lemma OneEventAdds(es: seq<Flights.Event>, j: nat, w: string)
    requires 0 < j <= |es|
    ensures Flights.InFlightOf(Flights.Run(es[..j]), w)
         == Flights.InFlightOf(Flights.Run(es[..j - 1]), w) + Added(Flights.Run(es[..j - 1]), es[j - 1], w)
  {
    RunSnoc(es[..j - 1], es[j - 1]);
    assert es[..j] == es[..j - 1] + [es[j - 1]];
    Flights.RunKeepsConsistent(es[..j - 1]);
    StepAdds(Flights.Run(es[..j - 1]), es[j - 1], Flights.Run(es[..j]), w);
  }

  /** A counter moves by just what is added to it. */
  lemma {:induction false} NetTellsCount(es: seq<Flights.Event>, i: nat, j: nat, w: string)
    requires i <= j <= |es|
    ensures Flights.InFlightOf(Flights.Run(es[..j]), w)
         == Flights.InFlightOf(Flights.Run(es[..i]), w) + Net(es, i, j, w)
    decreases j
  {
    if i < j {
      NetTellsCount(es, i, j - 1, w);
      OneEventAdds(es, j, w);
    }
  }

  lemma {:induction false} UntouchedHasNoNet(es: seq<Flights.Event>, i: nat, j: nat, w: string)
    requires i <= j <= |es| && !Touched(es, i, j, w)
    ensures Net(es, i, j, w) == 0
    decreases j
  {
    if i < j {
      assert Added(Flights.Run(es[..j - 1]), es[j - 1], w) == 0;
      UntouchedHasNoNet(es, i, j - 1, w);
    }
  }

  // ---------------------------------------------------------------- two passes

  /** For every worker the instant at which its counter is read. */
  ghost predicate AreInstants(
      es: seq<Flights.Event>, workers: seq<Entry>, first: string -> nat, second: string -> nat)
  {
    forall w :: w in workers ==> first(w.info.workerId) <= second(w.info.workerId) <= |es|
  }

  function CountAt(es: seq<Flights.Event>, i: nat, w: string): int {
    if i <= |es| then Flights.InFlightOf(Flights.Run(es[..i]), w) else 0
  }

  function Reading(es: seq<Flights.Event>, at: string -> nat): string -> int {
    (w: string) => CountAt(es, at(w), w)
  }

  /** The count by which the first pass found this worker above the minimum has been taken off its
      counter, on balance, when the second pass reads it. */
  predicate FallsToMinimum(es: seq<Flights.Event>, w: string, first: nat, second: nat, minFlight: int)
    requires first <= second <= |es|
  {
    Net(es, first, second, w) == minFlight - CountAt(es, first, w)
  }

  lemma ReadingFalls(es: seq<Flights.Event>, w: string, first: nat, second: nat, minFlight: int)
    requires first <= second <= |es|
    ensures CountAt(es, second, w) == minFlight <==> FallsToMinimum(es, w, first, second, minFlight)
  {
    NetTellsCount(es, first, second, w);
  }

  /** Exactly when pickWorker is left with nobody to index, whatever else runs: no candidate's counter
      has, between its own two readings, lost on balance just what it had above the minimum. In
      particular every candidate that attained the minimum has had its counter moved in between; one
      that nobody touched is enough to be left with somebody. */
  lemma PickFailsExactly(
      es: seq<Flights.Event>, workers: seq<Entry>, first: string -> nat, second: string -> nat, minFlight: int)
    requires AreInstants(es, workers, first, second) && IsMinFlight(workers, Reading(es, first), minFlight)
    ensures SecondPass(workers, Reading(es, second), minFlight) == [] <==>
            forall w :: w in workers ==>
              !FallsToMinimum(es, w.info.workerId, first(w.info.workerId), second(w.info.workerId), minFlight)
    ensures SecondPass(workers, Reading(es, second), minFlight) == [] ==>
              forall w :: w in workers && Reading(es, first)(w.info.workerId) == minFlight ==>
                Touched(es, first(w.info.workerId), second(w.info.workerId), w.info.workerId)
  {
    var left := SecondPass(workers, Reading(es, second), minFlight);
    forall w ensures w in left <==> w in workers && Reading(es, second)(w.info.workerId) == minFlight {
      FilterKeeps(workers, HasFlight(Reading(es, second), minFlight), w);
    }
    forall w | w in workers
      ensures w in left <==>
              FallsToMinimum(es, w.info.workerId, first(w.info.workerId), second(w.info.workerId), minFlight)
      ensures Reading(es, first)(w.info.workerId) == minFlight && w !in left ==>
                Touched(es, first(w.info.workerId), second(w.info.workerId), w.info.workerId)
    {
      var id := w.info.workerId;
      ReadingFalls(es, id, first(id), second(id), minFlight);
      if !Touched(es, first(id), second(id), id) {
        UntouchedHasNoNet(es, first(id), second(id), id);
      }
    }
    if left != [] {
      assert left[0] in left;
    }
  }

  // ---------------------------------------------------------------- a run in which it happens

  /** The lock is free and this thread idle. */
  predicate IsQuiet(s: Flights.State, t: nat) {
    s.writer == None && Flights.PcOf(s, t) == Flights.Idle
  }

  /** A first request on worker w, counted in by thread t. */
  function CountedIn(s: Flights.State, t: nat, w: string): Flights.State {
    Flights.State(s.threads[t := Flights.Running(w)], s.inFlight[w := s.next], s.values[s.next := 1], s.next + 1, None)
  }

  /** Thread t at this point of inc. */
  function At(s: Flights.State, t: nat, pc: Flights.Pc): Flights.State {
    s.(threads := s.threads[t := pc])
  }

  lemma Misses(s: Flights.State, t: nat, w: string)
    requires s.writer == None && w !in s.inFlight
    ensures Flights.Access(At(s, t, Flights.Looking(w, Flights.Inc)), t) == At(s, t, Flights.Missed(w, Flights.Inc))
  {
    assert s.threads[t := Flights.Looking(w, Flights.Inc)][t := Flights.Missed(w, Flights.Inc)]
        == s.threads[t := Flights.Missed(w, Flights.Inc)];
  }

  lemma Locks(s: Flights.State, t: nat, w: string)
    requires s.writer == None
    ensures Flights.Access(At(s, t, Flights.Missed(w, Flights.Inc)), t)
         == At(s, t, Flights.Locked(w, Flights.Inc)).(writer := Some(t))
  {
    assert s.threads[t := Flights.Missed(w, Flights.Inc)][t := Flights.Locked(w, Flights.Inc)]
        == s.threads[t := Flights.Locked(w, Flights.Inc)];
  }

  lemma MissesAgain(s: Flights.State, t: nat, w: string)
    requires w !in s.inFlight
    ensures Flights.Access(At(s, t, Flights.Locked(w, Flights.Inc)).(writer := Some(t)), t)
         == At(s, t, Flights.Creating(w, Flights.Inc)).(writer := Some(t))
  {
    assert s.threads[t := Flights.Locked(w, Flights.Inc)][t := Flights.Creating(w, Flights.Inc)]
        == s.threads[t := Flights.Creating(w, Flights.Inc)];
  }

  lemma ActOnce(es: seq<Flights.Event>, t: nat) returns (es': seq<Flights.Event>)
    ensures Flights.Run(es') == Flights.Access(Flights.Run(es), t)
  {
    es' := es + [Flights.Act(t)];
    RunSnoc(es, Flights.Act(t));
  }

  lemma BeginOnce(es: seq<Flights.Event>, s: Flights.State, t: nat, w: string) returns (es': seq<Flights.Event>)
    requires Flights.Run(es) == s && IsQuiet(s, t)
    ensures Flights.Run(es') == At(s, t, Flights.Looking(w, Flights.Inc))
  {
    es' := es + [Flights.Begin(t, w)];
    RunSnoc(es, Flights.Begin(t, w));
  }

  /** The half of inc that looks, misses, takes the lock and looks again. */
  lemma LookTwice(es: seq<Flights.Event>, s: Flights.State, t: nat, w: string) returns (es': seq<Flights.Event>)
    requires Flights.Run(es) == s && IsQuiet(s, t) && w !in s.inFlight
    ensures Flights.Run(es') == At(s, t, Flights.Creating(w, Flights.Inc)).(writer := Some(t))
  {
    es' := BeginOnce(es, s, t, w);
    es' := ActOnce(es', t);
    Misses(s, t, w);
    es' := ActOnce(es', t);
    Locks(s, t, w);
    es' := ActOnce(es', t);
    MissesAgain(s, t, w);
  }

  /** With its new counter, at this point of the code. */
  function WithCounter(s: Flights.State, t: nat, pc: Flights.Pc, w: string, writer: Option<nat>): Flights.State {
    Flights.State(s.threads[t := pc], s.inFlight[w := s.next], s.values[s.next := 0], s.next + 1, writer)
  }

  lemma Inserts(s: Flights.State, t: nat, w: string)
    ensures Flights.Access(At(s, t, Flights.Creating(w, Flights.Inc)).(writer := Some(t)), t)
         == WithCounter(s, t, Flights.Releasing(w, Flights.Inc, s.next), w, Some(t))
  {
    assert s.threads[t := Flights.Creating(w, Flights.Inc)][t := Flights.Releasing(w, Flights.Inc, s.next)]
        == s.threads[t := Flights.Releasing(w, Flights.Inc, s.next)];
  }

  lemma Releases(s: Flights.State, t: nat, w: string)
    ensures Flights.Access(WithCounter(s, t, Flights.Releasing(w, Flights.Inc, s.next), w, Some(t)), t)
         == WithCounter(s, t, Flights.Found(w, Flights.Inc, s.next), w, None)
  {
    assert s.threads[t := Flights.Releasing(w, Flights.Inc, s.next)][t := Flights.Found(w, Flights.Inc, s.next)]
        == s.threads[t := Flights.Found(w, Flights.Inc, s.next)];
  }

  lemma Adds(s: Flights.State, t: nat, w: string)
    ensures Flights.Access(WithCounter(s, t, Flights.Found(w, Flights.Inc, s.next), w, None), t) == CountedIn(s, t, w)
  {
    assert s.threads[t := Flights.Found(w, Flights.Inc, s.next)][t := Flights.Running(w)]
        == s.threads[t := Flights.Running(w)];
    assert s.values[s.next := 0][s.next := 1] == s.values[s.next := 1];
  }

  /** The half that inserts the counter, lets the lock go and adds. */
  lemma InsertAndAdd(es: seq<Flights.Event>, s: Flights.State, t: nat, w: string) returns (es': seq<Flights.Event>)
    requires Flights.Run(es) == At(s, t, Flights.Creating(w, Flights.Inc)).(writer := Some(t))
    ensures Flights.Run(es') == CountedIn(s, t, w)
  {
    es' := ActOnce(es, t);
    Inserts(s, t, w);
    es' := ActOnce(es', t);
    Releases(s, t, w);
    es' := ActOnce(es', t);
    Adds(s, t, w);
  }

  /** Two requests go to two workers that were idle. */
  lemma TwoIncs(v: string, w: string) returns (es: seq<Flights.Event>)
    requires v != w
    ensures Flights.InFlightOf(Flights.Run(es), v) == Flights.InFlightOf(Flights.Run(es), w) == 1
  {
    assert Flights.Run([]) == Flights.START;
    es := LookTwice([], Flights.START, 1, v);
    es := InsertAndAdd(es, Flights.START, 1, v);
    var s := Flights.Run(es);
    es := LookTwice(es, s, 2, w);
    es := InsertAndAdd(es, s, 2, w);
  }

  /** It happens: both candidates are idle in the first pass, each gets a request before the second,
      and nobody is left. */
  lemma MovingCountsCanLeaveNobody(a: WorkerInfo, b: WorkerInfo)
    returns (es: seq<Flights.Event>, workers: seq<Entry>, first: string -> nat, second: string -> nat)
    requires a.workerId != b.workerId
    ensures |workers| == 2 && workers[0].info == a && workers[1].info == b
    ensures AreInstants(es, workers, first, second) && IsMinFlight(workers, Reading(es, first), 0)
    ensures SecondPass(workers, Reading(es, second), 0) == []
  {
    es := TwoIncs(a.workerId, b.workerId);
    workers := [Fresh(a, 0, 0), Fresh(b, 1, 0)];
    var end := |es|;
    first, second := _ => 0, _ => end;
    assert es[..0] == [] && es[..end] == es;
    assert Reading(es, first)(a.workerId) == Reading(es, first)(b.workerId) == 0;
    assert workers[0] in workers;
    PickFailsExactly(es, workers, first, second, 0);
    forall w | w in workers ensures !FallsToMinimum(es, w.info.workerId, 0, end, 0) {
      assert CountAt(es, end, w.info.workerId) == 1;
      ReadingFalls(es, w.info.workerId, 0, end, 0);
    }
  }
}
