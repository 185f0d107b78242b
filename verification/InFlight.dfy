/** The router's in-flight counters (control-plane/router/router.go:128-130, 213-241): counters made
    on demand with double-checked locking, by any number of request goroutines at once. Every
    access to shared state is an event of its own; an event that is not possible changes nothing. */
module InFlightCounting {

  import opened Options

  datatype Op = Inc | Dec

  /** Where a request goroutine is. `w` is the worker, `c` a counter object. */
  datatype Pc =
    | Idle
    | Looking(w: string, op: Op)             // before the read under RLock
    | Missed(w: string, op: Op)              // not found; before Lock
    | Locked(w: string, op: Op)              // holds the lock; before the second look
    | Creating(w: string, op: Op)            // still not there; before the insertion
    | Releasing(w: string, op: Op, c: nat)   // has its counter; before the deferred Unlock
    | Found(w: string, op: Op, c: nat)       // before the atomic Add
    | Running(w: string)                     // between inc and dec

  datatype State = State(
    threads: map<nat, Pc>,
    inFlight: map<string, nat>,    // the map of counter objects
    values: map<nat, int>,         // the value of every counter object ever made
    next: nat,
    writer: Option<nat>)           // who holds the write lock

  datatype Event =
    | Begin(t: nat, w: string)     // a request chose worker w and calls inc
    | Act(t: nat)                  // thread t makes its next access
    | Finish(t: nat)               // the proxied call is over; t calls dec

  function PcOf(s: State, t: nat): Pc {
    if t in s.threads then s.threads[t] else Idle
  }

  function Goto(s: State, t: nat, pc: Pc): State {
    s.(threads := s.threads[t := pc])
  }

  function Access(s: State, t: nat): State {
    match PcOf(s, t)
    case Idle => s
    case Running(_) => s
    case Looking(w, op) =>
      if s.writer.Some? then s
      else if w in s.inFlight then Goto(s, t, Found(w, op, s.inFlight[w]))
      else Goto(s, t, Missed(w, op))
    case Missed(w, op) =>
      if s.writer.Some? then s else Goto(s, t, Locked(w, op)).(writer := Some(t))
    case Locked(w, op) =>
      if w in s.inFlight then Goto(s, t, Releasing(w, op, s.inFlight[w])) else Goto(s, t, Creating(w, op))
    case Creating(w, op) =>
      Goto(s, t, Releasing(w, op, s.next)).(
        inFlight := s.inFlight[w := s.next], values := s.values[s.next := 0], next := s.next + 1)
    case Releasing(w, op, c) =>
      Goto(s, t, Found(w, op, c)).(writer := None)
    case Found(w, op, c) =>
      if c !in s.values then s
      else
        Goto(s, t, if op == Inc then Running(w) else Idle).(
          values := s.values[c := s.values[c] + if op == Inc then 1 else -1])
  }

  function Step(s: State, e: Event): State {
    match e
    case Begin(t, w) => if PcOf(s, t) == Idle then Goto(s, t, Looking(w, Inc)) else s
    case Act(t) => Access(s, t)
    case Finish(t) => if PcOf(s, t).Running? then Goto(s, t, Looking(PcOf(s, t).w, Dec)) else s
  }

  const START := State(map[], map[], map[], 0, None)

  function Run(es: seq<Event>): State {
    if es == [] then START else Step(Run(es[..|es| - 1]), es[|es| - 1])
  }

  /** The attempts on worker w that have been counted in and not yet counted out. */
  predicate Between(pc: Pc, w: string) {
    match pc
    case Idle => false
    case Running(x) => x == w
    case Looking(x, op) => x == w && op == Dec
    case Missed(x, op) => x == w && op == Dec
    case Locked(x, op) => x == w && op == Dec
    case Creating(x, op) => x == w && op == Dec
    case Releasing(x, op, _) => x == w && op == Dec
    case Found(x, op, _) => x == w && op == Dec
  }

  function Attempts(s: State, w: string): set<nat> {
    set t | t in s.threads && Between(s.threads[t], w)
  }

  predicate HoldsLock(pc: Pc) {
    pc.Locked? || pc.Creating? || pc.Releasing?
  }

  /** Whoever thinks it holds the lock does. */
  ghost predicate LockInv(s: State) {
    && (forall t :: t in s.threads && HoldsLock(s.threads[t]) ==> s.writer == Some(t))
    && (s.writer.Some? ==> s.writer.value in s.threads && HoldsLock(s.threads[s.writer.value]))
  }

  /** Different workers have different counters, all of them made. */
  ghost predicate MapInv(s: State) {
    && (forall w :: w in s.inFlight ==> s.inFlight[w] < s.next && s.inFlight[w] in s.values)
    && (forall w, w' :: w in s.inFlight && w' in s.inFlight && s.inFlight[w] == s.inFlight[w'] ==> w == w')
  }

  /** What a thread has found is still there, and what it found missing still is. */
  ghost predicate ThreadInv(s: State, pc: Pc) {
    && (pc.Releasing? || pc.Found? ==> pc.w in s.inFlight && s.inFlight[pc.w] == pc.c)
    && (pc.Creating? ==> pc.w !in s.inFlight)
  }

  ghost predicate ThreadsInv(s: State) {
    forall t :: t in s.threads ==> ThreadInv(s, s.threads[t])
  }

  ghost predicate Consistent(s: State) {
    LockInv(s) && MapInv(s) && ThreadsInv(s)
  }

  /** The value of a worker's counter; getInFlight reports 0 where there is none. */
  function InFlightOf(s: State, w: string): int {
    if w in s.inFlight && s.inFlight[w] in s.values then s.values[s.inFlight[w]] else 0
  }

  ghost predicate Counted(s: State) {
    forall w :: InFlightOf(s, w) == |Attempts(s, w)|
  }

  lemma StepKeepsLock(s: State, e: Event)
    requires LockInv(s)
    ensures LockInv(Step(s, e))
  {
  }

  lemma CreateKeepsMap(s: State, t: nat)
    requires MapInv(s) && PcOf(s, t).Creating?
    ensures MapInv(Access(s, t))
  {
  }

  lemma StepKeepsMap(s: State, e: Event, s': State)
    requires MapInv(s) && s' == Step(s, e)
    ensures MapInv(s')
  {
    if e.Act? && PcOf(s, e.t).Creating? {
      CreateKeepsMap(s, e.t);
    } else {
      assert s'.inFlight == s.inFlight && s'.next == s.next && s.values.Keys <= s'.values.Keys;
    }
  }

  lemma StepKeepsThread(s: State, e: Event, t: nat)
    requires LockInv(s) && MapInv(s) && ThreadsInv(s) && t in Step(s, e).threads
    ensures ThreadInv(Step(s, e), Step(s, e).threads[t])
  {
    assert t in s.threads ==> ThreadInv(s, s.threads[t]);
    assert e.t in s.threads ==> ThreadInv(s, s.threads[e.t]);
  }

  lemma StepKeepsConsistent(s: State, e: Event)
    requires Consistent(s)
    ensures Consistent(Step(s, e))
  {
    assert LockInv(Step(s, e)) by { StepKeepsLock(s, e); }
    assert MapInv(Step(s, e)) by { StepKeepsMap(s, e, Step(s, e)); }
    forall t | t in Step(s, e).threads ensures ThreadInv(Step(s, e), Step(s, e).threads[t]) {
      StepKeepsThread(s, e, t);
    }
  }

  /** A thread that moves without crossing inc or dec changes no set of attempts. */
  lemma SameAttempts(s: State, t: nat, pc: Pc, w: string)
    requires Between(PcOf(s, t), w) == Between(pc, w)
    ensures Attempts(Goto(s, t, pc), w) == Attempts(s, w)
  {
  }

  lemma EnterAttempts(s: State, t: nat, pc: Pc, w: string)
    requires !Between(PcOf(s, t), w) && Between(pc, w)
    ensures |Attempts(Goto(s, t, pc), w)| == |Attempts(s, w)| + 1
  {
    assert Attempts(Goto(s, t, pc), w) == Attempts(s, w) + {t};
  }

  lemma LeaveAttempts(s: State, t: nat, pc: Pc, w: string)
    requires Between(PcOf(s, t), w) && !Between(pc, w)
    ensures |Attempts(Goto(s, t, pc), w)| == |Attempts(s, w)| - 1
  {
    assert t in Attempts(s, w);
    assert Attempts(Goto(s, t, pc), w) == Attempts(s, w) - {t};
  }

  lemma AddCounts(s: State, t: nat, w: string)
    requires Consistent(s) && Counted(s) && PcOf(s, t).Found?
    ensures InFlightOf(Access(s, t), w) == |Attempts(Access(s, t), w)|
  {
    var pc := PcOf(s, t);
    assert ThreadInv(s, s.threads[t]);
    var pc' := if pc.op == Inc then Running(pc.w) else Idle;
    assert InFlightOf(s, w) == |Attempts(s, w)|;
    assert Attempts(Access(s, t), w) == Attempts(Goto(s, t, pc'), w);
    if w == pc.w {
      if pc.op == Inc { EnterAttempts(s, t, pc', w); } else { LeaveAttempts(s, t, pc', w); }
    } else {
      SameAttempts(s, t, pc', w);
      assert w in s.inFlight ==> s.inFlight[w] != pc.c;
    }
  }

  lemma CreateCounts(s: State, t: nat, w: string)
    requires Consistent(s) && Counted(s) && PcOf(s, t).Creating?
    ensures InFlightOf(Access(s, t), w) == |Attempts(Access(s, t), w)|
  {
    var pc := PcOf(s, t);
    assert ThreadInv(s, s.threads[t]);
    assert InFlightOf(s, w) == |Attempts(s, w)|;
    SameAttempts(s, t, Releasing(pc.w, pc.op, s.next), w);
    assert Attempts(Access(s, t), w) == Attempts(Goto(s, t, Releasing(pc.w, pc.op, s.next)), w);
  }

  lemma StepCounts(s: State, e: Event, w: string)
    requires Consistent(s) && Counted(s)
    ensures InFlightOf(Step(s, e), w) == |Attempts(Step(s, e), w)|
  {
    assert InFlightOf(s, w) == |Attempts(s, w)|;
    if e.Act? && PcOf(s, e.t).Found? {
      AddCounts(s, e.t, w);
    } else if e.Act? && PcOf(s, e.t).Creating? {
      CreateCounts(s, e.t, w);
    } else {
      var pc' := PcOf(Step(s, e), e.t);
      SameAttempts(s, e.t, pc', w);
      assert Attempts(Step(s, e), w) == Attempts(s, w);
    }
  }

  lemma {:induction false} RunKeepsConsistent(es: seq<Event>)
    ensures Consistent(Run(es))
  {
    if es != [] {
      RunKeepsConsistent(es[..|es| - 1]);
      StepKeepsConsistent(Run(es[..|es| - 1]), es[|es| - 1]);
    }
  }

  /** Main theorem, for any number of goroutines in any order: what the router reads for a worker is
      the number of its attempts between inc and dec. */
  lemma {:induction false} CountersAreExact(es: seq<Event>)
    ensures Counted(Run(es))
  {
    if es == [] {
      forall w ensures InFlightOf(START, w) == |Attempts(START, w)| {
        assert Attempts(START, w) == {};
      }
    } else {
      CountersAreExact(es[..|es| - 1]);
      RunKeepsConsistent(es[..|es| - 1]);
      forall w ensures InFlightOf(Run(es), w) == |Attempts(Run(es), w)| {
        StepCounts(Run(es[..|es| - 1]), es[|es| - 1], w);
      }
    }
  }

  /** So it is never negative, and 0 again when every request is finished. */
  lemma CountersReturnToZero(es: seq<Event>, w: string)
    ensures InFlightOf(Run(es), w) >= 0
    ensures (forall t :: t in Run(es).threads ==> Run(es).threads[t] == Idle) ==> InFlightOf(Run(es), w) == 0
  {
    CountersAreExact(es);
    if forall t :: t in Run(es).threads ==> Run(es).threads[t] == Idle {
      assert Attempts(Run(es), w) == {};
    }
  }

  lemma CounterStays(s: State, e: Event, s': State, w: string)
    requires Consistent(s) && s' == Step(s, e) && w in s.inFlight
    ensures w in s'.inFlight && s'.inFlight[w] == s.inFlight[w]
  {
    if e.t in s.threads {
      assert ThreadInv(s, s.threads[e.t]);
    }
  }

  /** A worker's counter object is never replaced, so no goroutine ever counts on a stale one. */
  lemma {:induction false} CountersAreNeverReplaced(es: seq<Event>, i: nat, w: string)
    requires i <= |es| && w in Run(es[..i]).inFlight
    ensures w in Run(es).inFlight && Run(es).inFlight[w] == Run(es[..i]).inFlight[w]
    decreases |es|
  {
    if i == |es| {
      assert es[..i] == es;
    } else {
      var n := |es| - 1;
      assert es[..n][..i] == es[..i];
      CountersAreNeverReplaced(es[..n], i, w);
      RunKeepsConsistent(es[..n]);
      CounterStays(Run(es[..n]), es[n], Run(es), w);
    }
  }

  lemma WhatIsFoundIsCurrent(es: seq<Event>, t: nat)
    requires t in Run(es).threads && Run(es).threads[t].Found?
    ensures var pc := Run(es).threads[t]; pc.w in Run(es).inFlight && Run(es).inFlight[pc.w] == pc.c
  {
    RunKeepsConsistent(es);
    assert ThreadInv(Run(es), Run(es).threads[t]);
  }

  // ---------------------------------------------------------------- one request, undisturbed

  /** Thread t finds the counter and adds to it. */
  lemma FindAndAdd(s: State, t: nat, w: string, op: Op)
    requires MapInv(s) && s.writer == None && w in s.inFlight && PcOf(s, t) == Looking(w, op)
    ensures var s' := Step(Step(s, Act(t)), Act(t));
            && s' == s.(threads := s.threads[t := if op == Inc then Running(w) else Idle],
                        values := s.values[s.inFlight[w] := s.values[s.inFlight[w]] + if op == Inc then 1 else -1])
  {
    var found, last := Step(s, Act(t)), if op == Inc then Running(w) else Idle;
    assert found == Goto(s, t, Found(w, op, s.inFlight[w]));
    assert found.threads[t := last] == s.threads[t := last];
  }

  lemma OneCounterMoves(s: State, w: string, d: int, threads: map<nat, Pc>, x: string)
    requires MapInv(s) && w in s.inFlight
    ensures var s' := s.(threads := threads, values := s.values[s.inFlight[w] := s.values[s.inFlight[w]] + d]);
            InFlightOf(s', x) == InFlightOf(s, x) + if x == w then d else 0
  {
  }

  /** From beginning to end: a request on a worker that has a counter counts that worker, and no other,
      up by one while it runs, and down by one when it is finished. */
  lemma RequestIsCountedInAndOut(s: State, t: nat, w: string, x: string)
    requires MapInv(s) && s.writer == None && w in s.inFlight && PcOf(s, t) == Idle
    ensures var during := Step(Step(Step(s, Begin(t, w)), Act(t)), Act(t));
            var after := Step(Step(Step(during, Finish(t)), Act(t)), Act(t));
            && PcOf(during, t) == Running(w) && PcOf(after, t) == Idle
            && InFlightOf(during, x) == InFlightOf(s, x) + (if x == w then 1 else 0)
            && InFlightOf(after, x) == InFlightOf(s, x)
  {
    var begun := Step(s, Begin(t, w));
    FindAndAdd(begun, t, w, Inc);
    OneCounterMoves(begun, w, 1, s.threads[t := Running(w)], x);
    var during := Step(Step(begun, Act(t)), Act(t));
    assert during.threads == s.threads[t := Running(w)];
    var done := Step(during, Finish(t));
    FindAndAdd(done, t, w, Dec);
    OneCounterMoves(done, w, -1, done.threads[t := Idle], x);
  }
}
