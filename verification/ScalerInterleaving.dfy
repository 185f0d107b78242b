/** The fleet scaler against a moving registry (control-plane/scaler/scaler.go:82-133): a sweep works
    through a snapshot taken earlier, Evict removes by name without looking again, and sweeps,
    heartbeats and registrations interleave freely. */
module ScalerInterleaving {
  import opened Membership
  import opened Options
  import Runs = MembershipRuns

  /** A sweep under way: the snapshot entries not yet looked at, the number of events before the
      snapshot, and the eviction whose callback it has still to make. */
  datatype Sweep = Sweep(todo: seq<Entry>, since: nat, owes: Option<nat>)

  /** A successful Evict: which sweep, on the strength of which snapshot entry and since when, at
      which event and instant, and which incarnation it really removed. */
  datatype Eviction = Eviction(sweep: nat, basis: Entry, since: nat, event: nat, at: int, removed: nat)

  datatype State = State(
    sys: Runs.System,
    sweeps: map<nat, Sweep>,
    evictions: seq<Eviction>,
    notified: seq<nat>,           // OnWorkerEvicted calls, by number of the eviction
    clock: nat)                   // events so far

  datatype Config = Config(deadTimeout: nat, deadGrace: int)

  datatype Event =
    | Operate(e: Runs.Event)                       // an operation of the registry's own
    | Snapshot(after: nat, k: nat, order: seq<string>)   // sweep k lists the workers in some order
    | Examine(after: nat, k: nat)                        // sweep k looks at its next entry
    | Notify(after: nat, k: nat)                         // sweep k makes the callback it owes
    | Finish(after: nat, k: nat)                         // sweep k is through

  ghost predicate IsListing(r: Fleet, order: seq<string>) {
    && (forall i :: 0 <= i < |order| ==> order[i] in r.workers)
    && (forall i, j :: 0 <= i < j < |order| ==> order[i] != order[j])
    && (forall id :: id in r.workers ==> id in order)
  }

  function Listing(r: Fleet, order: seq<string>): (entries: seq<Entry>)
    requires forall i :: 0 <= i < |order| ==> order[i] in r.workers
    ensures |entries| == |order| && forall i :: 0 <= i < |order| ==> entries[i] == r.workers[order[i]]
  {
    seq(|order|, i requires 0 <= i < |order| => r.workers[order[i]])
  }

  ghost function Act(c: Config, s: State, e: Event): State {
    match e
    case Operate(r) => s.(sys := Runs.Step(s.sys, c.deadTimeout, r))
    case Snapshot(after, k, order) =>
      var now := s.sys.(now := s.sys.now + after);
      if k in s.sweeps || !IsListing(s.sys.reg, order) then s
      else s.(sys := now, sweeps := s.sweeps[k := Sweep(Listing(s.sys.reg, order), s.clock, None)])
    case Examine(after, k) =>
      if k !in s.sweeps || s.sweeps[k].todo == [] || s.sweeps[k].owes.Some? then s
      else
        var sweep, w, now := s.sweeps[k], s.sweeps[k].todo[0], s.sys.now + after;
        var id, rest := w.info.workerId, sweep.(todo := sweep.todo[1..]);
        if LongDead(c.deadGrace, w, now) && id in s.sys.reg.workers then
          var ev := Eviction(k, w, sweep.since, s.clock, now, s.sys.reg.workers[id].timer);
          s.(sys := Runs.System(RemoveStep(s.sys.reg, id).0, now),
             sweeps := s.sweeps[k := rest.(owes := Some(|s.evictions|))],
             evictions := s.evictions + [ev])
        else s.(sys := s.sys.(now := now), sweeps := s.sweeps[k := rest])
    case Notify(after, k) =>
      if k !in s.sweeps || s.sweeps[k].owes == None then s
      else
        s.(sweeps := s.sweeps[k := s.sweeps[k].(owes := None)], notified := s.notified + [s.sweeps[k].owes.value])
    case Finish(after, k) =>
      if k !in s.sweeps || s.sweeps[k].todo != [] || s.sweeps[k].owes.Some? then s
      else s.(sweeps := s.sweeps - {k})
  }

  ghost function Step(c: Config, s: State, e: Event): State {
    Act(c, s, e).(clock := s.clock + 1)
  }

  const START := State(Runs.System(EMPTY, 0), map[], [], [], 0)

  ghost function Run(c: Config, es: seq<Event>): State {
    if es == [] then START else Step(c, Run(c, es[..|es| - 1]), es[|es| - 1])
  }

  /** The registry's workers after the first k events. */
  ghost function WorkersAt(c: Config, es: seq<Event>, k: nat): map<string, Entry>
    requires k <= |es|
  {
    Run(c, es[..k]).sys.reg.workers
  }

  // ---------------------------------------------------------------- the registry within

  /** To the registry, an event is one of its own operations, or nothing. */
  lemma ActIsAnOperation(c: Config, s: State, e: Event) returns (op: Runs.Op, now: int)
    ensures var s' := Act(c, s, e);
            s.sys.now <= now && now + Runs.Took(op) == s'.sys.now
            && (s'.sys.reg == s.sys.reg || s'.sys.reg == Runs.Apply(s.sys.reg, c.deadTimeout, op, now))
  {
    now := Act(c, s, e).sys.now;
    match e
    case Operate(r) => op, now := r.op, s.sys.now + r.after;
    case Examine(_, k) =>
      op := Runs.Evict(if k in s.sweeps && s.sweeps[k].todo != [] then s.sweeps[k].todo[0].info.workerId else "");
    case Snapshot(_, _, _) => op := Runs.Evict("");
    case Notify(_, _) => op := Runs.Evict("");
    case Finish(_, _) => op := Runs.Evict("");
  }

  lemma ActKeepsRegistry(c: Config, s: State, e: Event)
    requires Runs.Timers(s.sys.reg) && Runs.Entries(s.sys.reg, s.sys.now)
    ensures Runs.Timers(Act(c, s, e).sys.reg)
    ensures Runs.Entries(Act(c, s, e).sys.reg, Act(c, s, e).sys.now)
  {
    var op, now := ActIsAnOperation(c, s, e);
    Runs.ApplyKeepsTimers(s.sys.reg, c.deadTimeout, op, now);
    Runs.ApplyKeepsEntries(s.sys.reg, c.deadTimeout, op, s.sys.now, now);
  }

  lemma {:induction false} RunKeepsRegistry(c: Config, es: seq<Event>)
    ensures Runs.Timers(Run(c, es).sys.reg) && Runs.Entries(Run(c, es).sys.reg, Run(c, es).sys.now)
    ensures Run(c, es).clock == |es|
  {
    if es != [] {
      RunKeepsRegistry(c, es[..|es| - 1]);
      ActKeepsRegistry(c, Run(c, es[..|es| - 1]), es[|es| - 1]);
    }
  }

  lemma {:induction false} RunKeepsClock(c: Config, es: seq<Event>)
    ensures Run(c, es).clock == |es|
  {
    if es != [] { RunKeepsClock(c, es[..|es| - 1]); }
  }

  lemma RunSnoc(c: Config, es: seq<Event>, e: Event)
    ensures Run(c, es + [e]) == Step(c, Run(c, es), e)
  {
    assert (es + [e])[..|es|] == es;
  }

  // ---------------------------------------------------------------- what sweeps and evictions rest on

  /** An entry of a snapshot is what the registry held when it was taken. */
  ghost predicate FromSnapshot(c: Config, es: seq<Event>, since: nat, w: Entry) {
    && since < |es| && es[since].Snapshot?
    && w.info.workerId in WorkersAt(c, es, since)
    && WorkersAt(c, es, since)[w.info.workerId] == w
  }

  ghost predicate SweepsAreHonest(c: Config, es: seq<Event>) {
    var s := Run(c, es);
    forall k, i :: k in s.sweeps && 0 <= i < |s.sweeps[k].todo| ==>
      FromSnapshot(c, es, s.sweeps[k].since, s.sweeps[k].todo[i])
  }

  ghost predicate EvictionIsHonest(c: Config, es: seq<Event>, ev: Eviction) {
    && ev.since < ev.event < |es| && es[ev.event].Examine?
    && FromSnapshot(c, es, ev.since, ev.basis)
    && LongDead(c.deadGrace, ev.basis, ev.at)
    && ev.basis.info.workerId in WorkersAt(c, es, ev.event)
    && WorkersAt(c, es, ev.event)[ev.basis.info.workerId].timer == ev.removed
    && ev.basis.info.workerId !in WorkersAt(c, es, ev.event + 1)
  }

  ghost predicate EvictionsAreHonest(c: Config, es: seq<Event>) {
    forall j :: 0 <= j < |Run(c, es).evictions| ==> EvictionIsHonest(c, es, Run(c, es).evictions[j])
  }

  lemma FromSnapshotExtends(c: Config, es: seq<Event>, e: Event, since: nat, w: Entry)
    requires FromSnapshot(c, es, since, w)
    ensures FromSnapshot(c, es + [e], since, w)
  {
    assert (es + [e])[..since] == es[..since];
  }

  lemma EvictionExtends(c: Config, es: seq<Event>, e: Event, ev: Eviction)
    requires EvictionIsHonest(c, es, ev)
    ensures EvictionIsHonest(c, es + [e], ev)
  {
    FromSnapshotExtends(c, es, e, ev.since, ev.basis);
    assert (es + [e])[..ev.event] == es[..ev.event];
    assert (es + [e])[..ev.event + 1] == es[..ev.event + 1];
  }

  lemma SnapshotIsHonest(c: Config, es: seq<Event>, e: Event, i: nat)
    requires e.Snapshot? && e.k !in Run(c, es).sweeps && IsListing(Run(c, es).sys.reg, e.order) && i < |e.order|
    ensures FromSnapshot(c, es + [e], |es|, Listing(Run(c, es).sys.reg, e.order)[i])
  {
    RunKeepsRegistry(c, es);
    assert (es + [e])[..|es|] == es;
    var id := e.order[i];
    assert Runs.EntryInv(id, Run(c, es).sys.reg.workers[id], Run(c, es).sys.now);
  }

  lemma TodoOnlyShrinks(c: Config, s: State, e: Event, k: nat, i: nat) returns (j: nat)
    requires k in s.sweeps && k in Step(c, s, e).sweeps && i < |Step(c, s, e).sweeps[k].todo|
    ensures Step(c, s, e).sweeps[k].since == s.sweeps[k].since
    ensures j < |s.sweeps[k].todo| && Step(c, s, e).sweeps[k].todo[i] == s.sweeps[k].todo[j]
  {
    j := i + |s.sweeps[k].todo| - |Step(c, s, e).sweeps[k].todo|;
  }

  lemma {:induction false} SweepsStayHonest(c: Config, es: seq<Event>)
    ensures SweepsAreHonest(c, es)
  {
    if es != [] {
      var earlier, e := es[..|es| - 1], es[|es| - 1];
      SweepsStayHonest(c, earlier);
      assert es == earlier + [e];
      var s, s' := Run(c, earlier), Run(c, es);
      assert s' == Step(c, s, e);
      forall k, i | k in s'.sweeps && 0 <= i < |s'.sweeps[k].todo|
        ensures FromSnapshot(c, es, s'.sweeps[k].since, s'.sweeps[k].todo[i])
      {
        if k in s.sweeps {
          var j := TodoOnlyShrinks(c, s, e, k, i);
          FromSnapshotExtends(c, earlier, e, s.sweeps[k].since, s.sweeps[k].todo[j]);
        } else {
          RunKeepsRegistry(c, earlier);
          SnapshotIsHonest(c, earlier, e, i);
        }
      }
    }
  }

  /** A step that evicts is an Examine, of a snapshot entry that has been DEAD for long enough. */
  lemma NewEviction(c: Config, s: State, e: Event, s': State)
    requires s' == Step(c, s, e) && |s'.evictions| > |s.evictions|
    ensures e.Examine? && e.k in s.sweeps && s.sweeps[e.k].todo != []
    ensures var w := s.sweeps[e.k].todo[0];
            && LongDead(c.deadGrace, w, s'.sys.now)
            && w.info.workerId in s.sys.reg.workers && w.info.workerId !in s'.sys.reg.workers
            && s'.evictions == s.evictions + [Eviction(e.k, w, s.sweeps[e.k].since, s.clock, s'.sys.now,
                                                      s.sys.reg.workers[w.info.workerId].timer)]
  {
  }

  lemma WorkersBeforeAndAfter(c: Config, es: seq<Event>, e: Event)
    ensures WorkersAt(c, es + [e], |es|) == Run(c, es).sys.reg.workers
    ensures WorkersAt(c, es + [e], |es| + 1) == Run(c, es + [e]).sys.reg.workers
  {
    assert (es + [e])[..|es|] == es && (es + [e])[..|es| + 1] == es + [e];
  }

  lemma BasisIsFromSnapshot(c: Config, es: seq<Event>, e: Event, k: nat)
    requires k in Run(c, es).sweeps && Run(c, es).sweeps[k].todo != []
    ensures FromSnapshot(c, es + [e], Run(c, es).sweeps[k].since, Run(c, es).sweeps[k].todo[0])
  {
    SweepsStayHonest(c, es);
    FromSnapshotExtends(c, es, e, Run(c, es).sweeps[k].since, Run(c, es).sweeps[k].todo[0]);
  }

  lemma SinceIsBefore(c: Config, es: seq<Event>, k: nat)
    requires k in Run(c, es).sweeps && Run(c, es).sweeps[k].todo != []
    ensures Run(c, es).sweeps[k].since < |es|
  {
    SweepsStayHonest(c, es);
    assert FromSnapshot(c, es, Run(c, es).sweeps[k].since, Run(c, es).sweeps[k].todo[0]);
  }

  lemma NewEvictionIsHonest(c: Config, es: seq<Event>, e: Event)
    requires |Run(c, es + [e]).evictions| > |Run(c, es).evictions|
    ensures var j := |Run(c, es).evictions|;
            && |Run(c, es + [e]).evictions| == j + 1
            && Run(c, es + [e]).evictions[..j] == Run(c, es).evictions
            && EvictionIsHonest(c, es + [e], Run(c, es + [e]).evictions[j])
  {
    RunSnoc(c, es, e);
    NewEviction(c, Run(c, es), e, Run(c, es + [e]));
    RunKeepsClock(c, es);
    WorkersBeforeAndAfter(c, es, e);
    BasisIsFromSnapshot(c, es, e, e.k);
    SinceIsBefore(c, es, e.k);
  }

  lemma {:induction false} EvictionsStayHonest(c: Config, es: seq<Event>)
    ensures EvictionsAreHonest(c, es)
  {
    if es != [] {
      var earlier, e := es[..|es| - 1], es[|es| - 1];
      EvictionsStayHonest(c, earlier);
      assert es == earlier + [e];
      var n := |Run(c, earlier).evictions|;
      if |Run(c, es).evictions| > n {
        NewEvictionIsHonest(c, earlier, e);
      }
      forall j | 0 <= j < |Run(c, es).evictions| ensures EvictionIsHonest(c, es, Run(c, es).evictions[j]) {
        if j < n {
          assert Run(c, es).evictions[j] == Run(c, earlier).evictions[j];
          EvictionExtends(c, earlier, e, Run(c, earlier).evictions[j]);
        }
      }
    }
  }

  /** Safety of every eviction of every run: the sweep had seen the worker DEAD in its snapshot, and
      by the time it evicts it has been DEAD for at least deadGrace. */
  lemma EvictedWorkersWereLongDead(c: Config, es: seq<Event>, j: nat)
    requires j < |Run(c, es).evictions|
    ensures var ev := Run(c, es).evictions[j];
            && ev.since < ev.event < |es|
            && ev.basis.info.workerId in WorkersAt(c, es, ev.since)
            && WorkersAt(c, es, ev.since)[ev.basis.info.workerId] == ev.basis
            && ev.basis.state == DEAD && ev.basis.markedDeadAt.Some?
            && ev.at - ev.basis.markedDeadAt.value >= c.deadGrace
  {
    EvictionsStayHonest(c, es);
    assert EvictionIsHonest(c, es, Run(c, es).evictions[j]);
  }

  // ---------------------------------------------------------------- which incarnation is removed

  /** A Register of this worker is accepted at event i. */
  predicate Registers(es: seq<Event>, i: nat, id: string)
    requires i < |es|
  {
    && es[i].Operate? && es[i].e.op.Register?
    && es[i].e.op.info.workerId == id && id != "" && es[i].e.op.info.address != ""
  }

  lemma StepAndTimer(c: Config, s: State, e: Event, id: string)
    requires Runs.Timers(s.sys.reg) && id in Step(c, s, e).sys.reg.workers
    ensures if Registers([e], 0, id) then Step(c, s, e).sys.reg.workers[id].timer == s.sys.reg.next
            else id in s.sys.reg.workers && Step(c, s, e).sys.reg.workers[id].timer == s.sys.reg.workers[id].timer
  {
  }

  /** Timer numbers are handed out in order, and their owners stay. */
  ghost predicate Grows(r: Fleet, r': Fleet) {
    r.next <= r'.next && forall t :: t in r.owner ==> t in r'.owner && r'.owner[t] == r.owner[t]
  }

  lemma StepGrows(c: Config, s: State, e: Event)
    requires Runs.Timers(s.sys.reg)
    ensures Grows(s.sys.reg, Step(c, s, e).sys.reg)
  {
    var op, now := ActIsAnOperation(c, s, e);
  }

  lemma {:induction false} RunGrows(c: Config, es: seq<Event>, i: nat, j: nat)
    requires i <= j <= |es|
    ensures Grows(Run(c, es[..i]).sys.reg, Run(c, es[..j]).sys.reg)
    decreases j
  {
    if i < j {
      var s := Run(c, es[..j - 1]);
      assert es[..j][..j - 1] == es[..j - 1];
      assert Grows(Run(c, es[..i]).sys.reg, s.sys.reg) by { RunGrows(c, es, i, j - 1); }
      assert Grows(s.sys.reg, Step(c, s, es[j - 1]).sys.reg) by {
        RunKeepsRegistry(c, es[..j - 1]);
        StepGrows(c, s, es[j - 1]);
      }
    }
  }

  /** Between two events, an entry keeps its incarnation unless it is registered again. */
  lemma {:induction false} SameIncarnationOrRegistered(c: Config, es: seq<Event>, i: nat, j: nat, id: string)
    requires i <= j <= |es| && id in WorkersAt(c, es, i) && id in WorkersAt(c, es, j)
    ensures WorkersAt(c, es, j)[id].timer == WorkersAt(c, es, i)[id].timer
            || exists m :: i <= m < j && Registers(es, m, id)
    decreases j
  {
    if i < j {
      assert es[..j][..j - 1] == es[..j - 1];
      RunKeepsRegistry(c, es[..j - 1]);
      StepAndTimer(c, Run(c, es[..j - 1]), es[j - 1], id);
      if Registers([es[j - 1]], 0, id) {
        assert Registers(es, j - 1, id);
      } else {
        SameIncarnationOrRegistered(c, es, i, j - 1, id);
      }
    }
  }

  /** After a registration the entry's timer is newer than anything before it. */
  lemma {:induction false} RegisteredIsNewer(c: Config, es: seq<Event>, m: nat, j: nat, id: string)
    requires m < j <= |es| && Registers(es, m, id) && id in WorkersAt(c, es, j)
    ensures WorkersAt(c, es, j)[id].timer >= Run(c, es[..m]).sys.reg.next
    decreases j
  {
    assert es[..j][..j - 1] == es[..j - 1];
    RunKeepsRegistry(c, es[..j - 1]);
    StepAndTimer(c, Run(c, es[..j - 1]), es[j - 1], id);
    RunGrows(c, es, m, j - 1);
    if !Registers([es[j - 1]], 0, id) {
      assert m < j - 1;
      RegisteredIsNewer(c, es, m, j - 1, id);
    }
  }

  /** Exactly when the right incarnation goes: an eviction removes the incarnation it saw DEAD in
      its snapshot if and only if the worker did not register between snapshot and Evict. */
  lemma EvictsTheDeadIncarnationUnlessReregistered(c: Config, es: seq<Event>, j: nat)
    requires j < |Run(c, es).evictions|
    ensures var ev := Run(c, es).evictions[j];
            ev.since < ev.event < |es| &&
            (ev.removed == ev.basis.timer <==>
             !exists m :: ev.since <= m < ev.event && Registers(es, m, ev.basis.info.workerId))
  {
    EvictionsStayHonest(c, es);
    var ev := Run(c, es).evictions[j];
    assert EvictionIsHonest(c, es, ev);
    var id := ev.basis.info.workerId;
    SameIncarnationOrRegistered(c, es, ev.since, ev.event, id);
    if m :| ev.since <= m < ev.event && Registers(es, m, id) {
      RegisteredIsNewer(c, es, m, ev.event, id);
      RunGrows(c, es, ev.since, m);
      RunKeepsRegistry(c, es[..ev.since]);
    }
  }

  lemma {:induction false} EvictionsAreOrdered(c: Config, es: seq<Event>)
    ensures forall i, j :: 0 <= i < j < |Run(c, es).evictions| ==>
              Run(c, es).evictions[i].event < Run(c, es).evictions[j].event
    ensures forall i :: 0 <= i < |Run(c, es).evictions| ==> Run(c, es).evictions[i].event < |es|
  {
    if es != [] {
      EvictionsAreOrdered(c, es[..|es| - 1]);
      RunKeepsRegistry(c, es[..|es| - 1]);
    }
  }

  lemma TimerTellsWorker(c: Config, es: seq<Event>, i: nat, j: nat, id: string, id': string, t: nat)
    requires i <= j <= |es| && id in WorkersAt(c, es, i) && id' in WorkersAt(c, es, j)
    requires WorkersAt(c, es, i)[id].timer == t == WorkersAt(c, es, j)[id'].timer
    ensures id == id'
  {
    RunKeepsRegistry(c, es[..i]);
    RunKeepsRegistry(c, es[..j]);
    RunGrows(c, es, i, j);
  }

  /** Where an entry's timer comes from. */
  lemma TimerAt(c: Config, es: seq<Event>, j: nat, id: string)
    requires 0 < j <= |es| && id in WorkersAt(c, es, j)
    ensures || WorkersAt(c, es, j)[id].timer == Run(c, es[..j - 1]).sys.reg.next
            || (id in WorkersAt(c, es, j - 1) && WorkersAt(c, es, j)[id].timer == WorkersAt(c, es, j - 1)[id].timer)
  {
    assert es[..j][..j - 1] == es[..j - 1];
    RunKeepsRegistry(c, es[..j - 1]);
    StepAndTimer(c, Run(c, es[..j - 1]), es[j - 1], id);
  }

  /** An incarnation that is not there, and is not new, never comes back. */
  lemma {:induction false} GoneForGood(c: Config, es: seq<Event>, i: nat, j: nat, id: string, t: nat)
    requires 0 < i <= j <= |es| && t < Run(c, es[..i]).sys.reg.next
    requires id !in WorkersAt(c, es, i)
    ensures id in WorkersAt(c, es, j) ==> WorkersAt(c, es, j)[id].timer != t
    decreases j
  {
    if i < j && id in WorkersAt(c, es, j) {
      GoneForGood(c, es, i, j - 1, id, t);
      assert t < Run(c, es[..j - 1]).sys.reg.next by { RunGrows(c, es, i, j - 1); }
      TimerAt(c, es, j, id);
    }
  }

  function At(after: nat, op: Runs.Op): Runs.Event {
    Runs.Event(after, op)
  }

  const QUICK := Config(10, 5)

  /** The state of a lone worker, with nothing evicted yet. */
  function Lone(e: Entry, armed: map<nat, int>, callbacks: seq<Callback>, now: int, clock: nat): State {
    State(Runs.System(Fleet(map[e.info.workerId := e], map[0 := e.info.workerId], armed, callbacks, 1), now),
          map[], [], [], clock)
  }

  function Corpse(info: WorkerInfo): Entry {
    Fresh(info, 0, 0).(state := DEAD, markedDeadAt := Some(10))
  }

  lemma ItRegisters(c: Config, info: WorkerInfo) returns (es: seq<Event>)
    requires c.deadTimeout == 10 && info.workerId != "" && info.address != ""
    ensures |es| == 1 && Run(c, es) == Lone(Fresh(info, 0, 0), map[0 := 10], [], 0, 1)
  {
    var e := Operate(At(0, Runs.Register(info)));
    es := [] + [e];
    RunSnoc(c, [], e);
    assert Run(c, []) == START;
    assert RegisterStep(EMPTY, 10, info, 0).0
        == Fleet(map[info.workerId := Fresh(info, 0, 0)], map[0 := info.workerId], map[0 := 10], [], 1);
  }

  lemma ItsTimerFires(c: Config, info: WorkerInfo, es: seq<Event>) returns (es': seq<Event>)
    requires |es| == 1 && Run(c, es) == Lone(Fresh(info, 0, 0), map[0 := 10], [], 0, 1)
    ensures |es'| == 2 && Run(c, es') == Lone(Fresh(info, 0, 0), map[], [Callback(info.workerId, 10)], 10, 2)
  {
    var e := Operate(At(10, Runs.Fire(0)));
    es' := es + [e];
    RunSnoc(c, es, e);
    assert map[0 := 10] - {0} == map[];
  }

  lemma ItIsMarkedDead(c: Config, info: WorkerInfo, es: seq<Event>) returns (es': seq<Event>)
    requires c.deadTimeout == 10
    requires |es| == 2 && Run(c, es) == Lone(Fresh(info, 0, 0), map[], [Callback(info.workerId, 10)], 10, 2)
    ensures |es'| == 3 && Run(c, es') == Lone(Corpse(info), map[], [], 10, 3)
  {
    var e := Operate(At(0, Runs.RunCallback(0)));
    es' := es + [e];
    RunSnoc(c, es, e);
    var r := Run(c, es).sys.reg;
    assert r.callbacks[..0] + r.callbacks[1..] == [];
    assert r.workers[info.workerId := Corpse(info)] == map[info.workerId := Corpse(info)];
    assert RunCallbackStep(r, 10, 0, 10) == Lone(Corpse(info), map[], [], 10, 3).sys.reg;
  }

  /** Snapshot at 15. */
  lemma ItsCorpseIsListed(c: Config, info: WorkerInfo, es: seq<Event>) returns (es': seq<Event>)
    requires |es| == 3 && Run(c, es) == Lone(Corpse(info), map[], [], 10, 3)
    ensures |es'| == 4
    ensures Run(c, es') == Lone(Corpse(info), map[], [], 15, 4).(sweeps := map[0 := Sweep([Corpse(info)], 3, None)])
  {
    var e := Snapshot(5, 0, [info.workerId]);
    es' := es + [e];
    RunSnoc(c, es, e);
    assert Listing(Run(c, es).sys.reg, [info.workerId]) == [Corpse(info)];
  }

  /** Then the worker registers and becomes READY again. */
  lemma ItReturns(c: Config, info: WorkerInfo, es: seq<Event>) returns (es': seq<Event>)
    requires info.workerId != "" && info.address != ""
    requires |es| == 4
    requires Run(c, es) == Lone(Corpse(info), map[], [], 15, 4).(sweeps := map[0 := Sweep([Corpse(info)], 3, None)])
    ensures |es'| == 6 && Run(c, es').evictions == [] && Run(c, es').clock == 6
    ensures Run(c, es').sweeps == map[0 := Sweep([Corpse(info)], 3, None)] && Run(c, es').sys.now == 16
    ensures info.workerId in Run(c, es').sys.reg.workers
    ensures Run(c, es').sys.reg.workers[info.workerId] == Fresh(info, 1, 15).(state := READY, lastHeartbeat := 16)
  {
    var e4, e5 := Operate(At(0, Runs.Register(info))), Operate(At(1, Runs.Heartbeat(info.workerId, READY, 0)));
    RunSnoc(c, es, e4);
    RunSnoc(c, es + [e4], e5);
    es' := es + [e4] + [e5];
    assert Run(c, es + [e4]).sys.reg.workers[info.workerId] == Fresh(info, 1, 15);
  }

  /** The exception is real: a worker that comes back between snapshot and Evict, and is READY for
      traffic again, is evicted on the strength of its predecessor's death. */
  lemma LiveWorkerCanBeEvicted(info: WorkerInfo) returns (es: seq<Event>)
    requires info.workerId != "" && info.address != ""
    ensures |es| == 7 && |Run(QUICK, es).evictions| == 1
    ensures info.workerId in WorkersAt(QUICK, es, 6) && WorkersAt(QUICK, es, 6)[info.workerId].state == READY
    ensures info.workerId !in WorkersAt(QUICK, es, 7)
    ensures var ev := Run(QUICK, es).evictions[0]; ev.event == 6 && ev.removed != ev.basis.timer
  {
    es := ItRegisters(QUICK, info);
    es := ItsTimerFires(QUICK, info, es);
    es := ItIsMarkedDead(QUICK, info, es);
    es := ItsCorpseIsListed(QUICK, info, es);
    var es6 := ItReturns(QUICK, info, es);
    es := es6 + [Examine(0, 0)];
    RunSnoc(QUICK, es6, Examine(0, 0));
    assert es[..6] == es6 && es[..7] == es;
  }

  lemma EvictedWasNotNew(c: Config, es: seq<Event>, ev: Eviction)
    requires EvictionIsHonest(c, es, ev)
    ensures ev.removed < Run(c, es[..ev.event + 1]).sys.reg.next
  {
    RunKeepsRegistry(c, es[..ev.event]);
    RunGrows(c, es, ev.event, ev.event + 1);
  }

  /** Once evicted, an incarnation is not there at any later event, under any name. */
  lemma EvictedIsGone(c: Config, es: seq<Event>, ev: Eviction, j: nat, id: string)
    requires EvictionIsHonest(c, es, ev) && ev.event < j <= |es| && id in WorkersAt(c, es, j)
    ensures WorkersAt(c, es, j)[id].timer != ev.removed
  {
    if WorkersAt(c, es, j)[id].timer == ev.removed {
      assert id == ev.basis.info.workerId by {
        TimerTellsWorker(c, es, ev.event, j, ev.basis.info.workerId, id, ev.removed);
      }
      EvictedWasNotNew(c, es, ev);
      GoneForGood(c, es, ev.event + 1, j, id, ev.removed);
    }
  }

  /** No incarnation is evicted twice, however many sweeps run at once. */
  lemma IncarnationsAreEvictedOnce(c: Config, es: seq<Event>, i: nat, j: nat)
    requires i < j < |Run(c, es).evictions|
    ensures Run(c, es).evictions[i].removed != Run(c, es).evictions[j].removed
  {
    EvictionsStayHonest(c, es);
    EvictionsAreOrdered(c, es);
    var a, b := Run(c, es).evictions[i], Run(c, es).evictions[j];
    assert EvictionIsHonest(c, es, a) && EvictionIsHonest(c, es, b);
    EvictedIsGone(c, es, a, b.event, b.basis.info.workerId);
  }

  // ---------------------------------------------------------------- callbacks

  ghost predicate Owed(s: State, j: nat) {
    exists k :: k in s.sweeps && s.sweeps[k].owes == Some(j)
  }

  /** Every eviction has been notified once or is owed by one sweep, never both. */
  ghost predicate Accounts(s: State) {
    && (forall i, j :: 0 <= i < j < |s.notified| ==> s.notified[i] != s.notified[j])
    && (forall j :: j in s.notified ==> j < |s.evictions| && !Owed(s, j))
    && (forall k :: k in s.sweeps && s.sweeps[k].owes.Some? ==> s.sweeps[k].owes.value < |s.evictions|)
    && (forall k, k' ::
          k in s.sweeps && k' in s.sweeps && s.sweeps[k].owes.Some? && s.sweeps[k].owes == s.sweeps[k'].owes ==>
          k == k')
    && (forall j :: 0 <= j < |s.evictions| ==> j in s.notified || Owed(s, j))
  }

  /** A step that leaves evictions, notifications and debts alone. */
  lemma QuietStepKeepsAccounts(s: State, s': State)
    requires Accounts(s) && s'.evictions == s.evictions && s'.notified == s.notified
    requires forall k :: k in s'.sweeps && s'.sweeps[k].owes.Some? ==>
               k in s.sweeps && s'.sweeps[k].owes == s.sweeps[k].owes
    requires forall k :: k in s.sweeps && s.sweeps[k].owes.Some? ==>
               k in s'.sweeps && s'.sweeps[k].owes == s.sweeps[k].owes
    ensures Accounts(s')
  {
    forall j: nat | Owed(s, j) ensures Owed(s', j) {
      var k :| k in s.sweeps && s.sweeps[k].owes == Some(j);
      assert k in s'.sweeps && s'.sweeps[k].owes == Some(j);
    }
    forall j: nat | Owed(s', j) ensures Owed(s, j) {
      var k :| k in s'.sweeps && s'.sweeps[k].owes == Some(j);
      assert k in s.sweeps && s.sweeps[k].owes == Some(j);
    }
  }

  lemma EvictionKeepsAccounts(s: State, s': State, k: nat, ev: Eviction, sweep: Sweep)
    requires Accounts(s) && k in s.sweeps && s.sweeps[k].owes == None
    requires s'.evictions == s.evictions + [ev] && s'.notified == s.notified
    requires s'.sweeps == s.sweeps[k := sweep] && sweep.owes == Some(|s.evictions|)
    ensures Accounts(s')
  {
    var n := |s.evictions|;
    assert s'.sweeps[k].owes == Some(n);
    forall j: nat | Owed(s, j) ensures Owed(s', j) {
      var x :| x in s.sweeps && s.sweeps[x].owes == Some(j);
      assert x in s'.sweeps && s'.sweeps[x].owes == Some(j);
    }
    forall j: nat | Owed(s', j) ensures j == n || Owed(s, j) {
      var x :| x in s'.sweeps && s'.sweeps[x].owes == Some(j);
      assert x == k || (x in s.sweeps && s.sweeps[x].owes == Some(j));
    }
    assert n !in s.notified;
    assert forall j :: 0 <= j < n + 1 ==> j in s'.notified || Owed(s', j);
  }

  lemma NotifyKeepsAccounts(s: State, s': State, k: nat)
    requires Accounts(s) && k in s.sweeps && s.sweeps[k].owes.Some?
    requires s'.evictions == s.evictions && s'.notified == s.notified + [s.sweeps[k].owes.value]
    requires s'.sweeps == s.sweeps[k := s.sweeps[k].(owes := None)]
    ensures Accounts(s')
  {
    var n := s.sweeps[k].owes.value;
    assert Owed(s, n);
    forall j: nat | Owed(s, j) && j != n ensures Owed(s', j) {
      var x :| x in s.sweeps && s.sweeps[x].owes == Some(j);
      assert x in s'.sweeps && s'.sweeps[x].owes == Some(j);
    }
    forall j: nat | Owed(s', j) ensures j != n && Owed(s, j) {
      var x :| x in s'.sweeps && s'.sweeps[x].owes == Some(j);
      assert x != k && x in s.sweeps && s.sweeps[x].owes == Some(j);
    }
    assert n in s'.notified;
    assert forall j :: j in s.notified ==> j in s'.notified;
  }

  lemma StepKeepsAccounts(c: Config, s: State, e: Event)
    requires Accounts(s)
    ensures Accounts(Step(c, s, e))
  {
    var s' := Step(c, s, e);
    if |s'.evictions| > |s.evictions| {
      EvictionKeepsAccounts(s, s', e.k, s'.evictions[|s.evictions|], s'.sweeps[e.k]);
    } else if e.Notify? && e.k in s.sweeps && s.sweeps[e.k].owes.Some? {
      NotifyKeepsAccounts(s, s', e.k);
    } else {
      QuietStepKeepsAccounts(s, s');
    }
  }

  lemma {:induction false} RunKeepsAccounts(c: Config, es: seq<Event>)
    ensures Accounts(Run(c, es))
  {
    if es != [] {
      RunKeepsAccounts(c, es[..|es| - 1]);
      StepKeepsAccounts(c, Run(c, es[..|es| - 1]), es[|es| - 1]);
    }
  }

  /** When all sweeps are through, OnWorkerEvicted has run exactly once for every eviction, and so
      exactly once for every incarnation that the sweeps removed. */
  lemma CallbackRunsOncePerEviction(c: Config, es: seq<Event>)
    requires Run(c, es).sweeps == map[]
    ensures var s := Run(c, es);
            && (forall i, j :: 0 <= i < j < |s.notified| ==> s.notified[i] != s.notified[j])
            && (forall j :: j in s.notified <==> 0 <= j < |s.evictions|)
    ensures forall i, j :: 0 <= i < j < |Run(c, es).evictions| ==>
              Run(c, es).evictions[i].removed != Run(c, es).evictions[j].removed
  {
    RunKeepsAccounts(c, es);
    forall i, j | 0 <= i < j < |Run(c, es).evictions|
      ensures Run(c, es).evictions[i].removed != Run(c, es).evictions[j].removed
    {
      IncarnationsAreEvictedOnce(c, es, i, j);
    }
  }
}
