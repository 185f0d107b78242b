/** Whole runs of the registry (control-plane/registry/registry.go): dead detection is sound and,
    but for one gap, complete; what an incarnation goes through; what outlives a Deregister. The
    operations of any number of goroutines come in any order, timers fire late, and callbacks wait
    for the lock as long as they like. */
module MembershipRuns {
  import opened Membership
  import opened Options

  datatype Op =
    | Register(info: WorkerInfo)
    | Heartbeat(id: string, state: WorkerState, gap: nat)   // `gap` lies between its two clock readings
    | Deregister(id: string)
    | Evict(id: string)
    | ReportLoad(report: LoadReport)
    | RequestDrain(id: string)
    | Fire(timer: nat)
    | RunCallback(i: nat)

  /** An operation, `after` nanoseconds after the one before: the clock does not go back. */
  datatype Event = Event(after: nat, op: Op)

  datatype System = System(reg: Fleet, now: int)

  /** How long an operation holds the lock between its clock readings. */
  function Took(op: Op): nat {
    if op.Heartbeat? then op.gap else 0
  }

  function Apply(r: Fleet, deadTimeout: nat, op: Op, now: int): Fleet {
    match op
    case Register(info) => RegisterStep(r, deadTimeout, info, now).0
    case Heartbeat(id, state, gap) => HeartbeatStep(r, deadTimeout, id, state, now, now + gap).0
    case Deregister(id) => RemoveStep(r, id).0
    case Evict(id) => RemoveStep(r, id).0
    case ReportLoad(report) => ReportLoadStep(r, report).0
    case RequestDrain(id) => RequestDrainStep(r, id).0
    case Fire(t) => FireStep(r, t, now)
    case RunCallback(i) => RunCallbackStep(r, deadTimeout, i, now)
  }

  function Step(s: System, deadTimeout: nat, e: Event): System {
    System(Apply(s.reg, deadTimeout, e.op, s.now + e.after), s.now + e.after + Took(e.op))
  }

  function Run(deadTimeout: nat, es: seq<Event>): System {
    if es == [] then System(EMPTY, 0) else Step(Run(deadTimeout, es[..|es| - 1]), deadTimeout, es[|es| - 1])
  }

  // ---------------------------------------------------------------- bookkeeping

  /** Timers are never shared, and are about the worker whose entry has them. */
  ghost predicate Timers(r: Fleet) {
    && (forall t :: t in r.owner ==> t < r.next)
    && (forall t :: t in r.armed ==> t in r.owner)
    && (forall id :: id in r.workers ==> r.workers[id].timer in r.owner && r.owner[r.workers[id].timer] == id)
  }

  /** Bookkeeping of one entry under its key. */
  ghost predicate EntryInv(id: string, e: Entry, now: int) {
    && e.info.workerId == id
    && (e.state == DEAD <==> e.markedDeadAt.Some?)
    && e.registeredAt <= e.lastHeartbeat <= now
    && (e.markedDeadAt.Some? ==> e.markedDeadAt.value <= now)
  }

  ghost predicate Entries(r: Fleet, now: int) {
    forall id :: id in r.workers ==> EntryInv(id, r.workers[id], now)
  }

  ghost predicate FiredBy(r: Fleet, now: int) {
    forall i :: 0 <= i < |r.callbacks| ==> r.callbacks[i].firedAt <= now
  }

  ghost predicate Inv(s: System) {
    Timers(s.reg) && Entries(s.reg, s.now) && FiredBy(s.reg, s.now)
  }

  /** Entries under different names have different timers. */
  lemma TimersDiffer(r: Fleet, id: string, id': string)
    requires Timers(r) && id in r.workers && id' in r.workers && id != id'
    ensures r.workers[id].timer != r.workers[id'].timer
  {
  }

  lemma ApplyKeepsTimers(r: Fleet, deadTimeout: nat, op: Op, now: int)
    requires Timers(r)
    ensures Timers(Apply(r, deadTimeout, op, now))
  {
  }

  lemma ApplyKeepsEntries(r: Fleet, deadTimeout: nat, op: Op, before: int, now: int)
    requires before <= now && Entries(r, before)
    ensures Entries(Apply(r, deadTimeout, op, now), now + Took(op))
  {
    var r' := Apply(r, deadTimeout, op, now);
    forall id | id in r'.workers ensures EntryInv(id, r'.workers[id], now + Took(op)) {
      assert id in r.workers ==> EntryInv(id, r.workers[id], before);
    }
  }

  lemma ApplyKeepsFired(r: Fleet, deadTimeout: nat, op: Op, before: int, now: int)
    requires before <= now && FiredBy(r, before)
    ensures FiredBy(Apply(r, deadTimeout, op, now), now)
  {
  }

  lemma {:induction false} RunKeepsTimers(deadTimeout: nat, es: seq<Event>)
    ensures Timers(Run(deadTimeout, es).reg)
  {
    if es != [] {
      var s, e := Run(deadTimeout, es[..|es| - 1]), es[|es| - 1];
      RunKeepsTimers(deadTimeout, es[..|es| - 1]);
      ApplyKeepsTimers(s.reg, deadTimeout, e.op, s.now + e.after);
    }
  }

  lemma {:induction false} RunKeepsEntries(deadTimeout: nat, es: seq<Event>)
    ensures Entries(Run(deadTimeout, es).reg, Run(deadTimeout, es).now)
  {
    if es != [] {
      var s, e := Run(deadTimeout, es[..|es| - 1]), es[|es| - 1];
      RunKeepsEntries(deadTimeout, es[..|es| - 1]);
      ApplyKeepsEntries(s.reg, deadTimeout, e.op, s.now, s.now + e.after);
    }
  }

  lemma {:induction false} RunKeepsFired(deadTimeout: nat, es: seq<Event>)
    ensures FiredBy(Run(deadTimeout, es).reg, Run(deadTimeout, es).now)
  {
    if es != [] {
      var s, e := Run(deadTimeout, es[..|es| - 1]), es[|es| - 1];
      RunKeepsFired(deadTimeout, es[..|es| - 1]);
      ApplyKeepsFired(s.reg, deadTimeout, e.op, s.now, s.now + e.after);
    }
  }

  lemma RunKeepsInv(deadTimeout: nat, es: seq<Event>)
    ensures Inv(Run(deadTimeout, es))
  {
    RunKeepsTimers(deadTimeout, es);
    RunKeepsEntries(deadTimeout, es);
    RunKeepsFired(deadTimeout, es);
  }

  // ---------------------------------------------------------------- since the last contact

  /** What has happened to a worker since its last accepted Register or Heartbeat: when that reset
      the timer and when it read the clock, whether the worker was DEAD (and said so) even then, and
      when a callback about it ran last since then, be it a leftover or a late one. */
  datatype Contact = Contact(reset: int, read: int, wasDead: bool, ran: Option<int>)

  /** The operation is a Register or Heartbeat of this worker that is accepted. */
  predicate Contacts(r: Fleet, op: Op, id: string) {
    match op
    case Register(info) => info.workerId == id && id != "" && info.address != ""
    case Heartbeat(w, state, _) => w == id && id in r.workers && ValidTransition(r.workers[id].state, state)
    case _ => false
  }

  lemma ContactsAreAccepted(r: Fleet, deadTimeout: nat, op: Op, now: int, id: string)
    ensures Contacts(r, op, id) <==>
            || (op.Register? && op.info.workerId == id && RegisterStep(r, deadTimeout, op.info, now).1 == Ok)
            || (op.Heartbeat? && op.id == id
                && HeartbeatStep(r, deadTimeout, id, op.state, now, now + op.gap).1.HeartbeatOk?)
  {
  }

  /** The operation lets a callback about this worker run. */
  predicate Calls(r: Fleet, op: Op, id: string) {
    op.RunCallback? && op.i < |r.callbacks| && r.callbacks[op.i].workerId == id
  }

  function NextContact(c: Option<Contact>, r: Fleet, op: Op, now: int, id: string): Option<Contact> {
    if Contacts(r, op, id) then
      Some(Contact(now, now + Took(op), op.Heartbeat? && op.state == DEAD, None))
    else if c.Some? && Calls(r, op, id) then Some(c.value.(ran := Some(now)))
    else c
  }

  function LastContact(deadTimeout: nat, es: seq<Event>, id: string): Option<Contact> {
    if es == [] then None
    else
      var earlier, e := es[..|es| - 1], es[|es| - 1];
      var s := Run(deadTimeout, earlier);
      NextContact(LastContact(deadTimeout, earlier, id), s.reg, e.op, s.now + e.after, id)
  }

  /** A callback about the worker has run at `at` or later. */
  predicate RanSince(c: Contact, at: int) {
    c.ran.Some? && c.ran.value >= at
  }

  /** The last one to run came deadTimeout after the first reading, but not after the second. */
  predicate RanInGap(c: Contact, deadTimeout: nat) {
    RanSince(c, c.reset + deadTimeout) && !RanSince(c, c.read + deadTimeout)
  }

  /** Somebody will look or has looked: the timer is armed for deadTimeout after it was reset, or a
      callback that fired no earlier than that is waiting, or one has run. */
  ghost predicate Watched(r: Fleet, deadTimeout: nat, id: string, c: Contact)
    requires id in r.workers
  {
    var e := r.workers[id];
    || (e.timer in r.armed && r.armed[e.timer] == c.reset + deadTimeout)
    || (exists i :: 0 <= i < |r.callbacks| && r.callbacks[i].workerId == id
                    && r.callbacks[i].firedAt >= c.reset + deadTimeout)
    || RanSince(c, c.reset + deadTimeout)
  }

  /** LastHeartbeat is the second reading of the last contact, and the worker is DEAD exactly if it
      was so then or a callback has run deadTimeout or more after that reading. */
  predicate Recorded(r: Fleet, deadTimeout: nat, id: string, c: Contact)
    requires id in r.workers
  {
    var e := r.workers[id];
    && c.reset <= c.read == e.lastHeartbeat
    && (e.state == DEAD <==> c.wasDead || RanSince(c, c.read + deadTimeout))
  }

  predicate RanBy(c: Contact, now: int) {
    c.ran.Some? ==> c.ran.value <= now
  }

  /** A contact starts a new record. */
  lemma ContactIsRecorded(r: Fleet, deadTimeout: nat, op: Op, now: int, id: string)
    requires Contacts(r, op, id)
    ensures var r' := Apply(r, deadTimeout, op, now);
            var c := Contact(now, now + Took(op), op.Heartbeat? && op.state == DEAD, None);
            id in r'.workers && Recorded(r', deadTimeout, id, c) && Watched(r', deadTimeout, id, c)
  {
  }

  /** A callback about the worker that runs kills it or enters the record. */
  lemma CallIsRecorded(r: Fleet, deadTimeout: nat, i: nat, now: int, id: string, c: Contact)
    requires id in r.workers && Recorded(r, deadTimeout, id, c) && RanBy(c, now)
    requires i < |r.callbacks| && r.callbacks[i].workerId == id
    ensures Recorded(RunCallbackStep(r, deadTimeout, i, now), deadTimeout, id, c.(ran := Some(now)))
  {
  }

  lemma CallKeepsWatched(r: Fleet, deadTimeout: nat, i: nat, now: int, id: string, c: Contact)
    requires id in r.workers && Watched(r, deadTimeout, id, c) && FiredBy(r, now) && RanBy(c, now)
    requires i < |r.callbacks| && r.callbacks[i].workerId == id
    ensures Watched(RunCallbackStep(r, deadTimeout, i, now), deadTimeout, id, c.(ran := Some(now)))
  {
    var r', e := RunCallbackStep(r, deadTimeout, i, now), r.workers[id];
    if j :| 0 <= j < |r.callbacks| && r.callbacks[j].workerId == id
            && r.callbacks[j].firedAt >= c.reset + deadTimeout
    {
      if j != i {
        assert r'.callbacks[if j < i then j else j - 1] == r.callbacks[j];
      }
    }
  }

  /** Callbacks about others take nothing away. */
  lemma OtherCallKeepsWatched(r: Fleet, deadTimeout: nat, i: nat, now: int, id: string, c: Contact)
    requires id in r.workers && Watched(r, deadTimeout, id, c)
    requires i < |r.callbacks| && r.callbacks[i].workerId != id
    ensures Watched(RunCallbackStep(r, deadTimeout, i, now), deadTimeout, id, c)
  {
    var r', e := RunCallbackStep(r, deadTimeout, i, now), r.workers[id];
    if j :| 0 <= j < |r.callbacks| && r.callbacks[j].workerId == id
            && r.callbacks[j].firedAt >= c.reset + deadTimeout
    {
      assert r'.callbacks[if j < i then j else j - 1] == r.callbacks[j];
    }
  }

  lemma FireKeepsWatched(r: Fleet, deadTimeout: nat, t: nat, now: int, id: string, c: Contact)
    requires Timers(r) && id in r.workers && Watched(r, deadTimeout, id, c)
    ensures Watched(FireStep(r, t, now), deadTimeout, id, c)
  {
    var r', e := FireStep(r, t, now), r.workers[id];
    if r' != r {
      assert r'.callbacks[|r.callbacks|] == Callback(r.owner[t], now);
      if j :| 0 <= j < |r.callbacks| && r.callbacks[j].workerId == id
            && r.callbacks[j].firedAt >= c.reset + deadTimeout
    {
        assert r'.callbacks[j] == r.callbacks[j];
      }
    }
  }

  /** A watched entry stays watched as long as its timer and the callbacks stay. */
  lemma WatchedFrame(r: Fleet, r': Fleet, deadTimeout: nat, id: string, c: Contact)
    requires id in r.workers && id in r'.workers && Watched(r, deadTimeout, id, c)
    requires r'.workers[id].timer == r.workers[id].timer && r'.callbacks == r.callbacks
    requires r.workers[id].timer in r.armed ==>
               r.workers[id].timer in r'.armed && r'.armed[r.workers[id].timer] == r.armed[r.workers[id].timer]
    ensures Watched(r', deadTimeout, id, c)
  {
  }

  /** Neither a contact of this worker nor a callback about it. */
  lemma OthersKeepWatched(r: Fleet, deadTimeout: nat, op: Op, now: int, id: string, c: Contact)
    requires Timers(r) && id in r.workers && Watched(r, deadTimeout, id, c)
    requires !Contacts(r, op, id) && !Calls(r, op, id)
    requires id in Apply(r, deadTimeout, op, now).workers
    ensures Watched(Apply(r, deadTimeout, op, now), deadTimeout, id, c)
  {
    var r' := Apply(r, deadTimeout, op, now);
    match op
    case Fire(t) => FireKeepsWatched(r, deadTimeout, t, now, id, c);
    case RunCallback(i) => if i < |r.callbacks| { OtherCallKeepsWatched(r, deadTimeout, i, now, id, c); }
    case Register(info) => WatchedFrame(r, r', deadTimeout, id, c);
    case Heartbeat(w, state, gap) =>
      if w in r.workers && w != id { TimersDiffer(r, id, w); }
      WatchedFrame(r, r', deadTimeout, id, c);
    case Deregister(w) =>
      if w in r.workers { TimersDiffer(r, id, w); }
      WatchedFrame(r, r', deadTimeout, id, c);
    case Evict(w) =>
      if w in r.workers { TimersDiffer(r, id, w); }
      WatchedFrame(r, r', deadTimeout, id, c);
    case ReportLoad(_) => WatchedFrame(r, r', deadTimeout, id, c);
    case RequestDrain(_) => WatchedFrame(r, r', deadTimeout, id, c);
  }

  lemma OthersKeepRecorded(r: Fleet, deadTimeout: nat, op: Op, now: int, id: string, c: Contact)
    requires id in r.workers && Recorded(r, deadTimeout, id, c)
    requires !Contacts(r, op, id) && !Calls(r, op, id)
    requires id in Apply(r, deadTimeout, op, now).workers
    ensures Recorded(Apply(r, deadTimeout, op, now), deadTimeout, id, c)
  {
    var r' := Apply(r, deadTimeout, op, now);
    assert r'.workers[id].lastHeartbeat == r.workers[id].lastHeartbeat && r'.workers[id].state == r.workers[id].state;
  }

  /** Only a contact brings a worker in. */
  lemma ContactOrPresent(r: Fleet, deadTimeout: nat, op: Op, now: int, id: string)
    requires id in Apply(r, deadTimeout, op, now).workers
    ensures Contacts(r, op, id) || id in r.workers
  {
  }

  predicate OnRecord(r: Fleet, deadTimeout: nat, now: int, id: string, c: Option<Contact>) {
    id in r.workers ==> c.Some? && RanBy(c.value, now) && Recorded(r, deadTimeout, id, c.value)
  }

  ghost predicate OnWatch(r: Fleet, deadTimeout: nat, id: string, c: Option<Contact>) {
    id in r.workers && c.Some? ==> Watched(r, deadTimeout, id, c.value)
  }

  lemma StepKeepsRecord(
      r: Fleet, deadTimeout: nat, op: Op, now: int, id: string, c: Option<Contact>, r': Fleet, c': Option<Contact>)
    requires OnRecord(r, deadTimeout, now, id, c)
    requires r' == Apply(r, deadTimeout, op, now) && c' == NextContact(c, r, op, now, id)
    ensures OnRecord(r', deadTimeout, now + Took(op), id, c')
  {
    if id in r'.workers {
      if Contacts(r, op, id) {
        ContactIsRecorded(r, deadTimeout, op, now, id);
      } else {
        ContactOrPresent(r, deadTimeout, op, now, id);
        if Calls(r, op, id) {
          CallIsRecorded(r, deadTimeout, op.i, now, id, c.value);
        } else {
          OthersKeepRecorded(r, deadTimeout, op, now, id, c.value);
        }
      }
    }
  }

  lemma StepKeepsWatch(
      r: Fleet, deadTimeout: nat, op: Op, now: int, id: string, c: Option<Contact>, r': Fleet, c': Option<Contact>)
    requires Timers(r) && FiredBy(r, now) && OnRecord(r, deadTimeout, now, id, c) && OnWatch(r, deadTimeout, id, c)
    requires r' == Apply(r, deadTimeout, op, now) && c' == NextContact(c, r, op, now, id)
    ensures OnWatch(r', deadTimeout, id, c')
  {
    if id in r'.workers {
      if Contacts(r, op, id) {
        ContactIsRecorded(r, deadTimeout, op, now, id);
      } else {
        ContactOrPresent(r, deadTimeout, op, now, id);
        if Calls(r, op, id) {
          CallKeepsWatched(r, deadTimeout, op.i, now, id, c.value);
        } else {
          OthersKeepWatched(r, deadTimeout, op, now, id, c.value);
        }
      }
    }
  }

  lemma RecordLasts(r: Fleet, deadTimeout: nat, now: int, later: int, id: string, c: Option<Contact>)
    requires OnRecord(r, deadTimeout, now, id, c) && now <= later
    ensures OnRecord(r, deadTimeout, later, id, c)
  {
  }

  /** In every reachable state, for every worker there: LastHeartbeat is the second reading of its last
      contact, and it is DEAD exactly if it was so then or has been found silent since. */
  lemma {:induction false} RunKeepsRecord(deadTimeout: nat, es: seq<Event>, id: string)
    ensures OnRecord(Run(deadTimeout, es).reg, deadTimeout, Run(deadTimeout, es).now, id,
                     LastContact(deadTimeout, es, id))
  {
    if es != [] {
      var earlier, e := es[..|es| - 1], es[|es| - 1];
      var s, c := Run(deadTimeout, earlier), LastContact(deadTimeout, earlier, id);
      RunKeepsRecord(deadTimeout, earlier, id);
      RecordLasts(s.reg, deadTimeout, s.now, s.now + e.after, id, c);
      StepKeepsRecord(s.reg, deadTimeout, e.op, s.now + e.after, id, c,
                      Run(deadTimeout, es).reg, LastContact(deadTimeout, es, id));
    }
  }

  /** And it is watched. */
  lemma {:induction false} RunKeepsWatch(deadTimeout: nat, es: seq<Event>, id: string)
    ensures OnWatch(Run(deadTimeout, es).reg, deadTimeout, id, LastContact(deadTimeout, es, id))
  {
    if es != [] {
      var earlier, e := es[..|es| - 1], es[|es| - 1];
      var s, c := Run(deadTimeout, earlier), LastContact(deadTimeout, earlier, id);
      RunKeepsRecord(deadTimeout, earlier, id);
      RunKeepsWatch(deadTimeout, earlier, id);
      RunKeepsTimers(deadTimeout, earlier);
      RecordLasts(s.reg, deadTimeout, s.now, s.now + e.after, id, c);
      assert FiredBy(s.reg, s.now + e.after) by { RunKeepsFired(deadTimeout, earlier); }
      StepKeepsWatch(s.reg, deadTimeout, e.op, s.now + e.after, id, c,
                     Run(deadTimeout, es).reg, LastContact(deadTimeout, es, id));
    }
  }

  // ---------------------------------------------------------------- dead detection

  /** Nothing will ever call markDead for this worker again, unless it makes contact. */
  ghost predicate Unwatched(r: Fleet, id: string) {
    && (forall t :: t in r.armed ==> t in r.owner && r.owner[t] != id)
    && (forall i :: 0 <= i < |r.callbacks| ==> r.callbacks[i].workerId != id)
  }

  ghost predicate LostTrack(r: Fleet, id: string) {
    Timers(r) && Unwatched(r, id) && (id in r.workers ==> r.workers[id].state != DEAD)
  }

  /** Every due timer about the worker has fired, and its callback has run. */
  ghost predicate IsSettled(s: System, id: string) {
    && (forall t :: t in s.reg.armed && t in s.reg.owner && s.reg.owner[t] == id ==> s.now < s.reg.armed[t])
    && (forall i :: 0 <= i < |s.reg.callbacks| ==> s.reg.callbacks[i].workerId != id)
  }

  /** A worker that is watched and settled has been called about. */
  lemma SettledWasCalled(s: System, deadTimeout: nat, id: string, c: Option<Contact>)
    requires Timers(s.reg) && OnWatch(s.reg, deadTimeout, id, c) && id in s.reg.workers && c.Some?
    ensures IsSettled(s, id) ==> s.now < c.value.reset + deadTimeout || RanSince(c.value, c.value.reset + deadTimeout)
  {
  }

  lemma UnwatchedWasCalled(r: Fleet, deadTimeout: nat, now: int, id: string, c: Option<Contact>)
    requires Timers(r) && OnWatch(r, deadTimeout, id, c) && OnRecord(r, deadTimeout, now, id, c) && id in r.workers
    ensures c.Some?
    ensures Unwatched(r, id) ==>
              (r.workers[id].state != DEAD <==> !c.value.wasDead && RanInGap(c.value, deadTimeout))
  {
  }

  /** Exactly when a worker is DEAD, in every reachable state: it said so itself when it was DEAD
      already, or a callback about it has run deadTimeout or more after its last contact. */
  lemma DeadExactlyWhenFoundSilent(deadTimeout: nat, es: seq<Event>, id: string)
    requires id in Run(deadTimeout, es).reg.workers
    ensures LastContact(deadTimeout, es, id).Some?
    ensures Run(deadTimeout, es).reg.workers[id].lastHeartbeat == LastContact(deadTimeout, es, id).value.read
    ensures var c := LastContact(deadTimeout, es, id).value;
            Run(deadTimeout, es).reg.workers[id].state == DEAD <==> c.wasDead || RanSince(c, c.read + deadTimeout)
  {
    RunKeepsRecord(deadTimeout, es, id);
  }

  /** Detection is complete but for the gap: in every reachable state in which every due timer about a
      worker has fired and every callback about it has run, the worker is DEAD or has been silent for
      less than deadTimeout, unless the last callback about it ran between deadTimeout after the one
      clock reading of its last contact and deadTimeout after the other. If the readings are the same,
      or the contact was a Register, there is no such instant. */
  lemma SilentWorkersAreDead(deadTimeout: nat, es: seq<Event>, id: string)
    requires id in Run(deadTimeout, es).reg.workers
    ensures LastContact(deadTimeout, es, id).Some?
    ensures IsSettled(Run(deadTimeout, es), id) ==>
              || Run(deadTimeout, es).reg.workers[id].state == DEAD
              || Run(deadTimeout, es).now - Run(deadTimeout, es).reg.workers[id].lastHeartbeat < deadTimeout
              || RanInGap(LastContact(deadTimeout, es, id).value, deadTimeout)
    ensures var c := LastContact(deadTimeout, es, id).value;
            c.reset == c.read ==> !RanInGap(c, deadTimeout)
  {
    DeadExactlyWhenFoundSilent(deadTimeout, es, id);
    RunKeepsRecord(deadTimeout, es, id);
    RunKeepsWatch(deadTimeout, es, id);
    RunKeepsTimers(deadTimeout, es);
    SettledWasCalled(Run(deadTimeout, es), deadTimeout, id, LastContact(deadTimeout, es, id));
  }

  /** The gap is the only way to lose track, and it always does. When no timer and no callback about a
      worker is left, leftover ones included, then it is lost track of (not DEAD, and never found
      DEAD until it makes contact) exactly if the last callback about it came between deadTimeout
      after its timer was reset and deadTimeout after the second reading. */
  lemma LostExactlyInTheGap(deadTimeout: nat, es: seq<Event>, id: string)
    requires id in Run(deadTimeout, es).reg.workers
    ensures LastContact(deadTimeout, es, id).Some?
    ensures var c := LastContact(deadTimeout, es, id).value;
            Unwatched(Run(deadTimeout, es).reg, id) ==>
              (Run(deadTimeout, es).reg.workers[id].state != DEAD <==> !c.wasDead && RanInGap(c, deadTimeout))
  {
    RunKeepsRecord(deadTimeout, es, id);
    RunKeepsWatch(deadTimeout, es, id);
    RunKeepsTimers(deadTimeout, es);
    UnwatchedWasCalled(Run(deadTimeout, es).reg, deadTimeout, Run(deadTimeout, es).now, id,
                       LastContact(deadTimeout, es, id));
  }

  predicate IsContact(op: Op, id: string) {
    (op.Register? && op.info.workerId == id) || (op.Heartbeat? && op.id == id)
  }

  function RunFrom(s: System, deadTimeout: nat, es: seq<Event>): System {
    if es == [] then s else Step(RunFrom(s, deadTimeout, es[..|es| - 1]), deadTimeout, es[|es| - 1])
  }

  lemma UnwatchedStep(r: Fleet, deadTimeout: nat, op: Op, now: int, id: string, r': Fleet)
    requires LostTrack(r, id) && !IsContact(op, id) && r' == Apply(r, deadTimeout, op, now)
    ensures LostTrack(r', id)
  {
    ApplyKeepsTimers(r, deadTimeout, op, now);
  }

  /** An entry that nobody watches is never found dead, however long it stays silent. */
  lemma {:induction false} UnwatchedIsNeverFoundDead(s: System, deadTimeout: nat, es: seq<Event>, id: string)
    requires LostTrack(s.reg, id)
    requires forall i :: 0 <= i < |es| ==> !IsContact(es[i].op, id)
    ensures LostTrack(RunFrom(s, deadTimeout, es).reg, id)
  {
    if es != [] {
      var n := |es| - 1;
      var before := RunFrom(s, deadTimeout, es[..n]);
      UnwatchedIsNeverFoundDead(s, deadTimeout, es[..n], id);
      UnwatchedStep(before.reg, deadTimeout, es[n].op, before.now + es[n].after, id, RunFrom(s, deadTimeout, es).reg);
    }
  }

  lemma RunSnoc(deadTimeout: nat, es: seq<Event>, e: Event)
    ensures Run(deadTimeout, es + [e]) == Step(Run(deadTimeout, es), deadTimeout, e)
  {
    assert (es + [e])[..|es|] == es;
  }

  lemma RegisterRun(deadTimeout: nat, info: WorkerInfo) returns (es: seq<Event>)
    requires info.workerId != "" && info.address != ""
    ensures |es| == 1 && Run(deadTimeout, es) == System(RegisterStep(EMPTY, deadTimeout, info, 0).0, 0)
  {
    RunSnoc(deadTimeout, [], Event(0, Register(info)));
    es := [] + [Event(0, Register(info))];
    assert Run(deadTimeout, []) == System(EMPTY, 0);
  }

  lemma HeartbeatRun(info: WorkerInfo) returns (es: seq<Event>)
    requires info.workerId != "" && info.address != ""
    ensures |es| == 2 && Run(10, es).now == 7
    ensures var e := Fresh(info, 0, 0).(state := READY, lastHeartbeat := 7);
            Run(10, es).reg == Fleet(map[info.workerId := e], map[0 := info.workerId], map[0 := 15], [], 1)
  {
    var es1 := RegisterRun(10, info);
    RunSnoc(10, es1, Event(5, Heartbeat(info.workerId, READY, 2)));
    es := es1 + [Event(5, Heartbeat(info.workerId, READY, 2))];
    assert Run(10, es1).reg.workers == map[info.workerId := Fresh(info, 0, 0)];
  }

  /** It happens: registered at 0, deadTimeout 10; a heartbeat resets the timer at 5 and reads the
      clock at 7; timer and callback come at 15 and 16. From then on the worker may be silent for
      ever and is not found dead. */
  lemma HeartbeatGapLosesAWorker(info: WorkerInfo) returns (es: seq<Event>)
    requires info.workerId != "" && info.address != ""
    ensures |es| == 4 && info.workerId in Run(10, es).reg.workers && LostTrack(Run(10, es).reg, info.workerId)
  {
    var es2 := HeartbeatRun(info);
    var es3 := es2 + [Event(8, Fire(0))];
    es := es3 + [Event(1, RunCallback(0))];
    RunSnoc(10, es2, Event(8, Fire(0)));
    assert map[0 := 15] - {0} == map[];
    assert Run(10, es3).now == 15 && Run(10, es3).reg
        == Run(10, es2).reg.(armed := map[], callbacks := [Callback(info.workerId, 15)]);
    RunSnoc(10, es3, Event(1, RunCallback(0)));
    RunKeepsTimers(10, es);
  }

  /** The worker is DEAD afterwards and was not before. */
  ghost predicate Dies(r: Fleet, r': Fleet, id: string) {
    && id in r'.workers && r'.workers[id].state == DEAD
    && (id in r.workers ==> r.workers[id].state != DEAD)
  }

  lemma OnlyCallbacksKill(r: Fleet, deadTimeout: nat, op: Op, now: int, id: string)
    requires Dies(r, Apply(r, deadTimeout, op, now), id)
    ensures op.RunCallback? && id in r.workers && now - r.workers[id].lastHeartbeat >= deadTimeout
    ensures Apply(r, deadTimeout, op, now).workers[id] == r.workers[id].(state := DEAD, markedDeadAt := Some(now))
  {
  }

  /** What a death looks like, event and entry. */
  ghost predicate KilledBySilence(s: System, s': System, deadTimeout: nat, e: Event, id: string) {
    && e.op.RunCallback?
    && id in s.reg.workers && id in s'.reg.workers
    && s'.now - s.reg.workers[id].lastHeartbeat >= deadTimeout
    && s'.reg.workers[id] == s.reg.workers[id].(state := DEAD, markedDeadAt := Some(s'.now))
  }

  lemma DeathIsBySilence(deadTimeout: nat, es: seq<Event>, e: Event, id: string)
    requires Dies(Run(deadTimeout, es).reg, Run(deadTimeout, es + [e]).reg, id)
    ensures KilledBySilence(Run(deadTimeout, es), Run(deadTimeout, es + [e]), deadTimeout, e, id)
  {
    assert (es + [e])[..|es|] == es;
    var s := Run(deadTimeout, es);
    OnlyCallbacksKill(s.reg, deadTimeout, e.op, s.now + e.after, id);
  }

  /** Detection is sound under every interleaving, leftover timers of replaced incarnations and
      late callbacks included: an event by which a worker dies is a callback, changes that very
      incarnation, and comes at least deadTimeout after the worker's last accepted contact. */
  lemma DeadWorkersWereSilent(deadTimeout: nat, es: seq<Event>, e: Event, id: string)
    requires Dies(Run(deadTimeout, es).reg, Run(deadTimeout, es + [e]).reg, id)
    ensures KilledBySilence(Run(deadTimeout, es), Run(deadTimeout, es + [e]), deadTimeout, e, id)
    ensures LastContact(deadTimeout, es, id).Some?
    ensures Run(deadTimeout, es + [e]).now - LastContact(deadTimeout, es, id).value.read >= deadTimeout
  {
    DeathIsBySilence(deadTimeout, es, e, id);
    DeadExactlyWhenFoundSilent(deadTimeout, es, id);
  }

  // ---------------------------------------------------------------- the life of an incarnation

  /** The incarnation `timer` of worker id is in the registry. */
  ghost predicate Present(deadTimeout: nat, es: seq<Event>, id: string, timer: nat) {
    var w := Run(deadTimeout, es).reg.workers;
    id in w && w[id].timer == timer
  }

  function StateAt(deadTimeout: nat, es: seq<Event>, id: string): WorkerState
    requires id in Run(deadTimeout, es).reg.workers
  {
    Run(deadTimeout, es).reg.workers[id].state
  }

  function Phase(s: WorkerState): nat {
    match s
    case STARTING => 0
    case READY => 1
    case BUSY => 1
    case DRAINING => 2
    case DEAD => 3
  }

  /** What one event can do to an incarnation: create it STARTING, or move it by a valid
      transition or to DEAD. */
  lemma OneStepOfLife(deadTimeout: nat, es: seq<Event>, k: nat, id: string, timer: nat)
    requires k < |es| && Present(deadTimeout, es[..k + 1], id, timer)
    ensures if Present(deadTimeout, es[..k], id, timer) then
              var from, to := StateAt(deadTimeout, es[..k], id), StateAt(deadTimeout, es[..k + 1], id);
              from == to || to == DEAD || (from, to) in {(STARTING, READY), (READY, BUSY), (BUSY, READY),
                                                         (READY, DRAINING), (BUSY, DRAINING)}
            else
              StateAt(deadTimeout, es[..k + 1], id) == STARTING
              && timer == Run(deadTimeout, es[..k]).reg.next
  {
    assert es[..k + 1][..k] == es[..k];
    RunKeepsInv(deadTimeout, es[..k]);
  }

  lemma {:induction false} NextGrows(deadTimeout: nat, es: seq<Event>, i: nat, j: nat)
    requires i <= j <= |es|
    ensures Run(deadTimeout, es[..i]).reg.next <= Run(deadTimeout, es[..j]).reg.next
    decreases j
  {
    if i < j {
      NextGrows(deadTimeout, es, i, j - 1);
      assert es[..j][..j - 1] == es[..j - 1];
    }
  }

  /** An incarnation that is there at i and at j is there all the time in between: an evicted or
      replaced incarnation never comes back. */
  lemma {:induction false} PresenceIsAnInterval(
      deadTimeout: nat, es: seq<Event>, i: nat, k: nat, j: nat, id: string, timer: nat)
    requires i <= k <= j <= |es|
    requires Present(deadTimeout, es[..i], id, timer) && Present(deadTimeout, es[..j], id, timer)
    ensures Present(deadTimeout, es[..k], id, timer)
    decreases j - k
  {
    if k < j {
      PresenceIsAnInterval(deadTimeout, es, i, k + 1, j, id, timer);
      OneStepOfLife(deadTimeout, es, k, id, timer);
      if !Present(deadTimeout, es[..k], id, timer) {
        RunKeepsInv(deadTimeout, es[..i]);
        NextGrows(deadTimeout, es, i, k);
      }
    }
  }

  /** Each incarnation runs through STARTING*, (READY|BUSY)*, DRAINING*, DEAD* in this order:
      phases never go back, DEAD is absorbing, and DRAINING is only reached through READY or BUSY. */
  lemma {:induction false} LifeGoesForward(deadTimeout: nat, es: seq<Event>, i: nat, j: nat, id: string, timer: nat)
    requires i <= j <= |es|
    requires Present(deadTimeout, es[..i], id, timer) && Present(deadTimeout, es[..j], id, timer)
    ensures Phase(StateAt(deadTimeout, es[..i], id)) <= Phase(StateAt(deadTimeout, es[..j], id))
    ensures StateAt(deadTimeout, es[..i], id) == DEAD ==> StateAt(deadTimeout, es[..j], id) == DEAD
    ensures StateAt(deadTimeout, es[..i], id) == STARTING && StateAt(deadTimeout, es[..j], id) == DRAINING ==>
              exists k :: i < k < j && Present(deadTimeout, es[..k], id, timer)
                          && Phase(StateAt(deadTimeout, es[..k], id)) == 1
    decreases j
  {
    if i < j {
      PresenceIsAnInterval(deadTimeout, es, i, j - 1, j, id, timer);
      LifeGoesForward(deadTimeout, es, i, j - 1, id, timer);
      OneStepOfLife(deadTimeout, es, j - 1, id, timer);
    }
  }

  /** DEAD and MarkedDeadAt go together in every reachable state. */
  lemma DeadIffMarked(deadTimeout: nat, es: seq<Event>, id: string)
    requires id in Run(deadTimeout, es).reg.workers
    ensures StateAt(deadTimeout, es, id) == DEAD <==> Run(deadTimeout, es).reg.workers[id].markedDeadAt.Some?
    ensures Run(deadTimeout, es).reg.workers[id].info.workerId == id
  {
    RunKeepsInv(deadTimeout, es);
  }

  // ---------------------------------------------------------------- a worker that keeps in touch

  predicate IsBeat(op: Op, id: string) {
    op.Heartbeat? && op.id == id
  }

  /** The second reading of the worker's last heartbeat among these events, or `since`. */
  function LastBeat(s: System, deadTimeout: nat, es: seq<Event>, id: string, since: int): int {
    if es == [] then since
    else if IsBeat(es[|es| - 1].op, id) then RunFrom(s, deadTimeout, es).now
    else LastBeat(s, deadTimeout, es[..|es| - 1], id, since)
  }

  /** The worker only reports READY or BUSY, in any order, and never lets deadTimeout go by before it
      does so again; it is not removed or registered anew. Everything else may happen meanwhile. */
  predicate KeepsInTouch(s: System, deadTimeout: nat, es: seq<Event>, id: string, since: int) {
    if es == [] then true
    else
      var earlier, e := es[..|es| - 1], es[|es| - 1];
      && KeepsInTouch(s, deadTimeout, earlier, id, since)
      && RunFrom(s, deadTimeout, earlier).now + e.after - LastBeat(s, deadTimeout, earlier, id, since) < deadTimeout
      && (IsBeat(e.op, id) ==> e.op.state == READY || e.op.state == BUSY)
      && e.op != Deregister(id) && e.op != Evict(id) && (e.op.Register? ==> e.op.info.workerId != id)
  }

  predicate AtWork(r: Fleet, id: string, beat: int) {
    && id in r.workers
    && (r.workers[id].state == READY || r.workers[id].state == BUSY)
    && r.workers[id].lastHeartbeat == beat
  }

  lemma BeatKeepsAtWork(r: Fleet, deadTimeout: nat, op: Op, now: int, id: string, beat: int)
    requires AtWork(r, id, beat) && IsBeat(op, id) && (op.state == READY || op.state == BUSY)
    ensures HeartbeatStep(r, deadTimeout, id, op.state, now, now + op.gap).1.HeartbeatOk?
    ensures AtWork(Apply(r, deadTimeout, op, now), id, now + op.gap)
    ensures Apply(r, deadTimeout, op, now).workers[id].state == op.state
  {
  }

  lemma OthersKeepAtWork(r: Fleet, deadTimeout: nat, op: Op, now: int, id: string, beat: int)
    requires AtWork(r, id, beat) && !IsBeat(op, id) && now - beat < deadTimeout
    requires op != Deregister(id) && op != Evict(id) && (op.Register? ==> op.info.workerId != id)
    ensures AtWork(Apply(r, deadTimeout, op, now), id, beat)
  {
  }

  /** A worker that keeps in touch is never marked DEAD, whatever timers and callbacks about it are
      about. */
  lemma {:induction false} StaysAtWork(s: System, deadTimeout: nat, es: seq<Event>, id: string, since: int)
    requires AtWork(s.reg, id, since) && KeepsInTouch(s, deadTimeout, es, id, since)
    ensures AtWork(RunFrom(s, deadTimeout, es).reg, id, LastBeat(s, deadTimeout, es, id, since))
  {
    if es != [] {
      var n := |es| - 1;
      var before, e := RunFrom(s, deadTimeout, es[..n]), es[n];
      StaysAtWork(s, deadTimeout, es[..n], id, since);
      var beat := LastBeat(s, deadTimeout, es[..n], id, since);
      if IsBeat(e.op, id) {
        BeatKeepsAtWork(before.reg, deadTimeout, e.op, before.now + e.after, id, beat);
      } else {
        OthersKeepAtWork(before.reg, deadTimeout, e.op, before.now + e.after, id, beat);
      }
    }
  }

  lemma {:induction false} TouchIsKeptSoFar(
      s: System, deadTimeout: nat, es: seq<Event>, id: string, since: int, k: nat)
    requires k <= |es| && KeepsInTouch(s, deadTimeout, es, id, since)
    ensures KeepsInTouch(s, deadTimeout, es[..k], id, since)
  {
    if k == |es| {
      assert es[..k] == es;
    } else {
      TouchIsKeptSoFar(s, deadTimeout, es[..|es| - 1], id, since, k);
      assert es[..|es| - 1][..k] == es[..k];
    }
  }

  /** And each of its heartbeats is accepted: a worker may go from READY to BUSY and back, as often as it
      likes. */
  lemma HeartbeatsAreAccepted(s: System, deadTimeout: nat, es: seq<Event>, id: string, since: int, k: nat)
    requires AtWork(s.reg, id, since) && KeepsInTouch(s, deadTimeout, es, id, since)
    requires k < |es| && IsBeat(es[k].op, id)
    ensures var before, e := RunFrom(s, deadTimeout, es[..k]), es[k];
            var now := before.now + e.after;
            && HeartbeatStep(before.reg, deadTimeout, id, e.op.state, now, now + e.op.gap).1.HeartbeatOk?
            && RunFrom(s, deadTimeout, es[..k + 1]) == Step(before, deadTimeout, e)
            && id in Step(before, deadTimeout, e).reg.workers
            && Step(before, deadTimeout, e).reg.workers[id].state == e.op.state
  {
    TouchIsKeptSoFar(s, deadTimeout, es, id, since, k);
    TouchIsKeptSoFar(s, deadTimeout, es, id, since, k + 1);
    StaysAtWork(s, deadTimeout, es[..k], id, since);
    assert es[..k + 1][..k] == es[..k];
    var before := RunFrom(s, deadTimeout, es[..k]);
    BeatKeepsAtWork(before.reg, deadTimeout, es[k].op, before.now + es[k].after, id,
                    LastBeat(s, deadTimeout, es[..k], id, since));
  }

  // ---------------------------------------------------------------- draining

  /** Somebody asked this very incarnation to drain. */
  ghost predicate AskedToDrain(deadTimeout: nat, es: seq<Event>, id: string, timer: nat) {
    exists i :: 0 <= i < |es| && es[i].op == RequestDrain(id) && Present(deadTimeout, es[..i], id, timer)
  }

  lemma AskedExtends(deadTimeout: nat, es: seq<Event>, e: Event, id: string, timer: nat)
    ensures AskedToDrain(deadTimeout, es + [e], id, timer) <==>
            || AskedToDrain(deadTimeout, es, id, timer)
            || (e.op == RequestDrain(id) && Present(deadTimeout, es, id, timer))
  {
    var all := es + [e];
    assert all[..|es|] == es;
    assert forall i :: 0 <= i < |es| ==> all[..i] == es[..i] && all[i] == es[i];
  }

  /** Before it was created nobody can have asked it anything. */
  lemma NewIsNotAsked(deadTimeout: nat, es: seq<Event>, id: string, timer: nat)
    requires timer >= Run(deadTimeout, es).reg.next
    ensures !Present(deadTimeout, es, id, timer) && !AskedToDrain(deadTimeout, es, id, timer)
  {
    assert es[..|es|] == es;
    forall i | 0 <= i <= |es| ensures !Present(deadTimeout, es[..i], id, timer) {
      NextGrows(deadTimeout, es, i, |es|);
      RunKeepsTimers(deadTimeout, es[..i]);
    }
  }

  lemma DrainStep(r: Fleet, deadTimeout: nat, op: Op, now: int, id: string, r': Fleet)
    requires Timers(r) && r' == Apply(r, deadTimeout, op, now) && id in r'.workers
    ensures if id in r.workers && r'.workers[id].timer == r.workers[id].timer then
              r'.workers[id].drainRequested <==> r.workers[id].drainRequested || op == RequestDrain(id)
            else
              !r'.workers[id].drainRequested && r'.workers[id].timer == r.next && op != RequestDrain(id)
  {
  }

  lemma {:induction false} DrainIsRemembered(deadTimeout: nat, es: seq<Event>, id: string)
    requires id in Run(deadTimeout, es).reg.workers
    ensures var e := Run(deadTimeout, es).reg.workers[id];
            e.drainRequested <==> AskedToDrain(deadTimeout, es, id, e.timer)
  {
    if es != [] {
      var earlier, e := es[..|es| - 1], es[|es| - 1];
      var s, timer := Run(deadTimeout, earlier), Run(deadTimeout, es).reg.workers[id].timer;
      assert es == earlier + [e];
      RunKeepsTimers(deadTimeout, earlier);
      DrainStep(s.reg, deadTimeout, e.op, s.now + e.after, id, Run(deadTimeout, es).reg);
      AskedExtends(deadTimeout, earlier, e, id, timer);
      if Present(deadTimeout, earlier, id, timer) {
        DrainIsRemembered(deadTimeout, earlier, id);
      } else {
        NewIsNotAsked(deadTimeout, earlier, id, timer);
      }
    }
  }

  /** The next accepted heartbeat, and every later one, tells a worker to drain exactly if that was
      requested of this very incarnation before. */
  lemma DrainIsCarried(deadTimeout: nat, es: seq<Event>, e: Event)
    requires e.op.Heartbeat? && e.op.id in Run(deadTimeout, es).reg.workers
    ensures var s, now := Run(deadTimeout, es), Run(deadTimeout, es).now + e.after;
            var reply := HeartbeatStep(s.reg, deadTimeout, e.op.id, e.op.state, now, now + e.op.gap).1;
            reply.HeartbeatOk? ==>
              (reply.drain <==> AskedToDrain(deadTimeout, es, e.op.id, s.reg.workers[e.op.id].timer))
  {
    DrainIsRemembered(deadTimeout, es, e.op.id);
  }

  // ---------------------------------------------------------------- what outlives a Deregister

  /** Stopping the entry's own timer keeps markDead from being called for the worker again exactly
      if there is no other timer about it, left over from an incarnation that was replaced, and no
      callback that has fired already. */
  lemma DeregisterSilencesExactly(r: Fleet, id: string)
    requires Timers(r) && id in r.workers
    ensures Unwatched(RemoveStep(r, id).0, id) <==>
            && (forall t :: t in r.armed && r.owner[t] == id ==> t == r.workers[id].timer)
            && (forall i :: 0 <= i < |r.callbacks| ==> r.callbacks[i].workerId != id)
  {
    var r' := RemoveStep(r, id).0;
    if Unwatched(r', id) {
      forall t | t in r.armed && r.owner[t] == id ensures t == r.workers[id].timer {
        assert t in r'.armed || t == r.workers[id].timer;
      }
    }
  }

  /** And then it stays silent until the next contact. */
  lemma SilencedStaysSilent(s: System, deadTimeout: nat, es: seq<Event>, id: string)
    requires Timers(s.reg) && id in s.reg.workers && Unwatched(RemoveStep(s.reg, id).0, id)
    requires forall i :: 0 <= i < |es| ==> !IsContact(es[i].op, id)
    ensures LostTrack(RunFrom(s.(reg := RemoveStep(s.reg, id).0), deadTimeout, es).reg, id)
  {
    ApplyKeepsTimers(s.reg, deadTimeout, Deregister(id), s.now);
    UnwatchedIsNeverFoundDead(s.(reg := RemoveStep(s.reg, id).0), deadTimeout, es, id);
  }

  lemma RegisteredTwice(info: WorkerInfo) returns (es: seq<Event>)
    requires info.workerId != "" && info.address != ""
    ensures |es| == 2 && Run(10, es).now == 1
    ensures Run(10, es).reg == Fleet(map[info.workerId := Fresh(info, 1, 1)],
                                     map[0 := info.workerId, 1 := info.workerId], map[0 := 10, 1 := 11], [], 2)
  {
    var es1 := RegisterRun(10, info);
    es := es1 + [Event(1, Register(info))];
    RunSnoc(10, es1, Event(1, Register(info)));
    var r := Run(10, es1).reg;
    assert r == Fleet(map[info.workerId := Fresh(info, 0, 0)], map[0 := info.workerId], map[0 := 10], [], 1);
    assert r.workers[info.workerId := Fresh(info, 1, 1)] == map[info.workerId := Fresh(info, 1, 1)];
  }

  /** Otherwise it does not: registered, registered again, deregistered; then the timer of the first
      incarnation fires, and markDead will be called for a worker that is gone. */
  lemma CallbackOutlivesDeregister(info: WorkerInfo) returns (es: seq<Event>)
    requires info.workerId != "" && info.address != ""
    ensures |es| == 4 && es[2].op == Deregister(info.workerId)
    ensures info.workerId !in Run(10, es).reg.workers
    ensures Run(10, es).reg.callbacks == [Callback(info.workerId, 10)]
  {
    var es2 := RegisteredTwice(info);
    var e3, e4 := Event(1, Deregister(info.workerId)), Event(8, Fire(0));
    var es3 := es2 + [e3];
    es := es3 + [e4];
    RunSnoc(10, es2, e3);
    RunSnoc(10, es3, e4);
    assert map[0 := 10, 1 := 11] - {1} == map[0 := 10];
    assert Run(10, es3).now == 2 && Run(10, es3).reg.armed == map[0 := 10];
  }

  // ---------------------------------------------------------------- Register, in two steps

  /** Register starts the timer before it takes the lock ... */
  function StartTimer(r: Fleet, deadTimeout: nat, id: string, at: int): Fleet {
    r.(owner := r.owner[r.next := id], armed := r.armed[r.next := at + deadTimeout], next := r.next + 1)
  }

  /** ... and inserts the entry under it. */
  function Insert(r: Fleet, e: Entry): Fleet {
    r.(workers := r.workers[e.info.workerId := e])
  }

  lemma RegisterIsStartAndInsert(r: Fleet, deadTimeout: nat, info: WorkerInfo, now: int)
    requires info.workerId != "" && info.address != ""
    ensures RegisterStep(r, deadTimeout, info, now).0
         == Insert(StartTimer(r, deadTimeout, info.workerId, now), Fresh(info, r.next, now))
  {
  }

  /** Inserting an entry arms and stops nothing. */
  lemma InsertKeepsWatch(r: Fleet, info: WorkerInfo, timer: nat, readAt: int)
    requires Timers(r) && timer in r.owner && r.owner[timer] == info.workerId
    ensures LostTrack(Insert(r, Fresh(info, timer, readAt)), info.workerId) <==> Unwatched(r, info.workerId)
  {
  }

  /** A timer that no entry has: it is armed for its instant until that has passed, and nobody else
      resets or stops it. */
  ghost predicate IsPending(s: System, t: nat, id: string, due: int) {
    && t in s.reg.owner && s.reg.owner[t] == id
    && (forall w :: w in s.reg.workers ==> s.reg.workers[w].timer != t)
    && (if t in s.reg.armed then s.reg.armed[t] == due else due <= s.now)
  }

  lemma StepKeepsPending(s: System, deadTimeout: nat, e: Event, t: nat, id: string, due: int)
    requires Timers(s.reg) && IsPending(s, t, id, due)
    ensures IsPending(Step(s, deadTimeout, e), t, id, due)
  {
  }

  lemma {:induction false} RunKeepsPending(
      s: System, deadTimeout: nat, es: seq<Event>, t: nat, id: string, due: int)
    requires Timers(s.reg) && IsPending(s, t, id, due)
    ensures Timers(RunFrom(s, deadTimeout, es).reg) && IsPending(RunFrom(s, deadTimeout, es), t, id, due)
  {
    if es != [] {
      var n := |es| - 1;
      var before := RunFrom(s, deadTimeout, es[..n]);
      RunKeepsPending(s, deadTimeout, es[..n], t, id, due);
      ApplyKeepsTimers(before.reg, deadTimeout, es[n].op, before.now + es[n].after);
      StepKeepsPending(before, deadTimeout, es[n], t, id, due);
    }
  }

  lemma PendingTellsLoss(s: System, t: nat, id: string, due: int)
    requires Timers(s.reg) && IsPending(s, t, id, due) && IsSettled(s, id)
    ensures Unwatched(s.reg, id) <==>
            due <= s.now && forall u :: u in s.reg.armed && u != t ==> s.reg.owner[u] != id
  {
    if Unwatched(s.reg, id) {
      assert t !in s.reg.armed;
    }
  }

  /** Exactly when Register loses its entry. It starts the timer at s.now, any operations at all come in
      between, and then it inserts the entry; whatever timers and callbacks about the worker were due
      are through. The entry is lost track of if and only if deadTimeout has passed since the timer was
      started, and no other timer about the worker is armed. */
  lemma LateInsertIsLostExactly(s: System, deadTimeout: nat, info: WorkerInfo, readAt: int, es: seq<Event>)
    requires Timers(s.reg)
    requires var started := s.(reg := StartTimer(s.reg, deadTimeout, info.workerId, s.now));
             IsSettled(RunFrom(started, deadTimeout, es), info.workerId)
    ensures var started := s.(reg := StartTimer(s.reg, deadTimeout, info.workerId, s.now));
            var s' := RunFrom(started, deadTimeout, es);
            && Timers(s'.reg)
            && (LostTrack(Insert(s'.reg, Fresh(info, s.reg.next, readAt)), info.workerId) <==>
                && s.now + deadTimeout <= s'.now
                && forall t :: t in s'.reg.armed && t != s.reg.next ==> s'.reg.owner[t] != info.workerId)
  {
    var t, id := s.reg.next, info.workerId;
    var started := s.(reg := StartTimer(s.reg, deadTimeout, id, s.now));
    assert IsPending(started, t, id, s.now + deadTimeout);
    RunKeepsPending(started, deadTimeout, es, t, id, s.now + deadTimeout);
    var s' := RunFrom(started, deadTimeout, es);
    PendingTellsLoss(s', t, id, s.now + deadTimeout);
    InsertKeepsWatch(s'.reg, info, t, readAt);
  }

  lemma TimerComesAndGoes(r: Fleet, deadTimeout: nat, id: string, startAt: int, firedAt: int, ranAt: int)
    requires Timers(r) && startAt + deadTimeout <= firedAt
    ensures var fired := FireStep(StartTimer(r, deadTimeout, id, startAt), r.next, firedAt);
            var r' := RunCallbackStep(fired, deadTimeout, |r.callbacks|, ranAt);
            r'.callbacks == r.callbacks && r'.armed == r.armed && r'.owner == r.owner[r.next := id]
  {
    var fired := FireStep(StartTimer(r, deadTimeout, id, startAt), r.next, firedAt);
    assert fired.callbacks == r.callbacks + [Callback(id, firedAt)];
    assert fired.callbacks[..|r.callbacks|] + fired.callbacks[|r.callbacks| + 1..] == r.callbacks;
    assert fired.armed == r.armed;
  }

  /** In particular if just the timer's own firing and its callback come in between. */
  lemma EarlyTimerLosesTheEntry(
      r: Fleet, deadTimeout: nat, info: WorkerInfo, readAt: int, startAt: int, firedAt: int, ranAt: int)
    requires Timers(r) && Unwatched(r, info.workerId) && startAt + deadTimeout <= firedAt
    ensures var fired := FireStep(StartTimer(r, deadTimeout, info.workerId, startAt), r.next, firedAt);
            var r' := RunCallbackStep(fired, deadTimeout, |r.callbacks|, ranAt);
            LostTrack(Insert(r', Fresh(info, r.next, readAt)), info.workerId)
  {
    var started := StartTimer(r, deadTimeout, info.workerId, startAt);
    var fired := FireStep(started, r.next, firedAt);
    var r' := RunCallbackStep(fired, deadTimeout, |r.callbacks|, ranAt);
    TimerComesAndGoes(r, deadTimeout, info.workerId, startAt, firedAt, ranAt);
    ApplyKeepsTimers(started, deadTimeout, Fire(r.next), firedAt);
    ApplyKeepsTimers(fired, deadTimeout, RunCallback(|r.callbacks|), ranAt);
    InsertKeepsWatch(r', info, r.next, readAt);
  }
}
