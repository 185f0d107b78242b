/** Fleet membership (control-plane/registry/registry.go) on values: register, heartbeat, deregister,
    drain, evict, and death by deadline timer. A handler runs under the lock, so each is one step;
    timers fire, and their callbacks get the lock, whenever they like. MembershipRuns is about whole
    runs of these steps. */
module Membership {
  import opened Options

  datatype WorkerState = STARTING | READY | BUSY | DRAINING | DEAD

  datatype WorkerInfo = WorkerInfo(workerId: string, address: string, modelsLoaded: seq<string>, costPerHour: real)

  datatype LoadReport = LoadReport(workerId: string, queueDepth: nat)

  /** `timer` is the number of the entry's deadline timer. Every Register starts a new timer, so it
      also tells one incarnation of a worker from the next. */
  datatype Entry = Entry(
    info: WorkerInfo,
    state: WorkerState,
    lastHeartbeat: int,
    registeredAt: int,
    load: LoadReport,
    drainRequested: bool,
    markedDeadAt: Option<int>,
    timer: nat)

  /** A timer that fired: its goroutine is about to call markDead. */
  datatype Callback = Callback(workerId: string, firedAt: int)

  /** The registry together with the timers of the run-time system: for every timer ever started
      the worker its callback is about, for every armed one the instant it is due. */
  datatype Fleet = Fleet(
    workers: map<string, Entry>,
    owner: map<nat, string>,
    armed: map<nat, int>,
    callbacks: seq<Callback>,
    next: nat)

  const EMPTY := Fleet(map[], map[], map[], [], 0)

  datatype Reply =
    | Ok
    | HeartbeatOk(drain: bool)
    | InvalidArgument
    | NotFound

  predicate ValidTransition(from: WorkerState, to: WorkerState) {
    from == to ||
    match from
    case STARTING => to == READY
    case READY => to == BUSY || to == DRAINING
    case BUSY => to == READY || to == DRAINING
    case DRAINING => false
    case DEAD => false
  }

  lemma TransitionsAreThese(from: WorkerState, to: WorkerState)
    ensures ValidTransition(from, to) <==>
            from == to || (from, to) in {(STARTING, READY), (READY, BUSY), (BUSY, READY),
                                         (READY, DRAINING), (BUSY, DRAINING)}
  {
  }

  function Fresh(info: WorkerInfo, timer: nat, now: int): Entry {
    Entry(info, STARTING, now, now, LoadReport(info.workerId, 0), false, None, timer)
  }

  function RegisterStep(r: Fleet, deadTimeout: nat, info: WorkerInfo, now: int): (Fleet, Reply) {
    if info.workerId == "" || info.address == "" then (r, InvalidArgument)
    else
      (Fleet(r.workers[info.workerId := Fresh(info, r.next, now)],
             r.owner[r.next := info.workerId],
             r.armed[r.next := now + deadTimeout],
             r.callbacks,
             r.next + 1),
       Ok)
  }

  /** The timer is reset at one instant, and LastHeartbeat is read from the clock at a later one. */
  function HeartbeatStep(
      r: Fleet, deadTimeout: nat, id: string, state: WorkerState, resetAt: int, readAt: int): (Fleet, Reply)
  {
    if id !in r.workers then (r, NotFound)
    else
      var e := r.workers[id];
      if !ValidTransition(e.state, state) then (r, InvalidArgument)
      else
        (r.(workers := r.workers[id := e.(lastHeartbeat := readAt, state := state)],
            armed := r.armed[e.timer := resetAt + deadTimeout]),
         HeartbeatOk(e.drainRequested))
  }

  /** Deregister and Evict: stop the entry's own timer, forget the entry. */
  function RemoveStep(r: Fleet, id: string): (Fleet, Reply) {
    if id !in r.workers then (r, NotFound)
    else (r.(workers := r.workers - {id}, armed := r.armed - {r.workers[id].timer}), Ok)
  }

  function ReportLoadStep(r: Fleet, report: LoadReport): (Fleet, Reply) {
    if report.workerId !in r.workers then (r, NotFound)
    else
      (r.(workers := r.workers[report.workerId := r.workers[report.workerId].(load := report)]), Ok)
  }

  function RequestDrainStep(r: Fleet, id: string): (Fleet, Reply) {
    if id !in r.workers then (r, NotFound)
    else (r.(workers := r.workers[id := r.workers[id].(drainRequested := true)]), Ok)
  }

  function MarkDeadStep(r: Fleet, deadTimeout: nat, id: string, now: int): Fleet {
    if id !in r.workers || r.workers[id].state == DEAD || now - r.workers[id].lastHeartbeat < deadTimeout then r
    else r.(workers := r.workers[id := r.workers[id].(state := DEAD, markedDeadAt := Some(now))])
  }

  /** A due timer fires: it is no longer armed, and its callback waits for the lock. */
  function FireStep(r: Fleet, t: nat, now: int): Fleet {
    if t in r.armed && t in r.owner && r.armed[t] <= now then
      r.(armed := r.armed - {t}, callbacks := r.callbacks + [Callback(r.owner[t], now)])
    else r
  }

  /** Some waiting callback gets the lock; not necessarily the one that fired first. */
  function RunCallbackStep(r: Fleet, deadTimeout: nat, i: nat, now: int): Fleet {
    if i >= |r.callbacks| then r
    else
      MarkDeadStep(r.(callbacks := r.callbacks[..i] + r.callbacks[i + 1..]), deadTimeout, r.callbacks[i].workerId, now)
  }

  /** The scaler's test: marked DEAD at least deadGrace ago (control-plane/scaler/scaler.go:112-121). */
  predicate LongDead(deadGrace: int, e: Entry, now: int) {
    e.state == DEAD && e.markedDeadAt.Some? && now - e.markedDeadAt.value >= deadGrace
  }
}
