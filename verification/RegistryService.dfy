/** The registry as the object it is (control-plane/registry/registry.go): a map of entries that
    are updated in place, with deadline timers in the run-time system. Every method is tied to the
    step function of Membership that the whole-run theorems are about. */
module RegistryService {
  import opened Membership
  import opened Options
  import opened Catalogue

  /** The timers of the Go run-time system. A timer keeps the function it was made with, here the
      worker markDead will be called for. */
  class Timers {
    var owner: map<nat, string>
    var armed: map<nat, int>
    var callbacks: seq<Callback>
    var next: nat

    constructor ()
      ensures owner == map[] && armed == map[] && callbacks == [] && next == 0
    {
      owner, armed, callbacks, next := map[], map[], [], 0;
    }

    method AfterFunc(workerId: string, due: int) returns (t: nat)
      modifies this
      ensures t == old(next) && next == t + 1
      ensures owner == old(owner)[t := workerId] && armed == old(armed)[t := due]
      ensures callbacks == old(callbacks)
    {
      t := next;
      owner, armed, next := owner[t := workerId], armed[t := due], t + 1;
    }

    method Reset(t: nat, due: int)
      modifies this`armed
      ensures armed == old(armed)[t := due]
    {
      armed := armed[t := due];
    }

    method Stop(t: nat)
      modifies this`armed
      ensures armed == old(armed) - {t}
    {
      armed := armed - {t};
    }
  }

  class WorkerEntry {
    var info: WorkerInfo
    var state: WorkerState
    var lastHeartbeat: int
    var registeredAt: int
    var load: LoadReport
    var drainRequested: bool
    var markedDeadAt: Option<int>
    var deadlineTimer: nat

    constructor (info: WorkerInfo, timer: nat, now: int)
      ensures View() == Fresh(info, timer, now)
    {
      this.info, state, lastHeartbeat, registeredAt := info, STARTING, now, now;
      load, drainRequested, markedDeadAt, deadlineTimer := LoadReport(info.workerId, 0), false, None, timer;
    }

    /** What an accepted heartbeat does to the entry. */
    method Beat(state: WorkerState, now: int)
      modifies this
      ensures View() == old(View()).(lastHeartbeat := now, state := state)
    {
      lastHeartbeat := now;
      if this.state != state {
        this.state := state;
      }
    }

    function View(): Entry
      reads this
    {
      Entry(info, state, lastHeartbeat, registeredAt, load, drainRequested, markedDeadAt, deadlineTimer)
    }
  }

  /** Updating one entry in place changes one entry of the map of values. */
  lemma UpdatedEntries(before: map<string, Entry>, after: map<string, Entry>, id: string, e: Entry)
    requires id in before && after.Keys == before.Keys && after[id] == e
    requires forall x :: x in before && x != id ==> after[x] == before[x]
    ensures after == before[id := e]
  {
  }

  class Registry {
    var workers: map<string, WorkerEntry>
    const deadTimeout: nat
    const timers: Timers

    ghost predicate Valid()
      reads this, workers.Values
    {
      && (forall id, id' :: id in workers && id' in workers && workers[id] == workers[id'] ==> id == id')
      && (forall id :: id in workers ==> workers[id].info.workerId == id)
    }

    ghost function View(): Fleet
      reads this, workers.Values, timers
    {
      Fleet(Entries(), timers.owner, timers.armed, timers.callbacks, timers.next)
    }

    ghost function Entries(): map<string, Entry>
      reads this, workers.Values
    {
      map id | id in workers :: workers[id].View()
    }

    constructor (deadTimeout: nat)
      ensures Valid() && View() == EMPTY && this.deadTimeout == deadTimeout && fresh(timers)
    {
      this.deadTimeout := deadTimeout;
      workers := map[];
      timers := new Timers();
    }

    method Register(info: WorkerInfo, now: int) returns (reply: Reply)
      requires Valid()
      modifies this, timers
      ensures Valid()
      ensures forall e :: e in workers.Values ==> e in old(workers.Values) || fresh(e)
      ensures (View(), reply) == RegisterStep(old(View()), deadTimeout, info, now)
      ensures reply == Ok <==> info.workerId != "" && info.address != ""
      ensures reply != Ok ==> View() == old(View())
      ensures reply == Ok ==>
                var load := LoadReport(info.workerId, 0);
                var entry := Entry(info, STARTING, now, now, load, false, None, old(timers.next));
                Entries() == old(Entries())[info.workerId := entry]
      ensures reply == Ok ==>
                && timers.owner == old(timers.owner)[old(timers.next) := info.workerId]
                && timers.armed == old(timers.armed)[old(timers.next) := now + deadTimeout]
    {
      if info.workerId == "" || info.address == "" {
        return InvalidArgument;
      }
      var t := timers.AfterFunc(info.workerId, now + deadTimeout);
      var entry := new WorkerEntry(info, t, now);
      workers := workers[info.workerId := entry];
      assert Entries() == old(Entries())[info.workerId := Fresh(info, t, now)];
      reply := Ok;
    }

    /** The accepted heartbeat: reset the timer, update the entry. */
    method Refresh(id: string, state: WorkerState, resetAt: int, readAt: int)
      requires Valid() && id in workers
      modifies workers[id], timers`armed
      ensures Valid()
      ensures Entries() == old(Entries())[id := old(Entries())[id].(lastHeartbeat := readAt, state := state)]
      ensures timers.armed == old(timers.armed)[old(workers[id].deadlineTimer) := resetAt + deadTimeout]
    {
      ghost var before := Entries();
      var entry := workers[id];
      timers.Reset(entry.deadlineTimer, resetAt + deadTimeout);
      entry.Beat(state, readAt);
      UpdatedEntries(before, Entries(), id, before[id].(lastHeartbeat := readAt, state := state));
    }

    /** Takes two clock readings: the timer's own at the reset, and one for LastHeartbeat. */
    method Heartbeat(id: string, state: WorkerState, resetAt: int, readAt: int) returns (reply: Reply)
      requires Valid()
      modifies workers.Values, timers
      ensures Valid()
      ensures View() == HeartbeatStep(old(View()), deadTimeout, id, state, resetAt, readAt).0
      ensures reply == HeartbeatStep(old(View()), deadTimeout, id, state, resetAt, readAt).1
      ensures reply == NotFound <==> id !in old(Entries())
      ensures id in old(Entries()) ==>
                var from := old(Entries())[id].state;
                reply.HeartbeatOk? <==>
                  from == state || (from, state) in {(STARTING, READY), (READY, BUSY), (BUSY, READY),
                                                     (READY, DRAINING), (BUSY, DRAINING)}
      ensures reply.HeartbeatOk? ==> reply.drain == old(Entries())[id].drainRequested
      ensures reply.HeartbeatOk? ==>
                && Entries() == old(Entries())[id := old(Entries())[id].(lastHeartbeat := readAt, state := state)]
                && timers.armed == old(timers.armed)[old(Entries())[id].timer := resetAt + deadTimeout]
      ensures !reply.HeartbeatOk? ==> View() == old(View())
    {
      if id !in workers {
        return NotFound;
      }
      var entry := workers[id];
      assert Entries()[id] == entry.View();
      TransitionsAreThese(entry.state, state);
      if !ValidTransition(entry.state, state) {
        return InvalidArgument;
      }
      Refresh(id, state, resetAt, readAt);
      assert Entries()[id] == entry.View();
      reply := HeartbeatOk(entry.drainRequested);
    }

    method Deregister(id: string) returns (reply: Reply)
      requires Valid()
      modifies this, timers
      ensures Valid() && workers.Values <= old(workers.Values)
      ensures (View(), reply) == RemoveStep(old(View()), id)
      ensures Entries() == old(Entries()) - {id} && (reply == Ok <==> id in old(Entries()))
      ensures reply == Ok ==> timers.armed == old(timers.armed) - {old(Entries())[id].timer}
    {
      if id !in workers {
        return NotFound;
      }
      timers.Stop(workers[id].deadlineTimer);
      workers := workers - {id};
      assert Entries() == old(Entries()) - {id};
      reply := Ok;
    }

    method ReportLoad(report: LoadReport) returns (reply: Reply)
      requires Valid()
      modifies workers.Values
      ensures Valid()
      ensures (View(), reply) == ReportLoadStep(old(View()), report)
      ensures reply == Ok <==> report.workerId in old(Entries())
      ensures reply == Ok ==>
                Entries() == old(Entries())[report.workerId := old(Entries())[report.workerId].(load := report)]
    {
      if report.workerId !in workers {
        return NotFound;
      }
      var entry := workers[report.workerId];
      entry.load := report;
      assert Entries() == old(Entries())[report.workerId := entry.View()];
      reply := Ok;
    }

    method RequestDrain(id: string) returns (reply: Reply)
      requires Valid()
      modifies workers.Values
      ensures Valid()
      ensures (View(), reply) == RequestDrainStep(old(View()), id)
      ensures reply == Ok <==> id in old(Entries())
      ensures reply == Ok ==> Entries() == old(Entries())[id := old(Entries())[id].(drainRequested := true)]
    {
      if id !in workers {
        return NotFound;
      }
      var entry := workers[id];
      entry.drainRequested := true;
      assert Entries() == old(Entries())[id := entry.View()];
      reply := Ok;
    }

    method Evict(id: string) returns (reply: Reply)
      requires Valid()
      modifies this, timers
      ensures Valid() && workers.Values <= old(workers.Values)
      ensures (View(), reply) == RemoveStep(old(View()), id)
      ensures Entries() == old(Entries()) - {id} && (reply == Ok <==> id in old(Entries()))
      ensures reply == Ok ==> timers.armed == old(timers.armed) - {old(Entries())[id].timer}
    {
      if id !in workers {
        return NotFound;
      }
      timers.Stop(workers[id].deadlineTimer);
      workers := workers - {id};
      assert Entries() == old(Entries()) - {id};
      reply := Ok;
    }

    method MarkDead(id: string, now: int)
      requires Valid()
      modifies workers.Values
      ensures Valid()
      ensures View() == MarkDeadStep(old(View()), deadTimeout, id, now)
      ensures if id in old(Entries()) && old(Entries())[id].state != DEAD
                 && now - old(Entries())[id].lastHeartbeat >= deadTimeout
              then Entries() == old(Entries())[id := old(Entries())[id].(state := DEAD, markedDeadAt := Some(now))]
              else View() == old(View())
    {
      if id !in workers || workers[id].state == DEAD {
        return;
      }
      var entry := workers[id];
      if now - entry.lastHeartbeat < deadTimeout {
        return;
      }
      entry.state := DEAD;
      entry.markedDeadAt := Some(now);
      assert Entries() == old(Entries())[id := entry.View()];
    }

    // -------------------------------------------------------------- reading

    method GetWorker(id: string) returns (e: Option<Entry>)
      ensures e == if id in Entries() then Some(Entries()[id]) else None
    {
      e := if id in workers then Some(workers[id].View()) else None;
    }

    /** A snapshot in whatever order the map is walked: every worker once. */
    method ListWorkers() returns (out: seq<Entry>)
      requires Valid()
      ensures IsSnapshot(Entries(), out)
    {
      out := [];
      var todo := workers.Keys;
      while todo != {}
        invariant todo <= workers.Keys
        invariant forall i, j :: 0 <= i < j < |out| ==> out[i].info.workerId != out[j].info.workerId
        invariant forall e :: e in out <==>
                    e.info.workerId in Entries() && e.info.workerId !in todo && Entries()[e.info.workerId] == e
      {
        var id :| id in todo;
        out := out + [workers[id].View()];
        todo := todo - {id};
      }
    }

    /** The healthy workers that have the model loaded, each once: the router's candidates. */
    method HealthyWorkersForModel(model: string) returns (out: seq<Entry>)
      requires Valid()
      ensures forall i, j :: 0 <= i < j < |out| ==> out[i].info.workerId != out[j].info.workerId
      ensures forall e :: e in out <==> e.info.workerId in Servers(Entries(), model) && Entries()[e.info.workerId] == e
      ensures forall e :: e in out <==>
                && e.info.workerId in Entries() && Entries()[e.info.workerId] == e
                && (e.state == READY || e.state == BUSY) && model in e.info.modelsLoaded
    {
      out := [];
      var todo := workers.Keys;
      while todo != {}
        invariant todo <= workers.Keys
        invariant forall i, j :: 0 <= i < j < |out| ==> out[i].info.workerId != out[j].info.workerId
        invariant forall e :: e in out <==>
                    e.info.workerId in Servers(Entries(), model) && e.info.workerId !in todo
                    && Entries()[e.info.workerId] == e
      {
        var id :| id in todo;
        todo := todo - {id};
        var e := workers[id];
        if e.state != READY && e.state != BUSY {
          continue;
        }
        var found := false;
        for j := 0 to |e.info.modelsLoaded|
          invariant !found && forall i :: 0 <= i < j ==> e.info.modelsLoaded[i] != model
        {
          if e.info.modelsLoaded[j] == model {
            found := true;
            break;
          }
        }
        assert found <==> Loads(Entries()[id], model);
        if found {
          out := out + [e.View()];
        }
      }
    }

    method WorkerCount() returns (total: nat, healthy: nat)
      ensures total == |Entries()| && healthy == |HealthyIds(Entries())|
      ensures healthy == |set id | id in Entries() && (Entries()[id].state == READY || Entries()[id].state == BUSY)|
    {
      total, healthy := 0, 0;
      var todo := workers.Keys;
      ghost var w, seen: set<string> := Entries(), {};
      while todo != {}
        invariant seen !! todo && seen + todo == w.Keys && total == |seen|
        invariant healthy == |HealthyAmong(w, seen)|
      {
        var id :| id in todo;
        HealthyAmongGrows(w, seen, id);
        todo, seen := todo - {id}, seen + {id};
        total := total + 1;
        if workers[id].state == READY || workers[id].state == BUSY {
          healthy := healthy + 1;
        }
      }
      assert seen == w.Keys && HealthyAmong(w, seen) == HealthyIds(w);
      assert HealthyIds(w) == set id | id in w && (w[id].state == READY || w[id].state == BUSY);
    }

    /** One line per distinct model, with its counts. */
    method ModelsServed() returns (out: seq<ModelStat>)
      ensures forall i, j :: 0 <= i < j < |out| ==> out[i].model != out[j].model
      ensures forall s :: s in out ==> s == StatOf(Entries(), s.model)
      ensures forall model :: Listed(Entries(), model) <==> StatOf(Entries(), model) in out
    {
      var m := CountModels();
      out := [];
      var todo := m.Keys;
      while todo != {}
        invariant todo <= m.Keys
        invariant forall i, j :: 0 <= i < j < |out| ==> out[i].model != out[j].model
        invariant forall s :: s in out <==>
                    s.model in m && s.model !in todo && s == ModelStat(s.model, m[s.model].total, m[s.model].healthy)
      {
        var model :| model in todo;
        out := out + [ModelStat(model, m[model].total, m[model].healthy)];
        todo := todo - {model};
      }
      forall model ensures Listed(Entries(), model) <==> StatOf(Entries(), model) in out {
        AllTallied(Entries(), m, model);
      }
      forall s | s in out ensures s == StatOf(Entries(), s.model) {
        AllTallied(Entries(), m, s.model);
      }
    }

    /** The counting loops of ModelsServed. */
    method CountModels() returns (m: map<string, Counts>)
      ensures Tallied(Entries(), Positions(Entries(), Entries().Keys), m)
    {
      m := map[];
      var todo := workers.Keys;
      ghost var w, done: set<string> := Entries(), {};
      ghost var seen: set<(string, nat)> := {};
      while todo != {}
        invariant done !! todo && done + todo == w.Keys
        invariant seen == Positions(w, done) && Tallied(w, seen, m)
      {
        var id :| id in todo;
        var e := workers[id];
        var healthy := e.state == READY || e.state == BUSY;
        ghost var before := seen;
        for j := 0 to |e.info.modelsLoaded|
          invariant seen == before + Row(id, j) && Tallied(w, seen, m)
        {
          RowGrows(id, j);
          TallyOne(w, seen, m, id, j);
          m := CountOne(m, e.info.modelsLoaded[j], healthy);
          seen := seen + {(id, j)};
        }
        RowsMakePositions(w, done, id);
        todo, done := todo - {id}, done + {id};
      }
      assert done == w.Keys;
    }
  }
}
