/** One sweep of the fleet scaler as it is written (control-plane/scaler/scaler.go:82-133), run
    without interference; ScalerInterleaving is about the interference. */
module FleetScaling {
  import opened Membership
  import opened Options
  import opened Catalogue
  import RegistryService

  /** A call of OnWorkerEvicted. */
  datatype Notice = Notice(workerId: string, models: seq<string>)

  class Scaler {
    const reg: RegistryService.Registry
    const deadGrace: int
    const minHealthy: int
    const notifies: bool          // OnWorkerEvicted is set
    var notices: seq<Notice>

    constructor (reg: RegistryService.Registry, deadGrace: int, minHealthy: int, notifies: bool)
      ensures this.reg == reg && this.deadGrace == deadGrace && this.minHealthy == minHealthy
      ensures this.notifies == notifies && notices == []
    {
      this.reg, this.deadGrace, this.minHealthy, this.notifies := reg, deadGrace, minHealthy, notifies;
      notices := [];
    }

    /** What Evict does to the entries. */
    method EvictEntry(id: string) returns (reply: Reply)
      requires reg.Valid()
      modifies reg, reg.timers
      ensures reg.Valid()
      ensures reg.Entries() == old(reg.Entries()) - {id}
      ensures reply == Ok <==> id in old(reg.Entries())
    {
      ghost var before := reg.View();
      reply := reg.Evict(id);
      assert reg.Entries() == reg.View().workers && before.workers == old(reg.Entries());
      assert reply != Ok ==> old(reg.Entries()) - {id} == old(reg.Entries());
    }

    /** Evicts the worker if the snapshot entry has been DEAD for long enough and somebody of that
        name is still there, and only then makes the callback. */
    method HandleDead(w: Entry, now: int)
      requires reg.Valid() && w.state == DEAD
      modifies this, reg, reg.timers
      ensures reg.Valid()
      ensures reg.Entries() == Without(old(reg.Entries()), w, now)
      ensures notices == old(notices) + if w.info.workerId in old(reg.Entries()) then NoticeOf(w, now) else []
      ensures if w.markedDeadAt.Some? && now - w.markedDeadAt.value >= deadGrace
                 && w.info.workerId in old(reg.Entries())
              then
                && reg.Entries() == old(reg.Entries()) - {w.info.workerId}
                && notices == old(notices) + if notifies then [Notice(w.info.workerId, w.info.modelsLoaded)] else []
              else reg.Entries() == old(reg.Entries()) && notices == old(notices)
    {
      if w.markedDeadAt == None {
        return;
      }
      var deadFor := now - w.markedDeadAt.value;
      if deadFor < deadGrace {
        return;
      }
      var reply := EvictEntry(w.info.workerId);
      if reply != Ok {
        return;
      }
      if notifies {
        notices := notices + [Notice(w.info.workerId, w.info.modelsLoaded)];
      }
    }

    /** Undisturbed, a sweep removes exactly the workers that have been DEAD for deadGrace when it looks
        at them (`clock` is what it then reads), makes exactly one callback for each, and warns about
        exactly the models for which the router has nobody left. */
    method Sweep(clock: string -> int) returns (belowMinimum: bool, unserved: seq<string>)
      requires reg.Valid()
      modifies this, reg, reg.timers
      ensures reg.Valid()
      ensures reg.Entries() == Remaining(old(reg.Entries()), clock)
      ensures forall id :: id in reg.Entries() <==>
                && id in old(reg.Entries())
                && var e := old(reg.Entries())[id];
                   !(e.state == DEAD && e.markedDeadAt.Some? && clock(id) - e.markedDeadAt.value >= deadGrace)
      ensures old(notices) <= notices && Announced(old(reg.Entries()), clock, notices[|old(notices)|..])
      ensures belowMinimum <==> reg.Entries() != map[] && |HealthyIds(reg.Entries())| < minHealthy
      ensures AreUnserved(reg.Entries(), unserved)
    {
      EvictDead(clock);
      belowMinimum, unserved := Warnings();
    }

    method EvictDead(clock: string -> int)
      requires reg.Valid()
      modifies this, reg, reg.timers
      ensures reg.Valid()
      ensures reg.Entries() == Remaining(old(reg.Entries()), clock)
      ensures old(notices) <= notices && Announced(old(reg.Entries()), clock, notices[|old(notices)|..])
    {
      var workers := reg.ListWorkers();
      AllHandled(reg.Entries(), workers, clock);
      AllStillThere(reg.Entries(), workers, clock);
      EvictLongDead(workers, clock);
      assert notices[|old(notices)|..] == NoticesOf(workers, clock);
    }

    /** The re-count after the evictions. */
    method Warnings() returns (belowMinimum: bool, unserved: seq<string>)
      ensures belowMinimum <==> reg.Entries() != map[] && |HealthyIds(reg.Entries())| < minHealthy
      ensures AreUnserved(reg.Entries(), unserved)
    {
      var total, currentHealthy := reg.WorkerCount();
      belowMinimum := total > 0 && currentHealthy < minHealthy;
      unserved := Unserved();
    }

    /** The switch on the state of one snapshot entry. */
    method Examine(w: Entry, now: int) returns (isHealthy: bool)
      requires reg.Valid() && w.info.workerId in reg.Entries()
      modifies this, reg, reg.timers
      ensures reg.Valid()
      ensures reg.Entries() == Without(old(reg.Entries()), w, now)
      ensures notices == old(notices) + NoticeOf(w, now)
      ensures isHealthy <==> Healthy(w)
    {
      if w.state == DEAD {
        HandleDead(w, now);
        return false;
      }
      isHealthy := w.state == READY || w.state == BUSY;
    }

    /** One turn of the loop over the snapshot. */
    method ExamineNext(
        ghost before: map<string, Entry>, ghost said: seq<Notice>, workers: seq<Entry>, i: nat, clock: string -> int)
      returns (isHealthy: bool)
      requires reg.Valid() && NobodyMissing(before, workers, clock) && i < |workers|
      requires reg.Entries() == Kept(before, workers[..i], clock) && notices == said + NoticesOf(workers[..i], clock)
      modifies this, reg, reg.timers
      ensures reg.Valid()
      ensures reg.Entries() == Kept(before, workers[..i + 1], clock)
      ensures notices == said + NoticesOf(workers[..i + 1], clock)
      ensures isHealthy <==> Healthy(workers[i])
    {
      HandleNext(before, workers, i, clock);
      isHealthy := Examine(workers[i], clock(workers[i].info.workerId));
    }

    /** The loop over the snapshot. */
    method EvictLongDead(workers: seq<Entry>, clock: string -> int)
      requires reg.Valid() && NobodyMissing(reg.Entries(), workers, clock)
      modifies this, reg, reg.timers
      ensures reg.Valid()
      ensures reg.Entries() == Kept(old(reg.Entries()), workers, clock)
      ensures notices == old(notices) + NoticesOf(workers, clock)
    {
      ghost var before, said := reg.Entries(), notices;
      var healthy := 0;
      for i := 0 to |workers|
        invariant reg.Valid()
        invariant reg.Entries() == Kept(before, workers[..i], clock)
        invariant notices == said + NoticesOf(workers[..i], clock)
      {
        var isHealthy := ExamineNext(before, said, workers, i, clock);
        if isHealthy {
          healthy := healthy + 1;
        }
      }
      assert workers[..|workers|] == workers;
    }

    method Unserved() returns (out: seq<string>)
      ensures AreUnserved(reg.Entries(), out)
    {
      var stats := reg.ModelsServed();
      out := [];
      for i := 0 to |stats|
        invariant forall model :: model in out <==>
                    exists k :: 0 <= k < i && stats[k].model == model && stats[k].healthyWorkers == 0
      {
        if stats[i].healthyWorkers == 0 {
          out := out + [stats[i].model];
        }
      }
      ghost var w := reg.Entries();
      forall model ensures model in out <==> Listed(w, model) && Servers(w, model) == {} {
        CatalogueAgreesWithRouting(w, model);
        if Listed(w, model) {
          assert StatOf(w, model) in stats;
        }
        forall k | 0 <= k < |stats| && stats[k].model == model ensures stats[k] == StatOf(w, model) {
          assert stats[k] in stats;
        }
      }
    }

    // -------------------------------------------------------------- what the loop does

    lemma HandleNext(before: map<string, Entry>, workers: seq<Entry>, i: nat, clock: string -> int)
      requires i < |workers|
      ensures var now := clock(workers[i].info.workerId);
              && Kept(before, workers[..i + 1], clock) == Without(Kept(before, workers[..i], clock), workers[i], now)
              && NoticesOf(workers[..i + 1], clock) == NoticesOf(workers[..i], clock) + NoticeOf(workers[i], now)
      ensures NobodyMissing(before, workers, clock) ==> workers[i].info.workerId in Kept(before, workers[..i], clock)
    {
      assert workers[..i + 1][..i] == workers[..i];
    }

    /** The workers left after these snapshot entries have been handled, in turn. */
    ghost function Kept(before: map<string, Entry>, handled: seq<Entry>, clock: string -> int): map<string, Entry> {
      if handled == [] then before
      else
        var n := |handled| - 1;
        Without(Kept(before, handled[..n], clock), handled[n], clock(handled[n].info.workerId))
    }

    /** After one entry has been handled. */
    ghost function Without(entries: map<string, Entry>, w: Entry, now: int): map<string, Entry> {
      if LongDead(deadGrace, w, now) then entries - {w.info.workerId} else entries
    }

    ghost function NoticeOf(w: Entry, now: int): seq<Notice> {
      if notifies && LongDead(deadGrace, w, now) then [Notice(w.info.workerId, w.info.modelsLoaded)] else []
    }

    predicate SeenLongDead(w: Entry, clock: string -> int) {
      LongDead(deadGrace, w, clock(w.info.workerId))
    }

    ghost function NoticesOf(handled: seq<Entry>, clock: string -> int): seq<Notice> {
      if handled == [] then []
      else
        var n := |handled| - 1;
        NoticesOf(handled[..n], clock) + NoticeOf(handled[n], clock(handled[n].info.workerId))
    }

    /** Handling others does not remove a worker. */
    lemma {:induction false} OthersStay(
        before: map<string, Entry>, handled: seq<Entry>, clock: string -> int, id: string)
      requires forall k :: 0 <= k < |handled| ==> handled[k].info.workerId != id
      ensures id in before <==> id in Kept(before, handled, clock)
      ensures id in before ==> Kept(before, handled, clock)[id] == before[id]
    {
      if handled != [] {
        OthersStay(before, handled[..|handled| - 1], clock, id);
      }
    }

    /** Each worker is still there when its turn comes. */
    ghost predicate NobodyMissing(before: map<string, Entry>, workers: seq<Entry>, clock: string -> int) {
      forall i :: 0 <= i < |workers| ==> workers[i].info.workerId in Kept(before, workers[..i], clock)
    }

    lemma AllStillThere(before: map<string, Entry>, workers: seq<Entry>, clock: string -> int)
      requires IsSnapshot(before, workers)
      ensures NobodyMissing(before, workers, clock)
    {
      forall i | 0 <= i < |workers| ensures workers[i].info.workerId in Kept(before, workers[..i], clock) {
        assert workers[i] in workers;
        OthersStay(before, workers[..i], clock, workers[i].info.workerId);
      }
    }

    // -------------------------------------------------------------- and what that amounts to

    /** What a sweep leaves and what it says, without the snapshot. */
    ghost function Remaining(before: map<string, Entry>, clock: string -> int): map<string, Entry> {
      map id | id in before && !LongDead(deadGrace, before[id], clock(id)) :: before[id]
    }

    ghost predicate Announced(before: map<string, Entry>, clock: string -> int, said: seq<Notice>) {
      && (!notifies ==> said == [])
      && Distinct(said)
      && (notifies ==> forall n :: n in said <==>
            n.workerId in before && LongDead(deadGrace, before[n.workerId], clock(n.workerId))
            && n.models == before[n.workerId].info.modelsLoaded)
    }

    lemma {:induction false} KeptById(before: map<string, Entry>, handled: seq<Entry>, clock: string -> int, id: string)
      requires forall k :: 0 <= k < |handled| && handled[k].info.workerId == id ==>
                 id in before && handled[k] == before[id]
      ensures id in Kept(before, handled, clock) <==>
              id in before && !(before[id] in handled && before[id].info.workerId == id
                                && LongDead(deadGrace, before[id], clock(id)))
      ensures id in Kept(before, handled, clock) ==> Kept(before, handled, clock)[id] == before[id]
    {
      if handled != [] {
        var n := |handled| - 1;
        KeptById(before, handled[..n], clock, id);
        assert handled == handled[..n] + [handled[n]];
      }
    }

    /** Notices come from handled entries. */
    lemma {:induction false} NoticesCome(handled: seq<Entry>, clock: string -> int)
      ensures forall n :: n in NoticesOf(handled, clock) <==>
                notifies && exists k :: 0 <= k < |handled| && SeenLongDead(handled[k], clock)
                                        && n == Notice(handled[k].info.workerId, handled[k].info.modelsLoaded)
      ensures !notifies ==> NoticesOf(handled, clock) == []
    {
      if handled != [] {
        var n := |handled| - 1;
        NoticesCome(handled[..n], clock);
        assert handled == handled[..n] + [handled[n]];
      }
    }

    ghost predicate Distinct(said: seq<Notice>) {
      forall i, j :: 0 <= i < j < |said| ==> said[i].workerId != said[j].workerId
    }

    lemma {:induction false} NoticesDiffer(handled: seq<Entry>, clock: string -> int)
      requires forall i, j :: 0 <= i < j < |handled| ==> handled[i].info.workerId != handled[j].info.workerId
      ensures Distinct(NoticesOf(handled, clock))
    {
      if handled != [] {
        var n := |handled| - 1;
        var front := handled[..n];
        var sofar, all := NoticesOf(front, clock), NoticesOf(handled, clock);
        NoticesDiffer(front, clock);
        NoticesCome(front, clock);
        forall i | 0 <= i < |sofar| ensures sofar[i].workerId != handled[n].info.workerId {
          assert sofar[i] in sofar;
          var k :| 0 <= k < |front| && sofar[i] == Notice(front[k].info.workerId, front[k].info.modelsLoaded);
          assert front[k] == handled[k];
        }
        assert all == sofar || all == sofar + [Notice(handled[n].info.workerId, handled[n].info.modelsLoaded)];
      }
    }

    lemma AllHandled(before: map<string, Entry>, workers: seq<Entry>, clock: string -> int)
      requires IsSnapshot(before, workers)
      ensures Kept(before, workers, clock) == Remaining(before, clock)
      ensures Announced(before, clock, NoticesOf(workers, clock))
    {
      forall id ensures id in Kept(before, workers, clock) <==> id in Remaining(before, clock)
        ensures id in Kept(before, workers, clock) ==> Kept(before, workers, clock)[id] == before[id]
      {
        forall k | 0 <= k < |workers| && workers[k].info.workerId == id
          ensures id in before && workers[k] == before[id]
        {
          assert workers[k] in workers;
        }
        KeptById(before, workers, clock, id);
      }
      NoticesCome(workers, clock);
      NoticesDiffer(workers, clock);
      var said := NoticesOf(workers, clock);
      if notifies {
        forall n ensures n in said <==> n.workerId in before
                                        && LongDead(deadGrace, before[n.workerId], clock(n.workerId))
                                        && n.models == before[n.workerId].info.modelsLoaded
        {
          NoticeIsForDead(before, workers, clock, n);
        }
      }
    }

    lemma NoticeIsForDead(before: map<string, Entry>, workers: seq<Entry>, clock: string -> int, n: Notice)
      requires IsSnapshot(before, workers)
      ensures (exists k :: 0 <= k < |workers| && SeenLongDead(workers[k], clock)
                           && n == Notice(workers[k].info.workerId, workers[k].info.modelsLoaded)) <==>
              n.workerId in before && LongDead(deadGrace, before[n.workerId], clock(n.workerId))
              && n.models == before[n.workerId].info.modelsLoaded
    {
      if k :| 0 <= k < |workers| && SeenLongDead(workers[k], clock)
              && n == Notice(workers[k].info.workerId, workers[k].info.modelsLoaded)
      {
        assert workers[k] in workers;
      }
      if n.workerId in before {
        assert before[n.workerId] in workers;
        var k :| 0 <= k < |workers| && workers[k] == before[n.workerId];
      }
    }
  }
}
