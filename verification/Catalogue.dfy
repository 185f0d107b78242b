/** Who serves which model (control-plane/registry/registry.go:261-280, 335-368), as sets over the
    entries, so that no iteration order matters. */
module Catalogue {
  import opened Membership

  /** The workers in some order, each once. */
  ghost predicate IsSnapshot(w: map<string, Entry>, workers: seq<Entry>) {
    && (forall i, j :: 0 <= i < j < |workers| ==> workers[i].info.workerId != workers[j].info.workerId)
    && (forall e :: e in workers <==> e.info.workerId in w && w[e.info.workerId] == e)
    && (forall id :: id in w ==> w[id].info.workerId == id)
  }

  predicate Healthy(e: Entry) {
    e.state == READY || e.state == BUSY
  }

  predicate Loads(e: Entry, model: string) {
    exists j :: 0 <= j < |e.info.modelsLoaded| && e.info.modelsLoaded[j] == model
  }

  /** The workers the router may choose from. */
  function Servers(w: map<string, Entry>, model: string): set<string> {
    set id | id in w && Healthy(w[id]) && Loads(w[id], model)
  }

  /** All that have it loaded, whatever their state. */
  function Loaders(w: map<string, Entry>, model: string): set<string> {
    set id | id in w && Loads(w[id], model)
  }

  /** Every place at which one of these workers lists the model. */
  function Places(w: map<string, Entry>, ids: set<string>, model: string): set<(string, nat)> {
    set id, j | id in ids && id in w && 0 <= j < |w[id].info.modelsLoaded|
                && w[id].info.modelsLoaded[j] == model :: (id, j)
  }

  function HealthyIds(w: map<string, Entry>): set<string> {
    set id | id in w && Healthy(w[id])
  }

  /** One line of the catalogue. */
  datatype ModelStat = ModelStat(model: string, totalWorkers: nat, healthyWorkers: nat)

  function StatOf(w: map<string, Entry>, model: string): ModelStat {
    ModelStat(model, |Places(w, w.Keys, model)|, |Places(w, HealthyIds(w), model)|)
  }

  predicate Listed(w: map<string, Entry>, model: string) {
    exists id :: id in w && Loads(w[id], model)
  }

  /** The models that are in the catalogue and that nobody can serve. */
  ghost predicate AreUnserved(w: map<string, Entry>, models: seq<string>) {
    forall model :: model in models <==> Listed(w, model) && Servers(w, model) == {}
  }

  predicate ListsTwice(e: Entry, model: string) {
    exists i, j :: 0 <= i < j < |e.info.modelsLoaded| && e.info.modelsLoaded[i] == model == e.info.modelsLoaded[j]
  }

  lemma PlacesOfOne(w: map<string, Entry>, id: string, model: string)
    requires id in w && Loads(w[id], model)
    ensures |Places(w, {id}, model)| >= 1
    ensures |Places(w, {id}, model)| == 1 <==> !ListsTwice(w[id], model)
  {
    var j :| 0 <= j < |w[id].info.modelsLoaded| && w[id].info.modelsLoaded[j] == model;
    var places := Places(w, {id}, model);
    assert (id, j) in places;
    var rest := places - {(id, j)};
    assert |places| == |rest| + 1;
    if ListsTwice(w[id], model) {
      var models := w[id].info.modelsLoaded;
      var a, b :| 0 <= a < b < |models| && models[a] == model == models[b];
      assert (id, a) in places && (id, b) in places;
      assert (id, if a == j then b else a) in rest;
    } else {
      assert rest == {};
    }
  }

  /** At least one place per worker, and exactly one unless some worker lists the model twice. */
  lemma {:induction false} PlacesPerWorker(w: map<string, Entry>, ids: set<string>, model: string)
    requires forall id :: id in ids ==> id in w && Loads(w[id], model)
    ensures |Places(w, ids, model)| >= |ids|
    ensures |Places(w, ids, model)| == |ids| <==> forall id :: id in ids ==> !ListsTwice(w[id], model)
    decreases |ids|
  {
    if ids == {} {
      assert Places(w, ids, model) == {};
    } else {
      var x :| x in ids;
      var rest := ids - {x};
      PlacesPerWorker(w, rest, model);
      PlacesOfOne(w, x, model);
      assert Places(w, ids, model) == Places(w, rest, model) + Places(w, {x}, model);
      assert Places(w, rest, model) !! Places(w, {x}, model);
      assert ids == rest + {x};
    }
  }

  lemma HealthyPlacesAreServers(w: map<string, Entry>, model: string)
    ensures Places(w, HealthyIds(w), model) == Places(w, Servers(w, model), model)
  {
  }

  /** The catalogue agrees with routing, for every registry content: a model is listed iff some
      entry loads it (iff its total is positive); its HealthyWorkers is at least the number of
      workers the router can choose from, and equal to it exactly when none of them lists the model
      twice (its TotalWorkers likewise for all that have it loaded); and it is 0, which is the scaler's
      warning, exactly when the router has nobody to send a request to and answers 503. */
  lemma CatalogueAgreesWithRouting(w: map<string, Entry>, model: string)
    ensures Listed(w, model) <==> StatOf(w, model).totalWorkers > 0
    ensures StatOf(w, model).healthyWorkers >= |Servers(w, model)|
    ensures StatOf(w, model).healthyWorkers == |Servers(w, model)| <==>
            forall id :: id in Servers(w, model) ==> !ListsTwice(w[id], model)
    ensures StatOf(w, model).healthyWorkers == 0 <==> Servers(w, model) == {}
    ensures StatOf(w, model).totalWorkers >= |Loaders(w, model)|
    ensures StatOf(w, model).totalWorkers == |Loaders(w, model)| <==>
            forall id :: id in Loaders(w, model) ==> !ListsTwice(w[id], model)
  {
    PlacesPerWorker(w, Loaders(w, model), model);
    assert Places(w, w.Keys, model) == Places(w, Loaders(w, model), model);
    HealthyPlacesAreServers(w, model);
    PlacesPerWorker(w, Servers(w, model), model);
    if Servers(w, model) == {} {
      assert Places(w, Servers(w, model), model) == {};
    }
    var all := Places(w, w.Keys, model);
    if Listed(w, model) {
      var id :| id in w && Loads(w[id], model);
      var j :| 0 <= j < |w[id].info.modelsLoaded| && w[id].info.modelsLoaded[j] == model;
      assert (id, j) in all;
    }
    if all != {} {
      var p :| p in all;
      assert Loads(w[p.0], model);
    }
  }

  function HealthyAmong(w: map<string, Entry>, ids: set<string>): set<string> {
    set id | id in ids && id in w && Healthy(w[id])
  }

  lemma HealthyAmongGrows(w: map<string, Entry>, ids: set<string>, id: string)
    requires id in w && id !in ids
    ensures |HealthyAmong(w, ids + {id})| == |HealthyAmong(w, ids)| + if Healthy(w[id]) then 1 else 0
  {
    assert HealthyAmong(w, ids + {id}) == HealthyAmong(w, ids) + if Healthy(w[id]) then {id} else {};
  }

  // ---------------------------------------------------------------- counting place by place

  /** All places at which these workers list anything. */
  function Positions(w: map<string, Entry>, ids: set<string>): set<(string, nat)> {
    set id, j | id in ids && id in w && 0 <= j < |w[id].info.modelsLoaded| :: (id, j)
  }

  predicate IsPlace(w: map<string, Entry>, p: (string, nat), model: string) {
    p.0 in w && p.1 < |w[p.0].info.modelsLoaded| && w[p.0].info.modelsLoaded[p.1] == model
  }

  function OfModel(w: map<string, Entry>, seen: set<(string, nat)>, model: string): set<(string, nat)> {
    set p | p in seen && IsPlace(w, p, model)
  }

  function OfModelHealthy(w: map<string, Entry>, seen: set<(string, nat)>, model: string): set<(string, nat)> {
    set p | p in seen && IsPlace(w, p, model) && Healthy(w[p.0])
  }

  /** Running totals, over the places seen so far. */
  datatype Counts = Counts(total: nat, healthy: nat)

  ghost predicate TalliedFor(w: map<string, Entry>, seen: set<(string, nat)>, m: map<string, Counts>, model: string) {
    && (model in m <==> OfModel(w, seen, model) != {})
    && (model in m ==> m[model] == Counts(|OfModel(w, seen, model)|, |OfModelHealthy(w, seen, model)|))
  }

  ghost predicate Tallied(w: map<string, Entry>, seen: set<(string, nat)>, m: map<string, Counts>) {
    forall model :: TalliedFor(w, seen, m, model)
  }

  function CountOne(m: map<string, Counts>, model: string, healthy: bool): map<string, Counts> {
    var c := if model in m then m[model] else Counts(0, 0);
    m[model := Counts(c.total + 1, if healthy then c.healthy + 1 else c.healthy)]
  }

  lemma PlaceAdds(w: map<string, Entry>, seen: set<(string, nat)>, p: (string, nat), model: string)
    requires p !in seen && IsPlace(w, p, model)
    ensures OfModel(w, seen + {p}, model) == OfModel(w, seen, model) + {p}
    ensures |OfModel(w, seen + {p}, model)| == |OfModel(w, seen, model)| + 1
  {
  }

  lemma PlaceAddsHealthy(w: map<string, Entry>, seen: set<(string, nat)>, p: (string, nat), model: string)
    requires p !in seen && IsPlace(w, p, model)
    ensures |OfModelHealthy(w, seen + {p}, model)|
         == |OfModelHealthy(w, seen, model)| + if Healthy(w[p.0]) then 1 else 0
  {
    assert OfModelHealthy(w, seen + {p}, model)
        == OfModelHealthy(w, seen, model) + if Healthy(w[p.0]) then {p} else {};
  }

  lemma PlaceIsElsewhere(w: map<string, Entry>, seen: set<(string, nat)>, p: (string, nat), model: string)
    requires !IsPlace(w, p, model)
    ensures OfModel(w, seen + {p}, model) == OfModel(w, seen, model)
    ensures OfModelHealthy(w, seen + {p}, model) == OfModelHealthy(w, seen, model)
  {
  }

  lemma TallyOne(w: map<string, Entry>, seen: set<(string, nat)>, m: map<string, Counts>, id: string, j: nat)
    requires Tallied(w, seen, m) && id in w && j < |w[id].info.modelsLoaded| && (id, j) !in seen
    ensures Tallied(w, seen + {(id, j)}, CountOne(m, w[id].info.modelsLoaded[j], Healthy(w[id])))
  {
    var p, x := (id, j), w[id].info.modelsLoaded[j];
    var m' := CountOne(m, x, Healthy(w[id]));
    forall model ensures TalliedFor(w, seen + {p}, m', model) {
      assert TalliedFor(w, seen, m, model);
      if model == x {
        PlaceAdds(w, seen, p, model);
        PlaceAddsHealthy(w, seen, p, model);
        if model !in m {
          assert OfModelHealthy(w, seen, model) <= OfModel(w, seen, model);
        }
      } else {
        PlaceIsElsewhere(w, seen, p, model);
      }
    }
  }

  /** The first n places of one worker. */
  function Row(id: string, n: nat): set<(string, nat)> {
    set i: nat | i < n :: (id, i)
  }

  lemma RowGrows(id: string, n: nat)
    ensures Row(id, n + 1) == Row(id, n) + {(id, n)} && (id, n) !in Row(id, n)
  {
  }

  lemma RowsMakePositions(w: map<string, Entry>, done: set<string>, id: string)
    requires id in w && id !in done
    ensures Positions(w, done + {id}) == Positions(w, done) + Row(id, |w[id].info.modelsLoaded|)
  {
  }

  lemma AllTallied(w: map<string, Entry>, m: map<string, Counts>, model: string)
    requires Tallied(w, Positions(w, w.Keys), m)
    ensures model in m <==> Listed(w, model)
    ensures model in m ==> ModelStat(model, m[model].total, m[model].healthy) == StatOf(w, model)
  {
    var all := Positions(w, w.Keys);
    assert TalliedFor(w, all, m, model);
    assert OfModel(w, all, model) == Places(w, w.Keys, model);
    assert OfModelHealthy(w, all, model) == Places(w, HealthyIds(w), model);
    CatalogueAgreesWithRouting(w, model);
  }
}
