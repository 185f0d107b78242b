/** The priority queue between gateway and dispatcher (request-plane/queue/queue.go), with
    `TryPush` and `Pop` as atomic operations. QueueRuns is about whole runs of them, QueueInterleaving
    takes `Pop` apart. */
module PriorityQueue {
  import opened Channels
  import opened Options

  /** In declaration order; the serving order is POP_ORDER. */
  datatype Priority = PriorityNormal | PriorityHigh | PriorityLow

  datatype Request = Request(id: nat, model: string, priority: Priority, stream: bool)

  const POP_ORDER: seq<Priority> := [PriorityHigh, PriorityNormal, PriorityLow]

  /** The position of a lane in the serving order: a smaller rank is served first. */
  function Rank(p: Priority): (r: nat)
    ensures r < |POP_ORDER| && POP_ORDER[r] == p
  {
    match p
    case PriorityHigh => 0
    case PriorityNormal => 1
    case PriorityLow => 2
  }

  /** The contents of the three lanes. */
  datatype Lanes = Lanes(high: seq<Request>, normal: seq<Request>, low: seq<Request>) {

    function Lane(p: Priority): seq<Request> {
      match p
      case PriorityHigh => high
      case PriorityNormal => normal
      case PriorityLow => low
    }

    function With(p: Priority, lane: seq<Request>): Lanes {
      match p
      case PriorityHigh => this.(high := lane)
      case PriorityNormal => this.(normal := lane)
      case PriorityLow => this.(low := lane)
    }

    function Len(): nat {
      |high| + |normal| + |low|
    }

    /** Everything in strictly higher lanes. */
    function Above(p: Priority): nat {
      match p
      case PriorityHigh => 0
      case PriorityNormal => |high|
      case PriorityLow => |high| + |normal|
    }

    /** What AheadOf reports: the higher lanes plus p's own. */
    function Ahead(p: Priority): nat {
      Above(p) + |Lane(p)|
    }

    ghost predicate WithinCapacity(capacity: nat) {
      |high| <= capacity && |normal| <= capacity && |low| <= capacity
    }
  }

  const EMPTY := Lanes([], [], [])

  /** What one operation did. */
  datatype Outcome =
    | Accepted(r: Request)
    | Rejected(r: Request)
    | Got(lane: Priority, r: Request)
    | Blocked

  function PushStep(s: Lanes, capacity: nat, r: Request): (Lanes, Outcome) {
    var lane := s.Lane(r.priority);
    if |lane| < capacity then (s.With(r.priority, lane + [r]), Accepted(r)) else (s, Rejected(r))
  }

  function PopStep(s: Lanes): (Lanes, Outcome) {
    if s.high != [] then (s.(high := s.high[1..]), Got(PriorityHigh, s.high[0]))
    else if s.normal != [] then (s.(normal := s.normal[1..]), Got(PriorityNormal, s.normal[0]))
    else if s.low != [] then (s.(low := s.low[1..]), Got(PriorityLow, s.low[0]))
    else (s, Blocked)
  }

  lemma PopTakesFirstHead(s: Lanes, p: Priority)
    requires s.Lane(p) != []
    requires forall q :: Rank(q) < Rank(p) ==> s.Lane(q) == []
    ensures PopStep(s) == (s.With(p, s.Lane(p)[1..]), Got(p, s.Lane(p)[0]))
  {
    assert Rank(PriorityHigh) < Rank(p) ==> s.Lane(PriorityHigh) == [];
    assert Rank(PriorityNormal) < Rank(p) ==> s.Lane(PriorityNormal) == [];
  }

  lemma FirstHeadInOrder(s: Lanes, i: nat)
    requires i < |POP_ORDER| && s.Lane(POP_ORDER[i]) != []
    requires forall j :: 0 <= j < i ==> s.Lane(POP_ORDER[j]) == []
    ensures var p := POP_ORDER[i];
            PopStep(s) == (s.With(p, s.Lane(p)[1..]), Got(p, s.Lane(p)[0]))
  {
    forall q | Rank(q) < Rank(POP_ORDER[i]) ensures s.Lane(q) == [] {
      assert s.Lane(POP_ORDER[Rank(q)]) == [];
    }
    PopTakesFirstHead(s, POP_ORDER[i]);
  }

  lemma NoHeadInOrder(s: Lanes)
    requires forall j :: 0 <= j < |POP_ORDER| ==> s.Lane(POP_ORDER[j]) == []
    ensures PopStep(s) == (s, Blocked)
  {
    forall p ensures s.Lane(p) == [] {
      assert s.Lane(POP_ORDER[Rank(p)]) == [];
    }
    assert s.Lane(PriorityHigh) == s.Lane(PriorityNormal) == s.Lane(PriorityLow) == [];
  }

  // ---------------------------------------------------------------- the object

  class Queue {
    const lanes: map<Priority, Channel<Request>>
    const capacityPerLane: nat

    ghost predicate Valid()
      reads lanes.Values
    {
      && lanes.Keys == {PriorityNormal, PriorityHigh, PriorityLow}
      && (forall p: Priority :: p in lanes)
      && (forall p, p' :: p in lanes && p' in lanes && p != p' ==> lanes[p] != lanes[p'])
      && (forall p :: p in lanes ==> lanes[p].capacity == capacityPerLane)
      && (forall p :: p in lanes ==> !lanes[p].closed)
      && (forall p :: p in lanes ==> |lanes[p].buf| <= capacityPerLane)
    }

    ghost function View(): (s: Lanes)
      reads lanes.Values
      requires Valid()
      ensures s.WithinCapacity(capacityPerLane)
      ensures forall p :: p in lanes ==> s.Lane(p) == lanes[p].buf
    {
      Lanes(lanes[PriorityHigh].buf, lanes[PriorityNormal].buf, lanes[PriorityLow].buf)
    }

    constructor (capacityPerLane: nat)
      ensures Valid() && View() == EMPTY && this.capacityPerLane == capacityPerLane
      ensures fresh(lanes.Values)
    {
      var h := new Channel<Request>(capacityPerLane);
      var n := new Channel<Request>(capacityPerLane);
      var l := new Channel<Request>(capacityPerLane);
      this.capacityPerLane := capacityPerLane;
      lanes := map[PriorityHigh := h, PriorityNormal := n, PriorityLow := l];
      new;
      forall p: Priority ensures p in lanes {
        match p
        case PriorityNormal => assert p in lanes;
        case PriorityHigh => assert p in lanes;
        case PriorityLow => assert p in lanes;
      }
    }

    method TryPush(r: Request) returns (ok: bool)
      requires Valid()
      modifies lanes.Values
      ensures Valid()
      ensures ok <==> |old(View()).Lane(r.priority)| < capacityPerLane
      ensures View() == PushStep(old(View()), capacityPerLane, r).0
    {
      ok := lanes[r.priority].TrySend(r);
    }

    /** The non-blocking probe of the lanes, in POP_ORDER. */
    method TryPopHighestPriority() returns (r: Option<Request>)
      requires Valid()
      modifies lanes.Values
      ensures Valid()
      ensures View() == PopStep(old(View())).0
      ensures match PopStep(old(View())).1
              case Got(_, head) => r == Some(head)
              case _ => r == None
      ensures var before := old(View());
              r == if before.Lane(PriorityHigh) != [] then Some(before.Lane(PriorityHigh)[0])
                   else if before.Lane(PriorityNormal) != [] then Some(before.Lane(PriorityNormal)[0])
                   else if before.Lane(PriorityLow) != [] then Some(before.Lane(PriorityLow)[0])
                   else None
    {
      for i := 0 to |POP_ORDER|
        invariant Valid() && View() == old(View())
        invariant forall j :: 0 <= j < i ==> View().Lane(POP_ORDER[j]) == []
      {
        var p := POP_ORDER[i];
        r := lanes[p].TryReceive();
        if r.Some? {
          FirstHeadInOrder(old(View()), i);
          assert View().Lane(p) == old(View()).Lane(p)[1..];
          return;
        }
      }
      NoHeadInOrder(View());
      r := None;
    }

    /** Sums over the lanes in whatever order the map is walked. */
    method Len() returns (n: nat)
      requires Valid()
      ensures n == View().Len()
    {
      n := 0;
      var todo := lanes.Keys;
      while todo != {}
        invariant todo <= lanes.Keys
        invariant n == (if PriorityHigh in todo then 0 else |View().high|)
                     + (if PriorityNormal in todo then 0 else |View().normal|)
                     + (if PriorityLow in todo then 0 else |View().low|)
      {
        var p :| p in todo;
        n := n + |lanes[p].buf|;
        todo := todo - {p};
      }
    }

    method AheadOf(p: Priority) returns (n: nat)
      requires Valid()
      ensures n == View().Ahead(p)
      ensures n == match p
                   case PriorityHigh => |View().high|
                   case PriorityNormal => |View().high| + |View().normal|
                   case PriorityLow => |View().high| + |View().normal| + |View().low|
    {
      n := 0;
      for i := 0 to |POP_ORDER|
        invariant i <= Rank(p)
        invariant n == View().Above(POP_ORDER[i])
      {
        n := n + |lanes[POP_ORDER[i]].buf|;
        if POP_ORDER[i] == p {
          break;
        }
      }
    }

    method Cap() returns (n: nat)
      requires Valid()
      ensures n == 3 * capacityPerLane
      ensures View().Len() <= n
    {
      n := 0;
      var todo := lanes.Keys;
      while todo != {}
        invariant todo <= lanes.Keys
        invariant n == (if PriorityHigh in todo then 0 else capacityPerLane)
                     + (if PriorityNormal in todo then 0 else capacityPerLane)
                     + (if PriorityLow in todo then 0 else capacityPerLane)
      {
        var p :| p in todo;
        n := n + lanes[p].capacity;
        todo := todo - {p};
      }
    }
  }

  /** What a lane gains and loses in two stretches. */
  lemma Telescope(first: seq<Request>, accepted: seq<Request>, popped: seq<Request>, mid: seq<Request>,
                  gained: seq<Request>, lost: seq<Request>, last: seq<Request>)
    requires first + accepted == popped + mid && mid + gained == lost + last
    ensures first + (accepted + gained) == (popped + lost) + last
  {
    calc {
      first + (accepted + gained);
      (first + accepted) + gained;
      popped + (mid + gained);
      (popped + lost) + last;
    }
  }
}
