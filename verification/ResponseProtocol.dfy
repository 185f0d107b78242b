/** The protocol between gateway handlers (request-plane/gateway/gateway.go:114-260) and dispatcher
    loops (request-plane/dispatcher/dispatcher.go:115-263): a one-slot ResultCh and a bounded
    Chunks channel per request, a timeout that may fire at any moment, and any number of requests
    and loops interleaved in any order. An event that is not possible changes nothing. */
module ResponseProtocol {
  import opened Http
  import opened Options
  import opened Dispatching

  const CHUNKS_CAPACITY := 16

  /** The handler of one request. */
  datatype Handler =
    | Entered       // before TryPush
    | Waiting       // in the select on ResultCh and the timer
    | Forwarding    // status written, ranging over Chunks
    | Returned      // the deferred hook has run

  /** The dispatcher's work on one request. */
  datatype Work =
    | Unpopped
    | Trying                                       // inside the retry and fallback loops
    | Pumping(next: nat, hand: Option<seq<byte>>)  // `next` pieces read, one perhaps not yet sent
    | Closing                                      // the deferred close
    | Finished

  datatype Request = Request(
    stream: bool,
    handler: Handler,
    work: Work,
    resultCh: seq<Result>,
    chunks: seq<seq<byte>>,
    closed: bool,
    body: Option<seq<seq<byte>>>,   // the pieces of the committed upstream body
    // What an observer counts:
    results: nat,                   // results ever sent on ResultCh
    statuses: seq<nat>,             // status lines the client has seen
    client: seq<byte>,              // body bytes the client has seen
    hooks: nat,                     // calls of onRequest
    drained: bool,                  // the handler left the loop over Chunks at its end
    panicked: bool)                 // a send on, or a close of, a closed channel

  /** `queued` holds request numbers; a loop is in `busy` while it works on one. */
  datatype State = State(requests: map<nat, Request>, queued: seq<nat>, busy: map<nat, nat>)

  /** What a handler can do after it has entered, apart from pushing its request. */
  datatype HandlerStep =
    | Reject(status: nat)              // any error answer before the queue, or a full lane
    | TakeResult
    | Timeout
    | TakeChunk
    | EndOfChunks

  /** What a loop can do with the request it holds. */
  datatype LoopStep =
    | Conclude(result: Result)         // a result without committing to a stream
    | Commit(model: string, upstream: Upstream)
    | ReadPiece
    | SendChunk
    | CloseChunks

  datatype Event =
    | Arrive(id: nat, stream: bool)
    | Push(id: nat)
    | Handle(id: nat, step: HandlerStep)
    | Pop(l: nat, i: nat)              // loop l pops the i-th queued request
    | Work(l: nat, work: LoopStep)

  function Fresh(stream: bool): Request {
    Request(stream, Entered, Unpopped, [], [], false, None, 0, [], [], 0, false, false)
  }

  /** The handler returns with one status line and body; the deferred hook runs. */
  function Answer(r: Request, status: nat, body: seq<byte>): Request {
    r.(handler := Returned, statuses := r.statuses + [status], client := r.client + body, hooks := r.hooks + 1)
  }

  // ------------------------------------------------------- steps on one request

  function OnReject(r: Request, status: nat): Request {
    if r.handler == Entered then Answer(r, status, []) else r
  }

  function OnTakeResult(r: Request): Request {
    if r.handler != Waiting || r.resultCh == [] then r
    else
      var result, rest := r.resultCh[0], r.(resultCh := r.resultCh[1..]);
      if result.err != None then Answer(rest, BAD_GATEWAY, [])
      else if result.streaming then rest.(handler := Forwarding, statuses := r.statuses + [result.statusCode])
      else Answer(rest, result.statusCode, result.body)
  }

  function OnTimeout(r: Request): Request {
    if r.handler == Waiting then Answer(r, GATEWAY_TIMEOUT, []) else r
  }

  function OnTakeChunk(r: Request): Request {
    if r.handler == Forwarding && r.chunks != [] then
      r.(chunks := r.chunks[1..], client := r.client + r.chunks[0])
    else r
  }

  function OnEndOfChunks(r: Request): Request {
    if r.handler == Forwarding && r.chunks == [] && r.closed then
      r.(handler := Returned, hooks := r.hooks + 1, drained := true)
    else r
  }

  function SendResult(r: Request, result: Result): Request {
    r.(resultCh := r.resultCh + [result], results := r.results + 1)
  }

  /** Blocks (changes nothing) while ResultCh is full. */
  function OnConclude(r: Request, result: Result): Request {
    if r.work == Trying && r.resultCh == [] && !result.streaming then
      SendResult(r, result).(work := if r.stream then Closing else Finished)
    else r
  }

  function OnCommit(r: Request, model: string, u: Upstream): Request {
    if r.work == Trying && r.stream && r.resultCh == [] && u.Responds? && !IsRetryableStatus(u.status)
       && FitsBuffer(u.pieces)
    then
      SendResult(r, Result(u.status, [], None, model, true, u.contentType)).(
        work := Pumping(0, None), body := Some(u.pieces))
    else r
  }

  function OnReadPiece(r: Request): Request {
    if r.work.Pumping? && r.work.hand == None && r.body.Some? && r.work.next < |r.body.value| then
      var piece, next := r.body.value[r.work.next], r.work.next + 1;
      if NonEmpty(piece) then r.(work := Pumping(next, Some(piece)))
      else if next == |r.body.value| then r.(work := Closing)
      else r.(work := Pumping(next, None))
    else r
  }

  /** Blocks while Chunks is full. */
  function OnSendChunk(r: Request): Request {
    if r.work.Pumping? && r.work.hand.Some? && r.body.Some? then
      if r.closed then r.(panicked := true)
      else if |r.chunks| >= CHUNKS_CAPACITY then r
      else r.(chunks := r.chunks + [r.work.hand.value],
              work := if r.work.next == |r.body.value| then Closing else Pumping(r.work.next, None))
    else r
  }

  function OnCloseChunks(r: Request): Request {
    if r.work != Closing then r
    else if r.closed then r.(panicked := true)
    else r.(closed := true, work := Finished)
  }

  // ------------------------------------------------------- the system

  function HandleStep(r: Request, step: HandlerStep): Request {
    match step
    case Reject(status) => OnReject(r, status)
    case TakeResult => OnTakeResult(r)
    case Timeout => OnTimeout(r)
    case TakeChunk => OnTakeChunk(r)
    case EndOfChunks => OnEndOfChunks(r)
  }

  function WorkStep(r: Request, step: LoopStep): Request {
    match step
    case Conclude(result) => OnConclude(r, result)
    case Commit(model, u) => OnCommit(r, model, u)
    case ReadPiece => OnReadPiece(r)
    case SendChunk => OnSendChunk(r)
    case CloseChunks => OnCloseChunks(r)
  }

  function Step(s: State, e: Event): State {
    match e
    case Arrive(id, stream) =>
      if id in s.requests then s else s.(requests := s.requests[id := Fresh(stream)])
    case Push(id) =>
      if id in s.requests && s.requests[id].handler == Entered then
        s.(requests := s.requests[id := s.requests[id].(handler := Waiting)], queued := s.queued + [id])
      else s
    case Handle(id, step) =>
      if id in s.requests then s.(requests := s.requests[id := HandleStep(s.requests[id], step)]) else s
    case Pop(l, i) =>
      if l in s.busy || i >= |s.queued| || s.queued[i] !in s.requests then s
      else
        var id := s.queued[i];
        State(s.requests[id := s.requests[id].(work := Trying)], s.queued[..i] + s.queued[i + 1..], s.busy[l := id])
    case Work(l, step) =>
      if l in s.busy && s.busy[l] in s.requests then
        var r := WorkStep(s.requests[s.busy[l]], step);
        State(s.requests[s.busy[l] := r], s.queued, if r.work == Finished then s.busy - {l} else s.busy)
      else s
  }

  function RunFrom(s: State, es: seq<Event>): State {
    if es == [] then s else Step(RunFrom(s, es[..|es| - 1]), es[|es| - 1])
  }

  const START := State(map[], [], map[])

  function Run(es: seq<Event>): State {
    RunFrom(START, es)
  }

  // ------------------------------------------------------- the invariant of one request

  function HandOf(r: Request): seq<byte> {
    if r.work.Pumping? && r.work.hand.Some? then r.work.hand.value else []
  }

  /** How many pieces of the body have been read. */
  function PiecesRead(r: Request): nat
    requires r.body.Some?
  {
    if r.work.Pumping? then r.work.next else |r.body.value|
  }

  /** Dispatcher and channels. */
  ghost predicate WorkInv(r: Request) {
    && !r.panicked
    && (r.closed <==> r.stream && r.work == Finished)
    && |r.chunks| <= CHUNKS_CAPACITY
    && r.results == (if r.work == Unpopped || r.work == Trying then 0 else 1)
    && (r.results == 0 ==> r.body == None && r.resultCh == [])
    && |r.resultCh| <= r.results
    && (r.work.Pumping? ==> r.stream && r.body.Some? && r.work.next <= |r.body.value|)
    && (r.work.Pumping? && r.work.hand == None ==> r.work.next < |r.body.value|)
    && (r.work == Closing ==> r.stream)
    && (if r.body == None then r.chunks == [] else r.stream)
    && (r.resultCh != [] ==> (r.resultCh[0].streaming <==> r.body.Some?))
    && (r.resultCh != [] && r.body.Some? ==> r.resultCh[0].err == None)
  }

  /** Handler and client. */
  ghost predicate HandlerInv(r: Request) {
    && (r.handler == Entered ==> r.work == Unpopped)
    && |r.statuses| == (if r.handler == Entered || r.handler == Waiting then 0 else 1)
    && r.hooks == (if r.handler == Returned then 1 else 0)
    && (r.handler == Entered || r.handler == Waiting || r.results == 0 ==> r.client == [])
    && (r.handler == Waiting ==> |r.resultCh| == r.results)
    && (r.handler == Forwarding ==> r.body.Some? && r.resultCh == [])
    && (r.drained ==> r.handler == Returned && r.body.Some? && r.client == Flatten(r.body.value))
  }

  /** Every byte read from a committed body is with the client, in the channel or in hand, in
      order; without a committed body the client got its bytes in one piece. */
  ghost predicate FlowInv(r: Request) {
    r.body.Some? ==>
      && PiecesRead(r) <= |r.body.value|
      && r.client + Flatten(r.chunks) + HandOf(r) == Flatten(r.body.value[..PiecesRead(r)])
  }

  ghost predicate Inv(r: Request) {
    WorkInv(r) && HandlerInv(r) && FlowInv(r)
  }

  lemma {:induction false} FlattenCons(piece: seq<byte>, pieces: seq<seq<byte>>)
    ensures Flatten([piece] + pieces) == piece + Flatten(pieces)
  {
    var all := [piece] + pieces;
    if pieces == [] {
      assert all == [piece];
      assert all[..0] == [];
    } else {
      var n := |pieces| - 1;
      FlattenCons(piece, pieces[..n]);
      assert all[..n + 1] == [piece] + pieces[..n] && all[n + 1] == pieces[n];
      assert (piece + Flatten(pieces[..n])) + pieces[n] == piece + (Flatten(pieces[..n]) + pieces[n]);
    }
  }

  lemma FlattenSnoc(pieces: seq<seq<byte>>, piece: seq<byte>)
    ensures Flatten(pieces + [piece]) == Flatten(pieces) + piece
  {
    assert (pieces + [piece])[..|pieces|] == pieces;
  }

  lemma HandlerKeepsWorkInv(r: Request, step: HandlerStep)
    requires WorkInv(r) && HandlerInv(r)
    ensures WorkInv(HandleStep(r, step))
  {
  }

  lemma TakeChunkKeepsFlow(r: Request)
    requires FlowInv(r)
    ensures FlowInv(OnTakeChunk(r))
  {
    if r.handler == Forwarding && r.chunks != [] && r.body.Some? {
      var chunk, rest := r.chunks[0], r.chunks[1..];
      FlattenCons(chunk, rest);
      assert [chunk] + rest == r.chunks;
      calc {
        (r.client + chunk) + Flatten(rest) + HandOf(r);
        r.client + (chunk + Flatten(rest)) + HandOf(r);
        r.client + Flatten(r.chunks) + HandOf(r);
      }
    }
  }

  /** Every other handler step leaves the bytes of a stream where they are. */
  lemma HandlerKeepsFlow(r: Request, step: HandlerStep)
    requires WorkInv(r) && HandlerInv(r) && FlowInv(r)
    ensures FlowInv(HandleStep(r, step))
  {
    if step == TakeChunk {
      TakeChunkKeepsFlow(r);
    } else if r.body.Some? {
      assert r.client + [] == r.client;
      assert HandleStep(r, step).client == r.client;
    }
  }

  lemma HandlerKeepsHandlerInv(r: Request, step: HandlerStep)
    requires Inv(r)
    ensures HandlerInv(HandleStep(r, step))
  {
    if step == EndOfChunks && r.handler == Forwarding && r.chunks == [] && r.closed {
      assert r.body.value[..|r.body.value|] == r.body.value;
    }
  }

  lemma HandlerKeepsInv(r: Request, step: HandlerStep)
    requires Inv(r)
    ensures Inv(HandleStep(r, step))
  {
    HandlerKeepsWorkInv(r, step);
    HandlerKeepsFlow(r, step);
    HandlerKeepsHandlerInv(r, step);
  }

  lemma ReadKeepsFlow(r: Request)
    requires WorkInv(r) && FlowInv(r)
    ensures FlowInv(OnReadPiece(r))
  {
    if r.work.Pumping? && r.work.hand == None && r.work.next < |r.body.value| {
      var pieces, next := r.body.value, r.work.next + 1;
      assert pieces[..next] == pieces[..r.work.next] + [pieces[r.work.next]];
      FlattenSnoc(pieces[..r.work.next], pieces[r.work.next]);
    }
  }

  lemma SendKeepsFlow(r: Request)
    requires WorkInv(r) && FlowInv(r)
    ensures FlowInv(OnSendChunk(r))
  {
    if r.work.Pumping? && r.work.hand.Some? {
      FlattenSnoc(r.chunks, r.work.hand.value);
    }
  }

  lemma WorkKeepsFlow(r: Request, step: LoopStep)
    requires Inv(r)
    ensures FlowInv(WorkStep(r, step))
  {
    match step
    case ReadPiece => ReadKeepsFlow(r);
    case SendChunk => SendKeepsFlow(r);
    case Conclude(_) =>
    case Commit(_, _) =>
    case CloseChunks =>
  }

  lemma WorkKeepsWorkInv(r: Request, step: LoopStep)
    requires WorkInv(r)
    ensures WorkInv(WorkStep(r, step))
  {
  }

  lemma WorkKeepsHandlerInv(r: Request, step: LoopStep)
    requires WorkInv(r) && HandlerInv(r)
    ensures HandlerInv(WorkStep(r, step))
  {
  }

  lemma WorkKeepsInv(r: Request, step: LoopStep)
    requires Inv(r)
    ensures Inv(WorkStep(r, step))
  {
    WorkKeepsFlow(r, step);
    WorkKeepsWorkInv(r, step);
    WorkKeepsHandlerInv(r, step);
  }

  // ------------------------------------------------------- who holds which request

  predicate Active(r: Request) {
    r.work != Unpopped && r.work != Finished
  }

  ghost predicate Held(s: State, id: nat) {
    exists l :: l in s.busy && s.busy[l] == id
  }

  /** A request number is queued at most once, and then nobody has popped it; a popped request is
      held by exactly one loop until its work is finished. */
  ghost predicate Ownership(s: State) {
    && (forall i, j :: 0 <= i < j < |s.queued| ==> s.queued[i] != s.queued[j])
    && (forall id :: id in s.queued ==>
          id in s.requests && s.requests[id].work == Unpopped && s.requests[id].handler != Entered)
    && (forall l :: l in s.busy ==> s.busy[l] in s.requests && Active(s.requests[s.busy[l]]))
    && (forall l, l' :: l in s.busy && l' in s.busy && s.busy[l] == s.busy[l'] ==> l == l')
    && (forall id :: id in s.requests && Active(s.requests[id]) ==> Held(s, id))
  }

  /** A step that neither pops nor finishes changes nobody's ownership. */
  lemma UpdateKeepsOwnership(s: State, id: nat, r: Request)
    requires Ownership(s) && id in s.requests
    requires s.requests[id].work == Unpopped ==> r.work == Unpopped
    requires s.requests[id].handler != Entered ==> r.handler != Entered
    requires Active(r) <==> Active(s.requests[id])
    ensures Ownership(s.(requests := s.requests[id := r]))
  {
    var s' := s.(requests := s.requests[id := r]);
    forall x | x in s'.requests && Active(s'.requests[x]) ensures Held(s', x) {
      assert Held(s, x);
      var l :| l in s.busy && s.busy[l] == x;
      assert s'.busy[l] == x;
    }
  }

  lemma FinishKeepsOwnership(s: State, l: nat, r: Request)
    requires Ownership(s) && l in s.busy && r.work == Finished
    ensures Ownership(State(s.requests[s.busy[l] := r], s.queued, s.busy - {l}))
  {
    var s' := State(s.requests[s.busy[l] := r], s.queued, s.busy - {l});
    forall x | x in s'.requests && Active(s'.requests[x]) ensures Held(s', x) {
      assert Held(s, x);
      var k :| k in s.busy && s.busy[k] == x;
      assert k in s'.busy && s'.busy[k] == x;
    }
  }

  lemma PopKeepsQueue(s: State, l: nat, i: nat)
    requires Ownership(s) && l !in s.busy && i < |s.queued|
    ensures var s' := Step(s, Pop(l, i));
            && (forall a, b :: 0 <= a < b < |s'.queued| ==> s'.queued[a] != s'.queued[b])
            && (forall x :: x in s'.queued ==> x in s.queued && x != s.queued[i])
  {
  }

  lemma PopKeepsHeld(s: State, l: nat, i: nat, x: nat)
    requires Ownership(s) && l !in s.busy && i < |s.queued| && x in s.requests
    requires Active(s.requests[x]) || x == s.queued[i]
    ensures Held(Step(s, Pop(l, i)), x)
  {
    var s' := Step(s, Pop(l, i));
    if x == s.queued[i] {
      assert s'.busy[l] == x;
    } else {
      assert Held(s, x);
      var k :| k in s.busy && s.busy[k] == x;
      assert s'.busy[k] == x;
    }
  }

  lemma PopKeepsOwnership(s: State, l: nat, i: nat)
    requires Ownership(s) && l !in s.busy && i < |s.queued|
    ensures Ownership(Step(s, Pop(l, i)))
  {
    var s', id := Step(s, Pop(l, i)), s.queued[i];
    PopKeepsQueue(s, l, i);
    forall x | x in s'.requests && Active(s'.requests[x]) ensures Held(s', x) {
      PopKeepsHeld(s, l, i, x);
    }
    forall k | k in s.busy ensures s.busy[k] != id {
      assert Active(s.requests[s.busy[k]]);
    }
  }

  lemma ArriveKeepsOwnership(s: State, id: nat, stream: bool)
    requires Ownership(s) && id !in s.requests
    ensures Ownership(Step(s, Arrive(id, stream)))
  {
    var s' := Step(s, Arrive(id, stream));
    forall x | x in s'.requests && Active(s'.requests[x]) ensures Held(s', x) {
      assert Held(s, x);
      var l :| l in s.busy && s.busy[l] == x;
      assert s'.busy[l] == x;
    }
  }

  lemma PushKeepsOwnership(s: State, id: nat)
    requires Ownership(s) && id in s.requests && s.requests[id].handler == Entered && s.requests[id].work == Unpopped
    ensures Ownership(Step(s, Push(id)))
  {
    var s' := Step(s, Push(id));
    UpdateKeepsOwnership(s, id, s.requests[id].(handler := Waiting));
    var mid := s.(requests := s'.requests);
    forall x | x in s'.requests && Active(s'.requests[x]) ensures Held(s', x) {
      assert Held(mid, x);
      var l :| l in mid.busy && mid.busy[l] == x;
      assert s'.busy[l] == x;
    }
  }

  // ------------------------------------------------------- every interleaving

  ghost predicate AllInv(s: State) {
    forall id :: id in s.requests ==> Inv(s.requests[id])
  }

  lemma UpdateKeepsAll(s: State, s': State, id: nat)
    requires AllInv(s) && id in s'.requests && Inv(s'.requests[id])
    requires s'.requests == s.requests[id := s'.requests[id]]
    ensures AllInv(s')
  {
  }

  lemma StepKeepsAll(s: State, e: Event)
    requires Ownership(s) && AllInv(s)
    ensures AllInv(Step(s, e))
  {
    match e
    case Arrive(id, stream) =>
      if id !in s.requests {
        assert Inv(Fresh(stream));
        UpdateKeepsAll(s, Step(s, e), id);
      }
    case Push(id) =>
      if id in s.requests && s.requests[id].handler == Entered {
        assert Inv(s.requests[id]);
        UpdateKeepsAll(s, Step(s, e), id);
      }
    case Handle(id, step) =>
      if id in s.requests {
        HandlerKeepsInv(s.requests[id], step);
        UpdateKeepsAll(s, Step(s, e), id);
      }
    case Pop(l, i) =>
      if l !in s.busy && i < |s.queued| {
        assert Inv(s.requests[s.queued[i]]);
        UpdateKeepsAll(s, Step(s, e), s.queued[i]);
      }
    case Work(l, step) =>
      if l in s.busy {
        WorkKeepsInv(s.requests[s.busy[l]], step);
        WorkIsLocal(s, l, step);
        UpdateKeepsAll(s, Step(s, e), s.busy[l]);
      }
  }

  lemma HandlerMovesOn(r: Request, step: HandlerStep)
    ensures HandleStep(r, step).work == r.work
    ensures r.handler != Entered ==> HandleStep(r, step).handler != Entered
  {
  }

  lemma WorkMovesOn(r: Request, step: LoopStep)
    requires Active(r)
    ensures WorkStep(r, step).handler == r.handler && WorkStep(r, step).work != Unpopped
  {
  }

  lemma StepKeepsOwnership(s: State, e: Event)
    requires Ownership(s) && AllInv(s)
    ensures Ownership(Step(s, e))
  {
    match e
    case Arrive(id, stream) => if id !in s.requests { ArriveKeepsOwnership(s, id, stream); }
    case Push(id) =>
      if id in s.requests && s.requests[id].handler == Entered {
        assert Inv(s.requests[id]);
        PushKeepsOwnership(s, id);
      }
    case Handle(id, step) =>
      if id in s.requests {
        HandlerMovesOn(s.requests[id], step);
        UpdateKeepsOwnership(s, id, HandleStep(s.requests[id], step));
      }
    case Pop(l, i) => if l !in s.busy && i < |s.queued| { PopKeepsOwnership(s, l, i); }
    case Work(l, step) =>
      if l in s.busy {
        var id := s.busy[l];
        var r := WorkStep(s.requests[id], step);
        WorkMovesOn(s.requests[id], step);
        if r.work == Finished {
          FinishKeepsOwnership(s, l, r);
        } else {
          UpdateKeepsOwnership(s, id, r);
        }
      }
  }

  lemma {:induction false} RunFromKeepsInv(s: State, es: seq<Event>)
    requires Ownership(s) && AllInv(s)
    ensures Ownership(RunFrom(s, es)) && AllInv(RunFrom(s, es))
  {
    if es != [] {
      RunFromKeepsInv(s, es[..|es| - 1]);
      StepKeepsAll(RunFrom(s, es[..|es| - 1]), es[|es| - 1]);
      StepKeepsOwnership(RunFrom(s, es[..|es| - 1]), es[|es| - 1]);
    }
  }

  lemma RunKeepsInv(es: seq<Event>)
    ensures Ownership(Run(es)) && AllInv(Run(es))
  {
    RunFromKeepsInv(START, es);
  }

  ghost predicate IsPrefix(a: seq<byte>, b: seq<byte>) {
    |a| <= |b| && a == b[..|a|]
  }

  lemma {:induction false} FlattenPrefix(pieces: seq<seq<byte>>, k: nat)
    requires k <= |pieces|
    ensures IsPrefix(Flatten(pieces[..k]), Flatten(pieces))
  {
    var n := |pieces| - 1;
    if k <= n {
      FlattenPrefix(pieces[..n], k);
      assert pieces[..n][..k] == pieces[..k];
    } else {
      assert pieces[..k] == pieces;
    }
  }

  /** Main theorem, for every interleaving of any number of handlers, timeouts and loops. Nobody
      sends on or closes a closed channel. A popped request gets at most one Result, exactly one by
      the time its loop is free, and there is always room for it. Chunks flow only after a
      streaming Result. The client sees at most one status, exactly one once the handler returned;
      the hook has run exactly once then, and not before. */
  lemma ProtocolIsSafe(es: seq<Event>, id: nat)
    requires id in Run(es).requests
    ensures var r := Run(es).requests[id];
            && !r.panicked
            && r.results <= 1
            && (r.work == Finished ==> r.results == 1 && (r.closed <==> r.stream))
            && (r.work == Trying ==> r.resultCh == [])
            && (r.chunks != [] ==> r.stream && r.results == 1 && r.body.Some?)
            && |r.chunks| <= 16
            && |r.statuses| <= 1
            && (r.handler == Returned ==> |r.statuses| == 1)
            && r.hooks == if r.handler == Returned then 1 else 0
  {
    RunKeepsInv(es);
    assert Inv(Run(es).requests[id]);
  }

  /** The bytes that reach the client of a stream are at all times a prefix of upstream's, and all
      of them once the handler has drained the channel. */
  lemma ClientSeesAPrefix(es: seq<Event>, id: nat)
    requires id in Run(es).requests && Run(es).requests[id].body.Some?
    ensures var r := Run(es).requests[id];
            && IsPrefix(r.client, Flatten(r.body.value))
            && (r.drained ==> r.client == Flatten(r.body.value))
  {
    RunKeepsInv(es);
    var r := Run(es).requests[id];
    assert Inv(r);
    FlattenPrefix(r.body.value, PiecesRead(r));
    var read := Flatten(r.body.value[..PiecesRead(r)]);
    assert r.client == read[..|r.client|];
    assert r.client == Flatten(r.body.value)[..|r.client|];
  }

  /** What a waiting handler's own steps come to: 504 for the timer; for a result, 502 if it is an error,
      else its own status, with its body unless the chunks are to follow. */
  ghost predicate IsEndOfWait(r: Request, step: HandlerStep, r': Request) {
    && (r'.handler != Waiting <==> step == Timeout || (step == TakeResult && r.resultCh != []))
    && (step == Timeout ==> r'.handler == Returned && r'.statuses == [504] && r'.client == [])
    && (step == TakeResult && r.resultCh != [] ==>
          var result := r.resultCh[0];
          if result.err.Some? then r'.handler == Returned && r'.statuses == [502] && r'.client == []
          else
            && r'.statuses == [result.statusCode]
            && if result.streaming then r'.handler == Forwarding && r'.client == []
               else r'.handler == Returned && r'.client == result.body)
  }

  lemma OwnStepEndsTheWait(r: Request, step: HandlerStep)
    requires r.handler == Waiting && r.statuses == [] && r.client == []
    ensures IsEndOfWait(r, step, HandleStep(r, step))
  {
  }

  lemma OthersDoNotEndTheWait(s: State, e: Event, id: nat)
    requires Ownership(s) && id in s.requests && s.requests[id].handler == Waiting
    requires !(e.Handle? && e.id == id)
    ensures id in Step(s, e).requests && Step(s, e).requests[id].handler == Waiting
  {
    if e.Work? && e.l in s.busy && s.busy[e.l] == id {
      WorkMovesOn(s.requests[id], e.work);
    }
  }

  /** In every run, a wait is ended only by the handler's own steps, and in this way. A result that is
      there can always be taken. */
  lemma WaitEndsWithAnAnswer(es: seq<Event>, e: Event, id: nat)
    requires id in Run(es).requests && Run(es).requests[id].handler == Waiting
    ensures id in Run(es + [e]).requests
    ensures if e.Handle? && e.id == id then
              IsEndOfWait(Run(es).requests[id], e.step, Run(es + [e]).requests[id])
            else Run(es + [e]).requests[id].handler == Waiting
  {
    RunSnoc(es, e);
    RunKeepsInv(es);
    if e.Handle? && e.id == id {
      assert HandlerInv(Run(es).requests[id]);
      OwnStepEndsTheWait(Run(es).requests[id], e.step);
    } else {
      OthersDoNotEndTheWait(Run(es), e, id);
    }
  }

  /** The loop that tries a request can always deliver a result, and the waiting handler has it then. */
  lemma TryingCanConclude(es: seq<Event>, l: nat, id: nat, result: Result)
    requires l in Run(es).busy && Run(es).busy[l] == id && id in Run(es).requests
    requires Run(es).requests[id].work == Trying && !result.streaming
    ensures var r, r' := Run(es).requests[id], Run(es + [Work(l, Conclude(result))]).requests[id];
            r'.resultCh == [result] && r'.handler == r.handler
  {
    RunSnoc(es, Work(l, Conclude(result)));
    RunKeepsInv(es);
    assert Inv(Run(es).requests[id]);
    WorkIsLocal(Run(es), l, Conclude(result));
  }

  lemma QueuedCanBePopped(es: seq<Event>, l: nat, id: nat) returns (e: Event)
    requires l !in Run(es).busy && id in Run(es).queued && id in Run(es).requests
    ensures var s, s' := Run(es), Run(es + [e]);
            && l in s'.busy && s'.busy[l] == id && id in s'.requests
            && s'.requests[id] == s.requests[id].(work := Trying)
  {
    var i: nat :| i < |Run(es).queued| && Run(es).queued[i] == id;
    e := Pop(l, i);
    RunSnoc(es, e);
  }

  /** From every reachable state in which a handler waits, with some loop free, there is a run of at most
      two events after which a result is there for it (and then it can be taken). */
  lemma WaitingCanBeAnswered(es: seq<Event>, id: nat, free: nat) returns (more: seq<Event>)
    requires id in Run(es).requests && Run(es).requests[id].handler == Waiting && free !in Run(es).busy
    ensures |more| <= 2 && id in Run(es + more).requests
    ensures Run(es + more).requests[id].handler == Waiting && Run(es + more).requests[id].resultCh != []
  {
    more := [];
    assert es + more == es;
    RunKeepsInv(es);
    WaitingIsNeverForgotten(es);
    var r := Run(es).requests[id];
    assert Inv(r);
    if r.resultCh == [] {
      var l, es' := free, es;
      if id in Run(es).queued {
        var e := QueuedCanBePopped(es, free, id);
        more, es' := [e], es + [e];
      } else {
        assert Held(Run(es), id);
        l :| l in Run(es).busy && Run(es).busy[l] == id;
        assert Active(r);
      }
      var e := Work(l, Conclude(ZERO_RESULT));
      TryingCanConclude(es', l, id, ZERO_RESULT);
      RunSnoc(es', e);
      assert es + (more + [e]) == es' + [e];
      more := more + [e];
    }
  }

  /** A request is never in the hands of two loops, nor queued while a loop has it. */
  lemma OneLoopPerRequest(es: seq<Event>, l: nat, k: nat)
    requires l in Run(es).busy && k in Run(es).busy && Run(es).busy[l] == Run(es).busy[k]
    ensures l == k && Run(es).busy[l] !in Run(es).queued
  {
    RunKeepsInv(es);
  }

  /** A waiting handler is never forgotten: its request is queued, with a loop, or answered. */
  ghost predicate NotForgotten(s: State) {
    forall id :: id in s.requests && s.requests[id].handler == Waiting ==>
      id in s.queued || Held(s, id) || s.requests[id].resultCh != []
  }

  lemma {:induction false} WaitingIsNeverForgotten(es: seq<Event>)
    ensures NotForgotten(Run(es))
  {
    RunKeepsInv(es);
    if es != [] {
      var earlier, e := es[..|es| - 1], es[|es| - 1];
      WaitingIsNeverForgotten(earlier);
      RunKeepsInv(earlier);
      forall id | id in Run(es).requests && Run(es).requests[id].handler == Waiting
        ensures id in Run(es).queued || Held(Run(es), id) || Run(es).requests[id].resultCh != []
      {
        var r := Run(es).requests[id];
        assert Inv(r);
        if r.work == Unpopped {
          UnpoppedStaysQueued(Run(earlier), e, id);
        } else if Active(r) {
          assert Held(Run(es), id);
        }
      }
    }
  }

  lemma UnpoppedWasUnpopped(s: State, e: Event, id: nat)
    requires Ownership(s) && AllInv(s) && id in Step(s, e).requests && e != Push(id)
    requires var r := Step(s, e).requests[id]; r.handler == Waiting && r.work == Unpopped
    ensures id in s.requests && s.requests[id].handler == Waiting && s.requests[id].work == Unpopped
  {
    if id in s.requests { assert Inv(s.requests[id]); }
    if e.Handle? && e.id == id { HandlerMovesOn(s.requests[id], e.step); }
    if e.Work? && e.l in s.busy && s.busy[e.l] == id { WorkMovesOn(s.requests[id], e.work); }
  }

  lemma QueuedStaysQueued(s: State, e: Event, id: nat)
    requires id in s.queued && !(e.Pop? && e.i < |s.queued| && s.queued[e.i] == id)
    ensures id in Step(s, e).queued
  {
    var j :| 0 <= j < |s.queued| && s.queued[j] == id;
    if e.Pop? && e.i < |s.queued| {
      var rest := s.queued[..e.i] + s.queued[e.i + 1..];
      assert rest[if j < e.i then j else j - 1] == id;
    } else if e.Push? {
      assert (s.queued + [e.id])[j] == id;
    }
  }

  lemma UnpoppedStaysQueued(s: State, e: Event, id: nat)
    requires Ownership(s) && AllInv(s) && NotForgotten(s) && id in Step(s, e).requests
    requires var r := Step(s, e).requests[id]; r.handler == Waiting && r.work == Unpopped
    ensures id in Step(s, e).queued
  {
    if e == Push(id) && s.requests[id].handler == Entered {
      assert Step(s, e).queued[|s.queued|] == id;
      return;
    }
    if e != Push(id) { UnpoppedWasUnpopped(s, e, id); }
    assert Inv(s.requests[id]);
    assert !Held(s, id);
    assert id in s.queued;
    if e.Pop? && e.l in s.busy {
      assert Step(s, e) == s;
    } else {
      QueuedStaysQueued(s, e, id);
    }
  }

  // ------------------------------------------------------- progress while the client listens

  /** An upper bound on the steps left until a forwarding handler returns. */
  function Remaining(r: Request): nat {
    |r.chunks|
    + (if r.handler == Forwarding then 1 else 0)
    + match r.work
      case Pumping(next, hand) =>
        2 + (if hand.Some? then 2 else 0)
          + (if r.body.Some? && next <= |r.body.value| then 3 * (|r.body.value| - next) else 0)
      case Closing => 1
      case _ => 0
  }

  lemma WorkDecreases(r: Request, step: LoopStep)
    requires Inv(r) && r.body.Some?
    ensures WorkStep(r, step) == r || Remaining(WorkStep(r, step)) < Remaining(r)
  {
  }

  lemma ForwardingDecreases(r: Request, step: HandlerStep)
    requires Inv(r) && r.handler == Forwarding
    ensures HandleStep(r, step) == r || Remaining(HandleStep(r, step)) < Remaining(r)
  {
  }

  /** What an event does to a request that has been popped. */
  lemma EventOnRequest(s: State, e: Event, id: nat)
    requires Ownership(s) && id in s.requests && s.requests[id].handler != Entered && s.requests[id].work != Unpopped
    ensures id in Step(s, e).requests
    ensures var r, r' := s.requests[id], Step(s, e).requests[id];
            || r' == r
            || (e.Handle? && r' == HandleStep(r, e.step))
            || (e.Work? && r' == WorkStep(r, e.work))
  {
    if e.Pop? && e.i < |s.queued| {
      assert s.queued[e.i] in s.queued;
    }
  }

  /** Whatever happens next, a forwarding handler is not set back. */
  lemma ForwardingNeverRegresses(s: State, e: Event, id: nat)
    requires Ownership(s) && AllInv(s) && id in s.requests && s.requests[id].handler == Forwarding
    ensures Step(s, e).requests[id] == s.requests[id] || Remaining(Step(s, e).requests[id]) < Remaining(s.requests[id])
  {
    var r := s.requests[id];
    assert Inv(r);
    EventOnRequest(s, e, id);
    if e.Handle? { ForwardingDecreases(r, e.step); }
    if e.Work? { WorkDecreases(r, e.work); }
  }

  lemma SendProceeds(r: Request)
    requires WorkInv(r) && r.work.Pumping? && r.work.hand.Some? && |r.chunks| < CHUNKS_CAPACITY
    ensures Remaining(OnSendChunk(r)) < Remaining(r)
  {
  }

  lemma ReadProceeds(r: Request)
    requires WorkInv(r) && r.work.Pumping? && r.work.hand == None
    ensures Remaining(OnReadPiece(r)) < Remaining(r)
  {
  }

  /** The loop that holds a request with a free channel can always go on. */
  lemma WorkCanProceed(r: Request) returns (step: LoopStep)
    requires Inv(r) && r.body.Some? && Active(r) && |r.chunks| < CHUNKS_CAPACITY
    ensures Remaining(WorkStep(r, step)) < Remaining(r)
  {
    if r.work == Closing {
      step := CloseChunks;
    } else if r.work.hand.Some? {
      step := SendChunk;
      SendProceeds(r);
    } else {
      step := ReadPiece;
      ReadProceeds(r);
    }
  }

  lemma WorkIsLocal(s: State, l: nat, step: LoopStep)
    requires l in s.busy && s.busy[l] in s.requests
    ensures Step(s, Work(l, step)).requests == s.requests[s.busy[l] := WorkStep(s.requests[s.busy[l]], step)]
  {
  }

  /** And some step that brings it closer to its end is always possible, so no stream whose client
      listens gets stuck. */
  lemma ForwardingCanProceed(s: State, id: nat) returns (e: Event)
    requires Ownership(s) && AllInv(s) && id in s.requests && s.requests[id].handler == Forwarding
    ensures Remaining(Step(s, e).requests[id]) < Remaining(s.requests[id])
  {
    var r := s.requests[id];
    assert Inv(r);
    if r.chunks != [] {
      e := Handle(id, TakeChunk);
    } else if r.work == Finished {
      e := Handle(id, EndOfChunks);
    } else {
      assert Held(s, id);
      var l :| l in s.busy && s.busy[l] == id;
      var step := WorkCanProceed(r);
      e := Work(l, step);
      WorkIsLocal(s, l, step);
    }
  }

  lemma {:induction false} RunFromCons(s: State, e: Event, es: seq<Event>)
    ensures RunFrom(s, [e] + es) == RunFrom(Step(s, e), es)
  {
    var all := [e] + es;
    if es == [] {
      assert all[..0] == [];
      assert RunFrom(s, all[..0]) == s;
    } else {
      var n := |es| - 1;
      RunFromCons(s, e, es[..n]);
      assert all[..n + 1] == [e] + es[..n];
    }
  }

  lemma HandlerOfForwarding(r: Request, step: HandlerStep)
    requires r.handler == Forwarding
    ensures var r' := HandleStep(r, step);
            r'.body == r.body && (r'.handler == Forwarding || (r'.handler == Returned && r'.drained))
  {
  }

  lemma WorkOnForwarding(r: Request, step: LoopStep)
    requires Inv(r) && r.handler == Forwarding
    ensures WorkStep(r, step).body == r.body && WorkStep(r, step).handler == Forwarding
  {
  }

  /** A forwarding handler goes on forwarding the same body until it has drained the channel. */
  lemma ForwardingGoesOn(s: State, e: Event, id: nat)
    requires Ownership(s) && AllInv(s) && id in s.requests && s.requests[id].handler == Forwarding
    ensures id in Step(s, e).requests
    ensures var r, r' := s.requests[id], Step(s, e).requests[id];
            r'.body == r.body && (r'.handler == Forwarding || (r'.handler == Returned && r'.drained))
  {
    var r := s.requests[id];
    assert Inv(r);
    EventOnRequest(s, e, id);
    if e.Handle? { HandlerOfForwarding(r, e.step); }
    if e.Work? { WorkOnForwarding(r, e.work); }
  }

  /** From every state in which a handler forwards, there is a run after which it has returned, having
      drained the channel, and its client has the whole body. */
  lemma {:induction false} ForwardingCanComplete(s: State, id: nat) returns (es: seq<Event>)
    requires Ownership(s) && AllInv(s) && id in s.requests && s.requests[id].handler == Forwarding
    ensures id in RunFrom(s, es).requests
    ensures var r, r' := s.requests[id], RunFrom(s, es).requests[id];
            && r'.handler == Returned && r'.drained
            && r.body.Some? && r'.body == r.body && r'.client == Flatten(r.body.value)
    decreases Remaining(s.requests[id])
  {
    assert Inv(s.requests[id]);
    var e := ForwardingCanProceed(s, id);
    var s' := Step(s, e);
    StepKeepsAll(s, e);
    StepKeepsOwnership(s, e);
    ForwardingGoesOn(s, e, id);
    if s'.requests[id].handler == Forwarding {
      var rest := ForwardingCanComplete(s', id);
      es := [e] + rest;
      RunFromCons(s, e, rest);
    } else {
      es := [e];
      assert es[..0] == [] && RunFrom(s, es[..0]) == s;
      assert RunFrom(s, es) == s';
      assert Inv(s'.requests[id]);
    }
  }

  // ------------------------------------------------------- a stream whose client has gone

  /** The chunks still to be sent. */
  function Unsent(r: Request): nat {
    if r.work.Pumping? && r.body.Some? && r.work.next <= |r.body.value| then
      (if r.work.hand.Some? then 1 else 0) + |ChunksOf(r.body.value[r.work.next..])|
    else 0
  }

  lemma {:induction false} ChunksOfCons(piece: seq<byte>, pieces: seq<seq<byte>>)
    ensures |ChunksOf([piece] + pieces)| == |ChunksOf(pieces)| + if NonEmpty(piece) then 1 else 0
  {
    if pieces == [] {
      assert [piece] + pieces == [piece];
      assert [piece][..0] == [];
    } else {
      var n := |pieces| - 1;
      ChunksOfCons(piece, pieces[..n]);
      assert ([piece] + pieces)[..n + 1] == [piece] + pieces[..n];
    }
  }

  /** Nobody takes chunks any more, and the loop is still pumping. */
  ghost predicate Abandoned(r: Request) {
    Inv(r) && r.handler == Returned && r.work.Pumping?
  }

  lemma RestShrinks(pieces: seq<seq<byte>>, k: nat)
    requires k < |pieces|
    ensures |ChunksOf(pieces[k..])| == |ChunksOf(pieces[k + 1..])| + if NonEmpty(pieces[k]) then 1 else 0
  {
    assert pieces[k..] == [pieces[k]] + pieces[k + 1..];
    ChunksOfCons(pieces[k], pieces[k + 1..]);
  }

  lemma NoRest(pieces: seq<seq<byte>>)
    ensures ChunksOf(pieces[|pieces|..]) == []
  {
  }

  lemma ReadKeepsTotal(r: Request)
    requires r.work.Pumping? && r.body.Some? && r.work.next <= |r.body.value|
    ensures var r' := OnReadPiece(r); |r'.chunks| + Unsent(r') == |r.chunks| + Unsent(r)
  {
    if r.work.hand == None && r.work.next < |r.body.value| {
      RestShrinks(r.body.value, r.work.next);
      if r.work.next + 1 == |r.body.value| {
        NoRest(r.body.value);
      }
    }
  }

  lemma SendKeepsTotal(r: Request)
    requires Abandoned(r)
    ensures var r' := OnSendChunk(r); |r'.chunks| + Unsent(r') == |r.chunks| + Unsent(r)
  {
    NoRest(r.body.value);
  }

  lemma AbandonedWorkKeepsTotal(r: Request, step: LoopStep)
    requires Abandoned(r)
    ensures var r' := WorkStep(r, step); |r'.chunks| + Unsent(r') == |r.chunks| + Unsent(r)
    ensures var r' := WorkStep(r, step); r'.handler == Returned && (r'.work.Pumping? || r'.work == Closing)
  {
    match step
    case ReadPiece => ReadKeepsTotal(r);
    case SendChunk => SendKeepsTotal(r);
    case Conclude(_) =>
    case Commit(_, _) =>
    case CloseChunks =>
  }

  ghost predicate Stuck(s: State, l: nat, id: nat) {
    && Ownership(s) && AllInv(s)
    && l in s.busy && s.busy[l] == id
    && Abandoned(s.requests[id])
    && |s.requests[id].chunks| + Unsent(s.requests[id]) > CHUNKS_CAPACITY
  }

  /** Only the loop itself touches a request whose handler has returned. */
  lemma OthersLeaveAlone(s: State, l: nat, id: nat, e: Event)
    requires Ownership(s) && l in s.busy && s.busy[l] == id && s.requests[id].handler == Returned
    requires !(e.Work? && e.l == l)
    ensures var s' := Step(s, e); s'.requests[id] == s.requests[id] && l in s'.busy && s'.busy[l] == id
  {
    assert Active(s.requests[id]);
    if e.Pop? && e.i < |s.queued| {
      assert s.queued[e.i] in s.queued;
    }
  }

  lemma StuckStep(s: State, l: nat, id: nat, e: Event)
    requires Stuck(s, l, id)
    ensures Stuck(Step(s, e), l, id)
  {
    StepKeepsAll(s, e);
    StepKeepsOwnership(s, e);
    if e.Work? && e.l == l {
      AbandonedWorkKeepsTotal(s.requests[id], e.work);
      assert Inv(Step(s, e).requests[id]);
    } else {
      OthersLeaveAlone(s, l, id, e);
    }
  }

  /** After a gateway timeout nobody reads Chunks. If more chunks are outstanding than the channel
      holds, the loop never gets free again, whatever happens afterwards. */
  lemma {:induction false} AbandonedStreamHoldsItsLoop(s: State, l: nat, id: nat, es: seq<Event>)
    requires Stuck(s, l, id)
    ensures Stuck(RunFrom(s, es), l, id)
  {
    if es != [] {
      AbandonedStreamHoldsItsLoop(s, l, id, es[..|es| - 1]);
      StuckStep(RunFrom(s, es[..|es| - 1]), l, id, es[|es| - 1]);
    }
  }

  /** If they all fit, the loop can always take another step toward its end. */
  lemma AbandonedStreamThatFitsCanProceed(s: State, l: nat, id: nat) returns (step: LoopStep)
    requires Ownership(s) && AllInv(s) && l in s.busy && s.busy[l] == id && Abandoned(s.requests[id])
    requires |s.requests[id].chunks| + Unsent(s.requests[id]) <= CHUNKS_CAPACITY
    ensures var r, r' := s.requests[id], Step(s, Work(l, step)).requests[id];
            Remaining(r') < Remaining(r) && |r'.chunks| + Unsent(r') <= CHUNKS_CAPACITY
  {
    step := AbandonedWorkCanProceed(s.requests[id]);
    WorkIsLocal(s, l, step);
  }

  lemma AbandonedWorkCanProceed(r: Request) returns (step: LoopStep)
    requires Abandoned(r) && |r.chunks| + Unsent(r) <= CHUNKS_CAPACITY
    ensures Remaining(WorkStep(r, step)) < Remaining(r)
    ensures |WorkStep(r, step).chunks| + Unsent(WorkStep(r, step)) <= CHUNKS_CAPACITY
  {
    if r.work.hand.Some? {
      step := SendChunk;
      SendKeepsTotal(r);
      SendProceeds(r);
    } else {
      step := ReadPiece;
      ReadKeepsTotal(r);
      ReadProceeds(r);
    }
  }

  /** The handler has returned, and loop l is still pumping the stream or about to close it. */
  ghost predicate Forsaken(s: State, l: nat, id: nat) {
    && Ownership(s) && AllInv(s)
    && l in s.busy && s.busy[l] == id && s.requests[id].handler == Returned
    && (s.requests[id].work.Pumping? || s.requests[id].work == Closing)
  }

  predicate Fits(r: Request) {
    |r.chunks| + Unsent(r) <= 16
  }

  lemma ClosingReleases(s: State, l: nat, id: nat)
    requires Forsaken(s, l, id) && s.requests[id].work == Closing
    ensures l !in Step(s, Work(l, CloseChunks)).busy
  {
    assert WorkInv(s.requests[id]) && !s.requests[id].closed;
    assert WorkStep(s.requests[id], CloseChunks).work == Finished;
  }

  lemma ForsakenGoesOn(s: State, l: nat, id: nat, step: LoopStep)
    requires Forsaken(s, l, id) && s.requests[id].work.Pumping?
    ensures Forsaken(Step(s, Work(l, step)), l, id)
  {
    StepKeepsAll(s, Work(l, step));
    StepKeepsOwnership(s, Work(l, step));
    assert Abandoned(s.requests[id]);
    AbandonedWorkKeepsTotal(s.requests[id], step);
    WorkIsLocal(s, l, step);
  }

  /** And so there is a run after which it has let go of the request. */
  lemma {:induction false} ForsakenLoopGetsFree(s: State, l: nat, id: nat) returns (es: seq<Event>)
    requires Forsaken(s, l, id) && Fits(s.requests[id])
    ensures l !in RunFrom(s, es).busy
    decreases Remaining(s.requests[id])
  {
    var e, rest := Work(l, CloseChunks), [];
    if s.requests[id].work == Closing {
      ClosingReleases(s, l, id);
      assert RunFrom(Step(s, e), rest) == Step(s, e);
    } else {
      assert Abandoned(s.requests[id]);
      var step := AbandonedStreamThatFitsCanProceed(s, l, id);
      e := Work(l, step);
      ForsakenGoesOn(s, l, id, step);
      rest := ForsakenLoopGetsFree(Step(s, e), l, id);
    }
    es := [e] + rest;
    RunFromCons(s, e, rest);
  }

  /** Exactly: a loop whose client has gone can still get free if and only if what it has queued and
      what it has yet to send fit the channel together. If not, it is busy in every continuation. */
  lemma LoopGetsFreeExactlyWhenItFits(s: State, l: nat, id: nat)
    requires Forsaken(s, l, id)
    ensures (exists es :: l !in RunFrom(s, es).busy) <==> Fits(s.requests[id])
  {
    if Fits(s.requests[id]) {
      var es := ForsakenLoopGetsFree(s, l, id);
    } else {
      assert Inv(s.requests[id]);
      assert Stuck(s, l, id);
      forall es ensures l in RunFrom(s, es).busy {
        AbandonedStreamHoldsItsLoop(s, l, id, es);
      }
    }
  }

  lemma RunSnoc(es: seq<Event>, e: Event)
    ensures Run(es + [e]) == Step(Run(es), e)
  {
    assert (es + [e])[..|es|] == es;
  }

  /** A streaming request is popped, and its client waits. */
  lemma AStreamIsPopped() returns (es: seq<Event>)
    ensures Run(es) == State(map[1 := Fresh(true).(handler := Waiting, work := Trying)], [], map[0 := 1])
  {
    var es1 := [] + [Arrive(1, true)];
    var es2 := es1 + [Push(1)];
    RunSnoc([], Arrive(1, true));
    RunSnoc(es1, Push(1));
    RunSnoc(es2, Pop(0, 0));
    assert RunFrom(START, []) == START;
    assert Run(es1).requests == map[1 := Fresh(true)];
    assert Run(es2).requests == map[1 := Fresh(true).(handler := Waiting)] && Run(es2).queued == [1];
    es := es2 + [Pop(0, 0)];
  }

  /** Such a run exists: the client times out while the loop is still trying, and upstream then
      answers with one chunk more than the channel holds. */
  lemma TimeoutCanCostALoop() returns (es: seq<Event>)
    ensures Stuck(Run(es), 0, 1)
  {
    var pieces := seq(CHUNKS_CAPACITY + 1, _ => [0 as byte]);
    var u := Responds(200, "text/event-stream", pieces, false);
    var es3 := AStreamIsPopped();
    var es4 := es3 + [Handle(1, Timeout)];
    RunSnoc(es3, Handle(1, Timeout));
    RunSnoc(es4, Work(0, Commit("m", u)));
    es := es4 + [Work(0, Commit("m", u))];
    RunKeepsInv(es);
    CommittedIsStuck(Run(es4), Run(es), pieces);
  }

  lemma CommittedIsStuck(s: State, s': State, pieces: seq<seq<byte>>)
    requires pieces == seq(CHUNKS_CAPACITY + 1, _ => [0 as byte])
    requires 0 in s.busy && s.busy[0] == 1 && 1 in s.requests
    requires s.requests[1]
          == Fresh(true).(handler := Returned, work := Trying, statuses := [GATEWAY_TIMEOUT], hooks := 1)
    requires s' == Step(s, Work(0, Commit("m", Responds(200, "text/event-stream", pieces, false))))
    requires Ownership(s') && AllInv(s')
    ensures Stuck(s', 0, 1)
  {
    var r := s'.requests[1];
    assert r.work == Pumping(0, None) && r.body == Some(pieces);
    AllNonEmpty(pieces);
    assert pieces[0..] == pieces;
    assert Inv(r);
  }

  lemma {:induction false} AllNonEmpty(pieces: seq<seq<byte>>)
    requires forall i :: 0 <= i < |pieces| ==> NonEmpty(pieces[i])
    ensures ChunksOf(pieces) == pieces
  {
    if pieces != [] { AllNonEmpty(pieces[..|pieces| - 1]); }
  }
}
