/** Forwarding one request upstream (request-plane/dispatcher/dispatcher.go): the nested
    retry-and-fallback loops, and the pump that turns an upstream body into chunks.

    What upstream does is an arbitrary oracle: the outcome of the k-th trial of a request is
    `env(k)`. Whether the body can be rewritten for a model is the oracle `canRewrite`. */
module Dispatching {
  import opened Channels
  import opened Http
  import opened Options
  import Arithmetic

  type byte = x: int | 0 <= x < 256

  /** Everything one call to buildRequest, Do and the body's reader can do. `pieces` are the bytes
      that successive Read calls deliver; the last one comes with EOF or, if `broken`, an error. */
  datatype Upstream =
    | BuildFails
    | Unreachable
    | Responds(status: nat, contentType: string, pieces: seq<seq<byte>>, broken: bool)

  datatype Error =
    | RewriteFailed(model: string)
    | BuildFailed
    | UpstreamUnreachable
    | ReadFailed

  datatype Result = Result(
    statusCode: nat, body: seq<byte>, err: Option<Error>, servedModel: string, streaming: bool, contentType: string)

  const ZERO_RESULT := Result(0, [], None, "", false, "")

  function Failure(e: Error, model: string): Result {
    Result(0, [], Some(e), model, false, "")
  }

  function Flatten(pieces: seq<seq<byte>>): seq<byte> {
    if pieces == [] then [] else Flatten(pieces[..|pieces| - 1]) + pieces[|pieces| - 1]
  }

  predicate IsRetryableStatus(code: nat) {
    code == SERVICE_UNAVAILABLE || code == BAD_GATEWAY
  }

  // ---------------------------------------------------------------- the flat search

  /** The nested loops, laid out: one failed rewrite, or maxAttempts attempts, per model. */
  datatype Trial = Rewrite(model: string) | Attempt(model: string)

  datatype Mode = Buffered | Streamed

  /** Whether the loops go on after this trial. */
  predicate Retries(mode: Mode, t: Trial, u: Upstream) {
    match (t, u)
    case (Rewrite(_), _) => true
    case (Attempt(_), BuildFails) => mode == Streamed
    case (Attempt(_), Unreachable) => true
    case (Attempt(_), Responds(status, _, _, broken)) => IsRetryableStatus(status) && (mode == Streamed || !broken)
  }

  /** What the trial would deliver if it were the last. */
  function ResultOf(mode: Mode, t: Trial, u: Upstream): Result {
    match (t, u)
    case (Rewrite(m), _) => Failure(RewriteFailed(m), "")
    case (Attempt(m), BuildFails) => Failure(BuildFailed, m)
    case (Attempt(m), Unreachable) => Failure(UpstreamUnreachable, m)
    case (Attempt(m), Responds(status, contentType, pieces, broken)) =>
      if mode == Streamed && !IsRetryableStatus(status) then Result(status, [], None, m, true, contentType)
      else if mode == Buffered && broken then Failure(ReadFailed, m)
      else Result(status, Flatten(pieces), None, m, false, "")
  }

  /** The first trial after which the loops do not go on; |ts| if there is none. */
  function StopAt(mode: Mode, ts: seq<Trial>, env: nat -> Upstream): (k: nat)
    ensures k <= |ts|
    ensures forall j :: 0 <= j < k ==> Retries(mode, ts[j], env(j))
    ensures k < |ts| ==> !Retries(mode, ts[k], env(k))
  {
    if ts == [] then 0
    else
      var n := |ts| - 1;
      var k := StopAt(mode, ts[..n], env);
      if k < n || !Retries(mode, ts[n], env(n)) then k else |ts|
  }

  /** The first non-retryable outcome, else the last one. */
  function Delivered(mode: Mode, ts: seq<Trial>, env: nat -> Upstream): Result
    requires ts != []
  {
    var k := StopAt(mode, ts, env);
    var last := if k < |ts| then k else |ts| - 1;
    ResultOf(mode, ts[last], env(last))
  }

  /** The loops after k trials, all of which said to go on. */
  ghost predicate Searching(mode: Mode, ts: seq<Trial>, env: nat -> Upstream, k: nat, final: Result) {
    && k <= |ts|
    && (forall j :: 0 <= j < k ==> Retries(mode, ts[j], env(j)))
    && (k > 0 ==> final == ResultOf(mode, ts[k - 1], env(k - 1)))
  }

  lemma SearchGoesOn(mode: Mode, ts: seq<Trial>, env: nat -> Upstream, k: nat, final: Result)
    requires Searching(mode, ts, env, k, final) && k < |ts| && Retries(mode, ts[k], env(k))
    ensures Searching(mode, ts, env, k + 1, ResultOf(mode, ts[k], env(k)))
  {
  }

  lemma SearchStops(mode: Mode, ts: seq<Trial>, env: nat -> Upstream, k: nat, final: Result)
    requires Searching(mode, ts, env, k, final) && k < |ts| && !Retries(mode, ts[k], env(k))
    ensures StopAt(mode, ts, env) == k && Delivered(mode, ts, env) == ResultOf(mode, ts[k], env(k))
  {
  }

  lemma SearchIsExhausted(mode: Mode, ts: seq<Trial>, env: nat -> Upstream, final: Result)
    requires ts != [] && Searching(mode, ts, env, |ts|, final)
    ensures StopAt(mode, ts, env) == |ts| && Delivered(mode, ts, env) == final
  {
  }

  /** How many trials a search makes. */
  function Tried(mode: Mode, ts: seq<Trial>, env: nat -> Upstream): nat {
    var k := StopAt(mode, ts, env);
    if k < |ts| then k + 1 else k
  }

  // ---------------------------------------------------------------- what to expect of it

  /** The outcome of an attempt does not end the search. */
  predicate GoesOn(mode: Mode, u: Upstream) {
    match u
    case BuildFails => mode == Streamed
    case Unreachable => true
    case Responds(status, _, _, broken) => status in {502, 503} && (mode == Streamed || !broken)
  }

  /** What comes of an attempt for this model on which the search ends, or which is its last. */
  predicate IsOutcome(mode: Mode, model: string, u: Upstream, r: Result) {
    && r.servedModel == model
    && match u
       case BuildFails => r.err == Some(BuildFailed)
       case Unreachable => r.err == Some(UpstreamUnreachable)
       case Responds(status, contentType, pieces, broken) =>
         if mode == Buffered && broken then r.err == Some(ReadFailed)
         else
           && r.err == None && r.statusCode == status
           && (r.streaming <==> mode == Streamed && status !in {502, 503})
           && if r.streaming then r.body == [] && r.contentType == contentType else r.body == Flatten(pieces)
  }

  lemma AttemptGivesOutcome(mode: Mode, model: string, u: Upstream)
    ensures Retries(mode, Attempt(model), u) <==> GoesOn(mode, u)
    ensures IsOutcome(mode, model, u, ResultOf(mode, Attempt(model), u))
  {
  }

  lemma SearchEndsAt(mode: Mode, ts: seq<Trial>, env: nat -> Upstream, k: nat)
    requires k < |ts| && forall i :: 0 <= i < k ==> Retries(mode, ts[i], env(i))
    requires ts[k].Attempt? && !GoesOn(mode, env(k))
    ensures Tried(mode, ts, env) == k + 1
    ensures IsOutcome(mode, ts[k].model, env(k), Delivered(mode, ts, env))
  {
    AttemptGivesOutcome(mode, ts[k].model, env(k));
    assert StopAt(mode, ts, env) == k;
  }

  lemma SearchRunsOut(mode: Mode, ts: seq<Trial>, env: nat -> Upstream)
    requires ts != [] && forall i :: 0 <= i < |ts| ==> Retries(mode, ts[i], env(i))
    ensures var n := |ts| - 1;
            && Tried(mode, ts, env) == |ts|
            && (if ts[n].Attempt? then IsOutcome(mode, ts[n].model, env(n), Delivered(mode, ts, env))
                else Delivered(mode, ts, env) == Failure(RewriteFailed(ts[n].model), ""))
  {
    var n := |ts| - 1;
    assert StopAt(mode, ts, env) == |ts|;
    AttemptGivesOutcome(mode, ts[n].model, env(n));
  }

  /** Nothing retryable is delivered while there is something left to try. */
  lemma EarlyEndIsFinal(mode: Mode, ts: seq<Trial>, env: nat -> Upstream)
    requires ts != [] && Tried(mode, ts, env) < |ts|
    ensures Delivered(mode, ts, env).err == None ==> Delivered(mode, ts, env).statusCode !in {502, 503}
  {
    var k := StopAt(mode, ts, env);
    assert k < |ts| && !Retries(mode, ts[k], env(k));
    AttemptGivesOutcome(mode, ts[k].model, env(k));
  }

  // ---------------------------------------------------------------- the objects

  /** An upstream response body, as a reader. */
  class Body {
    const pieces: seq<seq<byte>>
    var next: nat

    constructor (pieces: seq<seq<byte>>)
      ensures this.pieces == pieces && next == 0
    {
      this.pieces, next := pieces, 0;
    }

    /** Overwrites the front of buf; `end` comes with the last piece. */
    method Read(buf: array<byte>) returns (n: nat, end: bool)
      requires next < |pieces| && |pieces[next]| <= buf.Length
      modifies this`next, buf
      ensures next == old(next) + 1
      ensures n == |pieces[old(next)]| && buf[..n] == pieces[old(next)]
      ensures end <==> next == |pieces|
    {
      var piece := pieces[next];
      n := |piece|;
      for i := 0 to n
        invariant next == old(next)
        invariant buf[..i] == piece[..i]
      {
        buf[i] := piece[i];
      }
      next := next + 1;
      end := next == |pieces|;
    }
  }

  /** What a list of slices holds now. */
  ghost function Snapshots(slices: seq<array<byte>>): (contents: seq<seq<byte>>)
    reads slices
    ensures |contents| == |slices|
  {
    seq(|slices|, i requires 0 <= i < |slices| reads slices => slices[i][..])
  }

  /** What has gone into a request's Chunks channel, oldest first. The receiver holds these very
      slices and may look at them at any time. How the bounded channel makes the two sides wait
      for each other is the subject of ResponseProtocol. */
  class ChunkStream {
    var sent: seq<array<byte>>
    var closed: bool

    constructor ()
      ensures sent == [] && !closed
    {
      sent, closed := [], false;
    }

    ghost function Contents(): seq<seq<byte>>
      reads this`sent, sent
    {
      Snapshots(sent)
    }

    method Send(chunk: array<byte>)
      requires !closed
      modifies this
      ensures sent == old(sent) + [chunk] && !closed
    {
      sent := sent + [chunk];
    }

    method Close()
      requires !closed
      modifies this`closed
      ensures closed
    {
      closed := true;
    }
  }

  const BUFFER_SIZE := 4096

  predicate NonEmpty(piece: seq<byte>) {
    piece != []
  }

  /** The pieces that become chunks. */
  function ChunksOf(pieces: seq<seq<byte>>): seq<seq<byte>> {
    if pieces == [] then []
    else
      var n := |pieces| - 1;
      ChunksOf(pieces[..n]) + if NonEmpty(pieces[n]) then [pieces[n]] else []
  }

  lemma {:induction false} ChunksCarryTheBody(pieces: seq<seq<byte>>)
    ensures Flatten(ChunksOf(pieces)) == Flatten(pieces)
  {
    if pieces != [] {
      var n := |pieces| - 1;
      ChunksCarryTheBody(pieces[..n]);
      var chunks := ChunksOf(pieces[..n]);
      if NonEmpty(pieces[n]) {
        assert (chunks + [pieces[n]])[..|chunks|] == chunks;
      } else {
        assert ChunksOf(pieces) == chunks;
      }
    }
  }

  predicate FitsBuffer(pieces: seq<seq<byte>>): (fits: bool)
    ensures fits <==> pieces != [] && forall i :: 0 <= i < |pieces| ==> |pieces[i]| <= 4096
  {
    pieces != [] && forall i :: 0 <= i < |pieces| ==> |pieces[i]| <= BUFFER_SIZE
  }

  /** Pumps a body into chunks through one reused buffer. Every chunk is a fresh slice: at the end
      each of them still holds the bytes of its own piece, however often the buffer was refilled. */
  method StreamBody(chunks: ChunkStream, body: Body)
    requires !chunks.closed && chunks.sent == [] && body.next == 0 && FitsBuffer(body.pieces)
    modifies chunks, body
    ensures !chunks.closed
    ensures fresh(chunks.sent)
    ensures chunks.Contents() == ChunksOf(body.pieces)
    ensures Flatten(chunks.Contents()) == Flatten(body.pieces)
  {
    var buf := new byte[BUFFER_SIZE];
    var end := false;
    while !end
      invariant fresh(buf) && fresh(chunks.sent) && buf !in chunks.sent
      invariant !chunks.closed
      invariant body.next <= |body.pieces| && (end <==> body.next == |body.pieces|)
      invariant chunks.Contents() == ChunksOf(body.pieces[..body.next])
      decreases |body.pieces| - body.next
    {
      ghost var before := chunks.Contents();
      ghost var piece := body.pieces[body.next];
      ghost var i := body.next;
      var n;
      n, end := body.Read(buf);
      assert chunks.Contents() == before;
      assert body.pieces[..i + 1][..i] == body.pieces[..i];
      if n > 0 {
        var chunk := new byte[n];
        forall j | 0 <= j < n {
          chunk[j] := buf[j];
        }
        assert chunk[..] == buf[..n] == piece;
        ghost var sent := chunks.sent;
        chunks.Send(chunk);
        assert forall j :: 0 <= j < |sent| ==> chunks.sent[j] == sent[j] && chunks.sent[j][..] == before[j];
        assert chunks.Contents() == before + [piece];
      }
    }
    assert body.pieces[..body.next] == body.pieces;
    ChunksCarryTheBody(body.pieces);
  }

  class Dispatcher {
    const fallbacks: map<string, seq<string>>
    const maxAttempts: nat

    /** New with WithMaxAttempts(n) and WithFallbacks(fallbacks). */
    constructor (n: int, fallbacks: map<string, seq<string>>)
      ensures maxAttempts == (if n < 1 then 1 else n) && maxAttempts >= 1
      ensures this.fallbacks == fallbacks
    {
      maxAttempts := if n < 1 then 1 else n;
      this.fallbacks := fallbacks;
    }

    function Chain(model: string): (chain: seq<string>)
      ensures chain != [] && chain[0] == model
    {
      [model] + if model in fallbacks then fallbacks[model] else []
    }

    function AttemptsFor(model: string): (block: seq<Trial>)
      ensures |block| == maxAttempts && forall t :: t in block ==> t == Attempt(model)
    {
      seq(maxAttempts, _ => Attempt(model))
    }

    /** The trials for one model of the chain. */
    function Block(requested: string, model: string, canRewrite: string -> bool): seq<Trial> {
      if model != requested && !canRewrite(model) then [Rewrite(model)]
      else AttemptsFor(model)
    }

    function TrialsOf(requested: string, chain: seq<string>, canRewrite: string -> bool): seq<Trial> {
      if chain == [] then []
      else
        var n := |chain| - 1;
        TrialsOf(requested, chain[..n], canRewrite) + Block(requested, chain[n], canRewrite)
    }

    function Trials(model: string, canRewrite: string -> bool): seq<Trial> {
      TrialsOf(model, Chain(model), canRewrite)
    }

    /** Where the block of the c-th model of the chain begins. */
    function Offset(requested: string, chain: seq<string>, c: nat, canRewrite: string -> bool): nat
      requires c <= |chain|
    {
      |TrialsOf(requested, chain[..c], canRewrite)|
    }

    lemma {:induction false} TrialsArePrefix(requested: string, chain: seq<string>, c: nat, canRewrite: string -> bool)
      requires c <= |chain|
      ensures TrialsOf(requested, chain[..c], canRewrite) <= TrialsOf(requested, chain, canRewrite)
    {
      var n := |chain| - 1;
      if c <= n {
        TrialsArePrefix(requested, chain[..n], c, canRewrite);
        assert chain[..n][..c] == chain[..c];
      } else {
        assert chain[..c] == chain;
      }
    }

    lemma BlockIsThere(requested: string, chain: seq<string>, c: nat, canRewrite: string -> bool)
      requires c < |chain|
      ensures var ts, start := TrialsOf(requested, chain, canRewrite), Offset(requested, chain, c, canRewrite);
              var block := Block(requested, chain[c], canRewrite);
              && start + |block| == Offset(requested, chain, c + 1, canRewrite) <= |ts|
              && ts[start..start + |block|] == block
    {
      var ts, next := TrialsOf(requested, chain, canRewrite), TrialsOf(requested, chain[..c + 1], canRewrite);
      assert chain[..c + 1][..c] == chain[..c];
      assert next == TrialsOf(requested, chain[..c], canRewrite) + Block(requested, chain[c], canRewrite);
      TrialsArePrefix(requested, chain, c + 1, canRewrite);
      assert ts[..|next|] == next;
    }

    /** The trials from `start` on are the attempts for one model. */
    ghost predicate AttemptsAt(ts: seq<Trial>, start: nat, model: string) {
      start + maxAttempts <= |ts| && ts[start..start + maxAttempts] == AttemptsFor(model)
    }

    lemma AttemptIsThere(ts: seq<Trial>, start: nat, model: string, j: nat)
      requires AttemptsAt(ts, start, model) && j < maxAttempts
      ensures ts[start + j] == Attempt(model)
    {
      assert ts[start..start + maxAttempts][j] == ts[start + j];
    }

    lemma AttemptsAreThere(requested: string, chain: seq<string>, c: nat, canRewrite: string -> bool)
      requires c < |chain| && (chain[c] == requested || canRewrite(chain[c]))
      ensures var ts, start := TrialsOf(requested, chain, canRewrite), Offset(requested, chain, c, canRewrite);
              AttemptsAt(ts, start, chain[c]) && start + maxAttempts == Offset(requested, chain, c + 1, canRewrite)
    {
      BlockIsThere(requested, chain, c, canRewrite);
    }

    lemma RewriteIsThere(requested: string, chain: seq<string>, c: nat, canRewrite: string -> bool)
      requires c < |chain| && chain[c] != requested && !canRewrite(chain[c])
      ensures var ts, start := TrialsOf(requested, chain, canRewrite), Offset(requested, chain, c, canRewrite);
              && start + 1 == Offset(requested, chain, c + 1, canRewrite) <= |ts|
              && ts[start] == Rewrite(chain[c])
    {
      BlockIsThere(requested, chain, c, canRewrite);
      var ts, start := TrialsOf(requested, chain, canRewrite), Offset(requested, chain, c, canRewrite);
      assert ts[start..start + 1][0] == Rewrite(chain[c]);
    }

    /** There is always a trial, and never more than maxAttempts per model. */
    lemma {:induction false} TrialsBounded(requested: string, chain: seq<string>, canRewrite: string -> bool)
      requires maxAttempts >= 1
      ensures |chain| <= |TrialsOf(requested, chain, canRewrite)| <= maxAttempts * |chain|
    {
      if chain != [] {
        TrialsBounded(requested, chain[..|chain| - 1], canRewrite);
        Arithmetic.Distribute(maxAttempts, |chain| - 1, 1);
      }
    }

    lemma TrialsExist(model: string, canRewrite: string -> bool)
      requires maxAttempts >= 1
      ensures Trials(model, canRewrite) != []
    {
      TrialsBounded(model, Chain(model), canRewrite);
    }

    // -------------------------------------------------------------- the order of the models

    /** The number of the first trial for the c-th fallback, if it comes to that: the requested model
        takes maxAttempts, and so does every fallback before, or one if its body cannot be rewritten. */
    ghost function FirstTrial(model: string, c: nat, canRewrite: string -> bool): nat
      requires model in fallbacks && c <= |fallbacks[model]|
    {
      if c == 0 then maxAttempts
      else
        var m := fallbacks[model][c - 1];
        FirstTrial(model, c - 1, canRewrite) + if m == model || canRewrite(m) then maxAttempts else 1
    }

    /** Trial k is no attempt: the body cannot be rewritten for the c-th fallback. */
    ghost predicate CannotAsk(model: string, c: nat, k: nat, canRewrite: string -> bool) {
      && model in fallbacks && c < |fallbacks[model]|
      && FirstTrial(model, c, canRewrite) == k
      && fallbacks[model][c] != model && !canRewrite(fallbacks[model][c])
    }

    /** None of the first k trials ends the search. */
    ghost predicate AllGoOn(mode: Mode, model: string, k: nat, canRewrite: string -> bool, env: nat -> Upstream) {
      forall i :: 0 <= i < k ==> GoesOn(mode, env(i)) || exists c: nat :: CannotAsk(model, c, i, canRewrite)
    }

    /** The search ends with attempt j for the requested model ... */
    ghost predicate EndsAtRequested(mode: Mode, model: string, j: nat, canRewrite: string -> bool, env: nat -> Upstream)
    {
      j < maxAttempts && AllGoOn(mode, model, j, canRewrite, env) && !GoesOn(mode, env(j))
    }

    /** ... or with attempt j for the c-th fallback. */
    ghost predicate EndsAtFallback(
        mode: Mode, model: string, c: nat, j: nat, canRewrite: string -> bool, env: nat -> Upstream)
    {
      && model in fallbacks && c < |fallbacks[model]| && j < maxAttempts
      && (fallbacks[model][c] == model || canRewrite(fallbacks[model][c]))
      && AllGoOn(mode, model, FirstTrial(model, c, canRewrite) + j, canRewrite, env)
      && !GoesOn(mode, env(FirstTrial(model, c, canRewrite) + j))
    }

    /** How many trials there are in all. */
    ghost function TrialCount(model: string, canRewrite: string -> bool): nat {
      if model in fallbacks then FirstTrial(model, |fallbacks[model]|, canRewrite) else maxAttempts
    }

    /** What is left when every trial said to go on: the outcome of the last one, for the last model. */
    ghost predicate IsLastResort(
        mode: Mode, model: string, canRewrite: string -> bool, u: Upstream, r: Result)
    {
      if model in fallbacks && fallbacks[model] != [] then
        var last := fallbacks[model][|fallbacks[model]| - 1];
        if last == model || canRewrite(last) then IsOutcome(mode, last, u, r)
        else r.err == Some(RewriteFailed(last)) && r.servedModel == ""
      else IsOutcome(mode, model, u, r)
    }

    /** The requested model is tried first and then its fallbacks, in order, each maxAttempts times:
        what is delivered comes from the first attempt that ends the search ... */
    ghost predicate FollowsFallbacks(
        mode: Mode, model: string, canRewrite: string -> bool, env: nat -> Upstream, r: Result, tried: nat)
    {
      && (forall j: nat :: EndsAtRequested(mode, model, j, canRewrite, env) ==>
            tried == j + 1 && IsOutcome(mode, model, env(j), r))
      && (forall c: nat, j: nat :: EndsAtFallback(mode, model, c, j, canRewrite, env) ==>
            && tried == FirstTrial(model, c, canRewrite) + j + 1
            && IsOutcome(mode, fallbacks[model][c], env(tried - 1), r))
    }

    /** ... or else from the very last one. Nothing retryable is delivered while there is something
        left to try. */
    ghost predicate GivesUpLast(
        mode: Mode, model: string, canRewrite: string -> bool, env: nat -> Upstream, r: Result, tried: nat)
    {
      var all := TrialCount(model, canRewrite);
      && (AllGoOn(mode, model, all, canRewrite, env) ==>
            tried == all >= 1 && IsLastResort(mode, model, canRewrite, env(all - 1), r))
      && (tried < all && r.err == None ==> r.statusCode !in {502, 503})
    }

    lemma OffsetStep(requested: string, chain: seq<string>, c: nat, canRewrite: string -> bool)
      requires c < |chain|
      ensures Offset(requested, chain, c + 1, canRewrite)
           == Offset(requested, chain, c, canRewrite)
            + if chain[c] == requested || canRewrite(chain[c]) then maxAttempts else 1
    {
      assert chain[..c + 1][..c] == chain[..c];
    }

    lemma {:induction false} FallbackOffset(model: string, c: nat, canRewrite: string -> bool)
      requires model in fallbacks && c <= |fallbacks[model]|
      ensures Offset(model, Chain(model), c + 1, canRewrite) == FirstTrial(model, c, canRewrite)
    {
      var chain := Chain(model);
      OffsetStep(model, chain, c, canRewrite);
      if c == 0 {
        assert chain[..0] == [];
      } else {
        FallbackOffset(model, c - 1, canRewrite);
      }
    }

    lemma RequestedTrial(model: string, j: nat, canRewrite: string -> bool)
      requires j < maxAttempts
      ensures j < |Trials(model, canRewrite)| && Trials(model, canRewrite)[j] == Attempt(model)
    {
      AttemptOfModel(model, Chain(model), 0, j, canRewrite);
      assert Chain(model)[..0] == [];
    }

    lemma FallbackIsThere(model: string, c: nat)
      requires model in fallbacks && c < |fallbacks[model]|
      ensures c + 1 < |Chain(model)| && Chain(model)[c + 1] == fallbacks[model][c]
    {
    }

    lemma AttemptOfModel(requested: string, chain: seq<string>, c: nat, j: nat, canRewrite: string -> bool)
      requires c < |chain| && j < maxAttempts && (chain[c] == requested || canRewrite(chain[c]))
      ensures var ts, k := TrialsOf(requested, chain, canRewrite), Offset(requested, chain, c, canRewrite) + j;
              k < |ts| && ts[k] == Attempt(chain[c])
    {
      AttemptsAreThere(requested, chain, c, canRewrite);
      AttemptIsThere(TrialsOf(requested, chain, canRewrite), Offset(requested, chain, c, canRewrite), chain[c], j);
    }

    lemma FallbackTrial(model: string, c: nat, j: nat, canRewrite: string -> bool)
      requires model in fallbacks && c < |fallbacks[model]| && j < maxAttempts
      requires fallbacks[model][c] == model || canRewrite(fallbacks[model][c])
      ensures var k := FirstTrial(model, c, canRewrite) + j;
              k < |Trials(model, canRewrite)| && Trials(model, canRewrite)[k] == Attempt(fallbacks[model][c])
    {
      var chain := Chain(model);
      FallbackIsThere(model, c);
      assert Offset(model, chain, c + 1, canRewrite) == FirstTrial(model, c, canRewrite) by {
        FallbackOffset(model, c, canRewrite);
      }
      AttemptOfModel(model, chain, c + 1, j, canRewrite);
    }

    lemma RewriteTrial(model: string, c: nat, k: nat, canRewrite: string -> bool)
      requires CannotAsk(model, c, k, canRewrite)
      ensures k < |Trials(model, canRewrite)| && Trials(model, canRewrite)[k] == Rewrite(fallbacks[model][c])
    {
      FallbackOffset(model, c, canRewrite);
      RewriteIsThere(model, Chain(model), c + 1, canRewrite);
    }

    lemma TrialsAreCounted(model: string, canRewrite: string -> bool)
      ensures |Trials(model, canRewrite)| == TrialCount(model, canRewrite)
    {
      var chain := Chain(model);
      assert chain[..|chain|] == chain;
      if model in fallbacks {
        FallbackOffset(model, |fallbacks[model]|, canRewrite);
      } else {
        OffsetStep(model, chain, 0, canRewrite);
        assert chain[..0] == [];
      }
    }

    lemma EarlierTrialsRetry(mode: Mode, model: string, k: nat, canRewrite: string -> bool, env: nat -> Upstream)
      requires AllGoOn(mode, model, k, canRewrite, env) && k <= |Trials(model, canRewrite)|
      ensures forall i :: 0 <= i < k ==> Retries(mode, Trials(model, canRewrite)[i], env(i))
    {
      var ts := Trials(model, canRewrite);
      forall i | 0 <= i < k ensures Retries(mode, ts[i], env(i)) {
        if c: nat :| CannotAsk(model, c, i, canRewrite) {
          RewriteTrial(model, c, i, canRewrite);
        } else if ts[i].Attempt? {
          AttemptGivesOutcome(mode, ts[i].model, env(i));
        }
      }
    }

    lemma EndsWithRequested(mode: Mode, model: string, j: nat, canRewrite: string -> bool, env: nat -> Upstream)
      requires EndsAtRequested(mode, model, j, canRewrite, env)
      ensures Trials(model, canRewrite) != []
      ensures Tried(mode, Trials(model, canRewrite), env) == j + 1
      ensures IsOutcome(mode, model, env(j), Delivered(mode, Trials(model, canRewrite), env))
    {
      RequestedTrial(model, j, canRewrite);
      EarlierTrialsRetry(mode, model, j, canRewrite, env);
      SearchEndsAt(mode, Trials(model, canRewrite), env, j);
    }

    lemma EndsWithFallback(
        mode: Mode, model: string, c: nat, j: nat, canRewrite: string -> bool, env: nat -> Upstream)
      requires EndsAtFallback(mode, model, c, j, canRewrite, env)
      ensures Trials(model, canRewrite) != []
      ensures var k := FirstTrial(model, c, canRewrite) + j;
              && Tried(mode, Trials(model, canRewrite), env) == k + 1
              && IsOutcome(mode, fallbacks[model][c], env(k), Delivered(mode, Trials(model, canRewrite), env))
    {
      var k := FirstTrial(model, c, canRewrite) + j;
      FallbackTrial(model, c, j, canRewrite);
      EarlierTrialsRetry(mode, model, k, canRewrite, env);
      SearchEndsAt(mode, Trials(model, canRewrite), env, k);
    }

    /** The last trial is for the last model. */
    lemma LastTrial(model: string, canRewrite: string -> bool)
      requires maxAttempts >= 1
      ensures var ts := Trials(model, canRewrite);
              && ts != []
              && var last := ts[|ts| - 1];
                 if model in fallbacks && fallbacks[model] != [] then
                   var m := fallbacks[model][|fallbacks[model]| - 1];
                   last == if m == model || canRewrite(m) then Attempt(m) else Rewrite(m)
                 else last == Attempt(model)
    {
      TrialsAreCounted(model, canRewrite);
      if model in fallbacks && fallbacks[model] != [] {
        var c := |fallbacks[model]| - 1;
        var m := fallbacks[model][c];
        if m == model || canRewrite(m) {
          FallbackTrial(model, c, maxAttempts - 1, canRewrite);
        } else {
          RewriteTrial(model, c, FirstTrial(model, c, canRewrite), canRewrite);
        }
      } else {
        RequestedTrial(model, maxAttempts - 1, canRewrite);
      }
    }

    lemma LastOutcome(
        mode: Mode, model: string, canRewrite: string -> bool, last: Trial, u: Upstream, r: Result)
      requires if model in fallbacks && fallbacks[model] != [] then
                 var m := fallbacks[model][|fallbacks[model]| - 1];
                 last == if m == model || canRewrite(m) then Attempt(m) else Rewrite(m)
               else last == Attempt(model)
      requires if last.Attempt? then IsOutcome(mode, last.model, u, r)
               else r.err == Some(RewriteFailed(last.model)) && r.servedModel == ""
      ensures IsLastResort(mode, model, canRewrite, u, r)
    {
    }

    lemma SearchGivesUpLast(
        mode: Mode, model: string, canRewrite: string -> bool, env: nat -> Upstream, ts: seq<Trial>, r: Result,
        tried: nat)
      requires maxAttempts >= 1 && ts == Trials(model, canRewrite) != []
      requires r == Delivered(mode, ts, env) && tried == Tried(mode, ts, env)
      ensures GivesUpLast(mode, model, canRewrite, env, r, tried)
    {
      TrialsAreCounted(model, canRewrite);
      if tried < |ts| {
        EarlyEndIsFinal(mode, ts, env);
      }
      if AllGoOn(mode, model, |ts|, canRewrite, env) {
        EarlierTrialsRetry(mode, model, |ts|, canRewrite, env);
        SearchRunsOut(mode, ts, env);
        LastTrial(model, canRewrite);
        LastOutcome(mode, model, canRewrite, ts[|ts| - 1], env(|ts| - 1), r);
      }
    }

    /** What the flat search delivers follows the order of the fallbacks. */
    lemma SearchFollowsFallbacks(
        mode: Mode, model: string, canRewrite: string -> bool, env: nat -> Upstream, ts: seq<Trial>, r: Result,
        tried: nat)
      requires maxAttempts >= 1 && ts == Trials(model, canRewrite) != []
      requires r == Delivered(mode, ts, env) && tried == Tried(mode, ts, env)
      ensures FollowsFallbacks(mode, model, canRewrite, env, r, tried)
    {
      forall j: nat | EndsAtRequested(mode, model, j, canRewrite, env)
        ensures tried == j + 1 && IsOutcome(mode, model, env(j), r)
      {
        EndsWithRequested(mode, model, j, canRewrite, env);
      }
      forall c: nat, j: nat | EndsAtFallback(mode, model, c, j, canRewrite, env)
        ensures tried == FirstTrial(model, c, canRewrite) + j + 1
        ensures IsOutcome(mode, fallbacks[model][c], env(tried - 1), r)
      {
        EndsWithFallback(mode, model, c, j, canRewrite, env);
      }
    }

    /** One buffered call. */
    function AttemptBuffered(model: string, u: Upstream): (Result, bool) {
      match u
      case BuildFails => (Failure(BuildFailed, model), false)
      case Unreachable => (Failure(UpstreamUnreachable, model), true)
      case Responds(status, _, pieces, broken) =>
        if broken then (Failure(ReadFailed, model), false)
        else (Result(status, Flatten(pieces), None, model, false, ""), IsRetryableStatus(status))
    }

    lemma AttemptMatchesTrial(model: string, u: Upstream)
      ensures AttemptBuffered(model, u) == (ResultOf(Buffered, Attempt(model), u), Retries(Buffered, Attempt(model), u))
    {
    }

    /** One streaming call, up to the point where it commits to a response. */
    function CallStreamed(model: string, u: Upstream): (r: (Result, bool))
      ensures r.1 ==> u.Responds?
    {
      match u
      case BuildFails => (Failure(BuildFailed, model), false)
      case Unreachable => (Failure(UpstreamUnreachable, model), false)
      case Responds(status, contentType, pieces, _) =>
        if IsRetryableStatus(status) then (Result(status, Flatten(pieces), None, model, false, ""), false)
        else (Result(status, [], None, model, true, contentType), true)
    }

    lemma CallMatchesTrial(model: string, u: Upstream)
      ensures CallStreamed(model, u) == (ResultOf(Streamed, Attempt(model), u), !Retries(Streamed, Attempt(model), u))
    {
    }

    /** One turn of the inner loop of dispatchBuffered. */
    method AttemptOne(model: string, env: nat -> Upstream, k: nat, previous: Result, ghost ts: seq<Trial>)
      returns (result: Result, stopped: bool)
      requires k < |ts| && ts[k] == Attempt(model) && Searching(Buffered, ts, env, k, previous)
      ensures stopped ==> StopAt(Buffered, ts, env) == k && Delivered(Buffered, ts, env) == result
      ensures !stopped ==> Searching(Buffered, ts, env, k + 1, result)
    {
      AttemptMatchesTrial(model, env(k));
      var (r, retryable) := AttemptBuffered(model, env(k));
      result, stopped := r, !retryable;
      if stopped {
        SearchStops(Buffered, ts, env, k, previous);
      } else {
        SearchGoesOn(Buffered, ts, env, k, previous);
      }
    }

    /** The inner loop of dispatchBuffered: the attempts for one model. */
    method AttemptsBuffered(model: string, env: nat -> Upstream, start: nat, previous: Result, ghost ts: seq<Trial>)
      returns (final: Result, tried: nat, stopped: bool)
      requires AttemptsAt(ts, start, model) && Searching(Buffered, ts, env, start, previous)
      ensures stopped ==> start < tried && StopAt(Buffered, ts, env) == tried - 1 < |ts|
      ensures stopped ==> Delivered(Buffered, ts, env) == final
      ensures !stopped ==> tried == start + maxAttempts && Searching(Buffered, ts, env, tried, final)
    {
      final, tried := previous, start;
      for attempt := 0 to maxAttempts
        invariant tried == start + attempt && Searching(Buffered, ts, env, tried, final)
      {
        AttemptIsThere(ts, start, model, attempt);
        final, stopped := AttemptOne(model, env, tried, final, ts);
        tried := tried + 1;
        if stopped {
          return;
        }
      }
      stopped := false;
    }

    /** One turn of the outer loop of dispatchBuffered: rewrite the body for the model and try it. */
    method TryModelBuffered(
        requested: string, chain: seq<string>, c: nat, canRewrite: string -> bool, env: nat -> Upstream,
        start: nat, previous: Result, ghost ts: seq<Trial>)
      returns (final: Result, tried: nat, stopped: bool)
      requires c < |chain| && ts == TrialsOf(requested, chain, canRewrite)
      requires start == Offset(requested, chain, c, canRewrite) && Searching(Buffered, ts, env, start, previous)
      ensures stopped ==> start < tried && StopAt(Buffered, ts, env) == tried - 1 < |ts|
      ensures stopped ==> Delivered(Buffered, ts, env) == final
      ensures !stopped ==>
                tried == Offset(requested, chain, c + 1, canRewrite) && Searching(Buffered, ts, env, tried, final)
    {
      if chain[c] != requested && !canRewrite(chain[c]) {
        RewriteIsThere(requested, chain, c, canRewrite);
        SearchGoesOn(Buffered, ts, env, start, previous);
        return Failure(RewriteFailed(chain[c]), ""), start + 1, false;
      }
      AttemptsAreThere(requested, chain, c, canRewrite);
      final, tried, stopped := AttemptsBuffered(chain[c], env, start, previous, ts);
    }

    /** The outer loop of dispatchBuffered, over the models of the chain. */
    method SearchBuffered(model: string, canRewrite: string -> bool, env: nat -> Upstream)
      returns (final: Result, tried: nat)
      requires maxAttempts >= 1
      ensures Trials(model, canRewrite) != []
      ensures final == Delivered(Buffered, Trials(model, canRewrite), env)
      ensures tried == Tried(Buffered, Trials(model, canRewrite), env)
    {
      var chain := Chain(model);
      ghost var ts := Trials(model, canRewrite);
      TrialsExist(model, canRewrite);
      final, tried := ZERO_RESULT, 0;
      for c := 0 to |chain|
        invariant tried == Offset(model, chain, c, canRewrite) && Searching(Buffered, ts, env, tried, final)
      {
        var stopped;
        final, tried, stopped := TryModelBuffered(model, chain, c, canRewrite, env, tried, final, ts);
        if stopped {
          return;
        }
      }
      assert chain[..|chain|] == chain;
      SearchIsExhausted(Buffered, ts, env, final);
    }

    /** Sends exactly one result: what the flat search delivers. `tried` trials are made, and none
        after the one that stops the search. (The send stands at each of the loops' exits in the
        original; here it comes once, after the search.) */
    method DispatchBuffered(model: string, resultCh: Channel<Result>, canRewrite: string -> bool, env: nat -> Upstream)
      returns (tried: nat)
      requires maxAttempts >= 1
      requires !resultCh.closed && |resultCh.buf| < resultCh.capacity
      modifies resultCh
      ensures Trials(model, canRewrite) != []
      ensures resultCh.buf == old(resultCh.buf) + [Delivered(Buffered, Trials(model, canRewrite), env)]
      ensures tried == Tried(Buffered, Trials(model, canRewrite), env)
      ensures var r := resultCh.buf[|old(resultCh.buf)|];
              && FollowsFallbacks(Buffered, model, canRewrite, env, r, tried)
              && GivesUpLast(Buffered, model, canRewrite, env, r, tried)
    {
      var final;
      final, tried := SearchBuffered(model, canRewrite, env);
      SearchFollowsFallbacks(Buffered, model, canRewrite, env, Trials(model, canRewrite), final, tried);
      SearchGivesUpLast(Buffered, model, canRewrite, env, Trials(model, canRewrite), final, tried);
      var _ := resultCh.TrySend(final);
    }

    /** One turn of the inner loop of dispatchStream. */
    method CallOne(model: string, env: nat -> Upstream, k: nat, previous: Result, ghost ts: seq<Trial>)
      returns (result: Result, committed: bool)
      requires k < |ts| && ts[k] == Attempt(model) && Searching(Streamed, ts, env, k, previous)
      ensures committed ==> StopAt(Streamed, ts, env) == k && Delivered(Streamed, ts, env) == result && env(k).Responds?
      ensures !committed ==> Searching(Streamed, ts, env, k + 1, result)
    {
      CallMatchesTrial(model, env(k));
      var (r, commits) := CallStreamed(model, env(k));
      result, committed := r, commits;
      if committed {
        SearchStops(Streamed, ts, env, k, previous);
      } else {
        SearchGoesOn(Streamed, ts, env, k, previous);
      }
    }

    /** The inner loop of dispatchStream, up to the point where it commits to a response. */
    method AttemptsStreamed(model: string, env: nat -> Upstream, start: nat, previous: Result, ghost ts: seq<Trial>)
      returns (final: Result, tried: nat, committed: bool)
      requires AttemptsAt(ts, start, model) && Searching(Streamed, ts, env, start, previous)
      ensures committed ==> start < tried && StopAt(Streamed, ts, env) == tried - 1 < |ts|
      ensures committed ==> env(tried - 1).Responds? && Delivered(Streamed, ts, env) == final
      ensures !committed ==> tried == start + maxAttempts && Searching(Streamed, ts, env, tried, final)
    {
      final, tried := previous, start;
      for attempt := 0 to maxAttempts
        invariant tried == start + attempt && Searching(Streamed, ts, env, tried, final)
      {
        AttemptIsThere(ts, start, model, attempt);
        final, committed := CallOne(model, env, tried, final, ts);
        tried := tried + 1;
        if committed {
          return;
        }
      }
      committed := false;
    }

    /** The committed tail of dispatchStream, with the deferred close. */
    method Commit(resultCh: Channel<Result>, chunks: ChunkStream, result: Result, pieces: seq<seq<byte>>)
      requires !resultCh.closed && |resultCh.buf| < resultCh.capacity
      requires !chunks.closed && chunks.sent == [] && FitsBuffer(pieces)
      modifies resultCh, chunks
      ensures resultCh.buf == old(resultCh.buf) + [result]
      ensures chunks.closed && Flatten(chunks.Contents()) == Flatten(pieces)
    {
      var _ := resultCh.TrySend(result);
      var body := new Body(pieces);
      StreamBody(chunks, body);
      chunks.Close();
    }

    /** One turn of the outer loop of dispatchStream. */
    method TryModelStreamed(
        requested: string, chain: seq<string>, c: nat, canRewrite: string -> bool, env: nat -> Upstream,
        start: nat, previous: Result, ghost ts: seq<Trial>)
      returns (final: Result, tried: nat, committed: bool)
      requires c < |chain| && ts == TrialsOf(requested, chain, canRewrite)
      requires start == Offset(requested, chain, c, canRewrite) && Searching(Streamed, ts, env, start, previous)
      ensures committed ==> start < tried && StopAt(Streamed, ts, env) == tried - 1 < |ts|
      ensures committed ==> env(tried - 1).Responds? && Delivered(Streamed, ts, env) == final
      ensures !committed ==>
                tried == Offset(requested, chain, c + 1, canRewrite) && Searching(Streamed, ts, env, tried, final)
    {
      if chain[c] != requested && !canRewrite(chain[c]) {
        RewriteIsThere(requested, chain, c, canRewrite);
        SearchGoesOn(Streamed, ts, env, start, previous);
        return Failure(RewriteFailed(chain[c]), ""), start + 1, false;
      }
      AttemptsAreThere(requested, chain, c, canRewrite);
      final, tried, committed := AttemptsStreamed(chain[c], env, start, previous, ts);
    }

    /** The outer loop of dispatchStream, up to the commit. */
    method SearchStreamed(model: string, canRewrite: string -> bool, env: nat -> Upstream)
      returns (final: Result, tried: nat, committed: bool)
      requires maxAttempts >= 1
      ensures Trials(model, canRewrite) != []
      ensures final == Delivered(Streamed, Trials(model, canRewrite), env)
      ensures tried == Tried(Streamed, Trials(model, canRewrite), env)
      ensures committed <==> StopAt(Streamed, Trials(model, canRewrite), env) < |Trials(model, canRewrite)|
      ensures committed ==> tried >= 1 && env(tried - 1).Responds?
    {
      var chain := Chain(model);
      ghost var ts := Trials(model, canRewrite);
      TrialsExist(model, canRewrite);
      final, tried := ZERO_RESULT, 0;
      for c := 0 to |chain|
        invariant tried == Offset(model, chain, c, canRewrite) && Searching(Streamed, ts, env, tried, final)
      {
        final, tried, committed := TryModelStreamed(model, chain, c, canRewrite, env, tried, final, ts);
        if committed {
          return;
        }
      }
      assert chain[..|chain|] == chain;
      SearchIsExhausted(Streamed, ts, env, final);
      committed := false;
    }

    /** The streaming path: one result, then the chunks of the committed body if there is one, then
        the channel is closed once. */
    method DispatchStream(model: string, resultCh: Channel<Result>, chunks: ChunkStream, canRewrite: string -> bool,
                          env: nat -> Upstream)
      returns (tried: nat)
      requires maxAttempts >= 1
      requires !resultCh.closed && |resultCh.buf| < resultCh.capacity
      requires !chunks.closed && chunks.sent == []
      requires forall k: nat :: env(k).Responds? ==> FitsBuffer(env(k).pieces)
      modifies resultCh, chunks
      ensures Trials(model, canRewrite) != []
      ensures resultCh.buf == old(resultCh.buf) + [Delivered(Streamed, Trials(model, canRewrite), env)]
      ensures tried == Tried(Streamed, Trials(model, canRewrite), env)
      ensures chunks.closed
      ensures if StopAt(Streamed, Trials(model, canRewrite), env) < |Trials(model, canRewrite)|
              then tried >= 1 && env(tried - 1).Responds?
                   && Flatten(chunks.Contents()) == Flatten(env(tried - 1).pieces)
              else chunks.sent == []
      ensures var r := resultCh.buf[|old(resultCh.buf)|];
              && FollowsFallbacks(Streamed, model, canRewrite, env, r, tried)
              && GivesUpLast(Streamed, model, canRewrite, env, r, tried)
    {
      var final, committed;
      final, tried, committed := SearchStreamed(model, canRewrite, env);
      SearchFollowsFallbacks(Streamed, model, canRewrite, env, Trials(model, canRewrite), final, tried);
      SearchGivesUpLast(Streamed, model, canRewrite, env, Trials(model, canRewrite), final, tried);
      if committed {
        Commit(resultCh, chunks, final, env(tried - 1).pieces);
      } else {
        var _ := resultCh.TrySend(final);
        chunks.Close();
      }
    }

    // -------------------------------------------------------------- properties of the search

    /** At most maxAttempts * (1 + |fallbacks|) upstream calls, whatever happens. */
    lemma CallsAreBounded(model: string, canRewrite: string -> bool)
      requires maxAttempts >= 1
      ensures 1 <= |Trials(model, canRewrite)|
      ensures |Trials(model, canRewrite)| <= maxAttempts * (1 + if model in fallbacks then |fallbacks[model]| else 0)
    {
      TrialsBounded(model, Chain(model), canRewrite);
    }
  }

  /** The gateway never sees a zero Result: HTTP status codes have three digits. */
  lemma DeliveredIsNeverZero(mode: Mode, ts: seq<Trial>, env: nat -> Upstream)
    requires ts != [] && forall k: nat :: env(k).Responds? ==> env(k).status >= 100
    ensures Delivered(mode, ts, env) != ZERO_RESULT
  {
  }

  /** The outcomes on which the two paths part ways: a request that cannot be built, and a 502 or
      503 whose body breaks off. The buffered path gives up on these, the streaming path goes on. */
  predicate PathsDiffer(t: Trial, u: Upstream) {
    t.Attempt? && (u.BuildFails? || (u.Responds? && IsRetryableStatus(u.status) && u.broken))
  }

  /** The streaming path never stops earlier than the buffered one, and it makes the same trials
      exactly when the buffered one did not stop on such an outcome. */
  lemma PathsAgreeExactly(ts: seq<Trial>, env: nat -> Upstream)
    ensures var b, s := StopAt(Buffered, ts, env), StopAt(Streamed, ts, env);
            && b <= s
            && (b == s <==> b == |ts| || !PathsDiffer(ts[b], env(b)))
  {
    var b := StopAt(Buffered, ts, env);
    forall j | 0 <= j < b ensures Retries(Streamed, ts[j], env(j)) {
      assert Retries(Buffered, ts[j], env(j));
    }
    if b < |ts| {
      assert Retries(Streamed, ts[b], env(b)) <==> PathsDiffer(ts[b], env(b));
    }
  }

  /** And then they deliver the same: the same result when nothing was committed, and otherwise
      the same status from the same model, the streaming path having committed before reading the
      body (so that a body that breaks off is an error only on the buffered path). */
  lemma AgreeingPathsDeliverTheSame(ts: seq<Trial>, env: nat -> Upstream)
    requires ts != [] && StopAt(Buffered, ts, env) == StopAt(Streamed, ts, env)
    ensures var k := StopAt(Buffered, ts, env);
            var b, s := Delivered(Buffered, ts, env), Delivered(Streamed, ts, env);
            if k == |ts| then b == s
            else
              && env(k).Responds? && s.streaming && s.err == None && s.statusCode == env(k).status
              && s.servedModel == b.servedModel == ts[k].model
              && if env(k).broken then b.err == Some(ReadFailed)
                 else b.err == None && b.statusCode == s.statusCode && b.body == Flatten(env(k).pieces)
  {
  }
}
