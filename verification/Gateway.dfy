/** One request through the gateway (request-plane/gateway/gateway.go:114-289): the checks in front of
    the queue, the push, and the answer. What arrives while the handler waits in its select is an
    oracle here; ResponseProtocol says what the dispatcher's loops can make of it. */
module GatewayHandling {
  import opened Dispatching
  import opened Http
  import opened LatencyTracking
  import opened Options
  import opened PriorityQueue
  import opened RateLimiting
  import opened WaitEstimation
  import AdmissionControl

  datatype KeyInfo = KeyInfo(keyID: string, requestsPerMin: int)

  /** The request body, as far as the handler looks into it. */
  datatype Content =
    | Unreadable
    | Malformed
    | Json(model: string, stream: bool)

  datatype Incoming = Incoming(isPost: bool, authorization: string, priority: string, content: Content)

  datatype Refusal =
    | WrongMethod
    | MissingKey
    | InvalidKey
    | RateLimited
    | FailedToRead
    | NoModelField
    | WaitTooLong
    | QueueFull

  datatype Decision =
    | Refused(refusal: Refusal)
    | Queued(request: Request)

  /** How the select ends; `chunks` is what the loop over Chunks then receives. */
  datatype Waited =
    | Arrived(result: Result, after: int, chunks: seq<seq<byte>>)
    | TimedOut

  datatype Payload =
    | Refusing(refusal: Refusal)
    | Timeout
    | Failing(error: Error)
    | Bytes(bytes: seq<byte>)

  datatype HookCall = HookCall(model: string, success: bool)

  function StatusOf(refusal: Refusal): int {
    match refusal
    case WrongMethod => METHOD_NOT_ALLOWED
    case MissingKey => UNAUTHORIZED
    case InvalidKey => UNAUTHORIZED
    case RateLimited => TOO_MANY_REQUESTS
    case FailedToRead => BAD_REQUEST
    case NoModelField => BAD_REQUEST
    case WaitTooLong => SERVICE_UNAVAILABLE
    case QueueFull => SERVICE_UNAVAILABLE
  }

  const BEARER := "Bearer "

  function ParsePriority(header: string): (p: Priority)
    ensures p == PriorityHigh <==> header == "high"
    ensures p == PriorityLow <==> header == "low"
  {
    if header == "high" then PriorityHigh
    else if header == "low" then PriorityLow
    else PriorityNormal
  }

  function ExtractAPIKey(header: string): Option<string> {
    if !(BEARER <= header) then None
    else
      var key := header[|BEARER|..];
      if key == "" then None else Some(key)
  }

  /** A key is found exactly if the header is the prefix followed by it. */
  lemma KeyFollowsBearer(header: string, key: string)
    ensures ExtractAPIKey(header) == Some(key) <==> key != "" && header == "Bearer " + key
    ensures ExtractAPIKey(header) == None <==> forall k: string :: k != "" ==> header != "Bearer " + k
  {
    if BEARER <= header {
      assert header == BEARER + header[|BEARER|..];
    }
    assert (BEARER + key)[|BEARER|..] == key;
    forall k: string | k != "" && header == BEARER + k ensures ExtractAPIKey(header) == Some(k) {
      assert (BEARER + k)[|BEARER|..] == k;
    }
  }

  /** The body bytes that reached the client. */
  function BytesOf(written: seq<Payload>): seq<byte> {
    if written == [] then []
    else
      var last := written[|written| - 1];
      BytesOf(written[..|written| - 1]) + if last.Bytes? then last.bytes else []
  }

  /** The model the hook is told: none if the request was refused before its body was parsed. */
  function ModelOf(call: Incoming, v: Decision): string {
    if call.content.Json? && (v.Queued? || v.refusal in {WaitTooLong, QueueFull}) then call.content.model else ""
  }

  predicate Succeeds(v: Decision, waited: Waited) {
    v.Queued? && waited.Arrived? && waited.result.err == None && 200 <= waited.result.statusCode < 300
  }

  /** Whether the key is within its budget, the policy admits the request, and its lane has room. */
  datatype Gates = Gates(within: bool, admitted: bool, room: bool)

  /** What the client gets, according to what came of the wait. */
  predicate IsAnswer(waited: Waited, statuses: seq<int>, bytes: seq<byte>) {
    match waited
    case TimedOut => statuses == [504] && bytes == []
    case Arrived(result, _, chunks) =>
      if result.err.Some? then statuses == [502] && bytes == []
      else statuses == [result.statusCode] && bytes == if result.streaming then Flatten(chunks) else result.body
  }

  class Gateway {
    const q: Queue
    const tracker: LatencyTracker?
    const estimator: Estimator?
    const policy: Option<map<Priority, int>>
    const keyStore: Option<map<string, KeyInfo>>
    const rateLimiter: RateLimiter?
    const hasHook: bool
    var idCounter: nat
    var hookCalls: seq<HookCall>

    constructor (
        q: Queue, tracker: LatencyTracker?, estimator: Estimator?, policy: Option<map<Priority, int>>,
        keyStore: Option<map<string, KeyInfo>>, rateLimiter: RateLimiter?, hasHook: bool)
      ensures this.q == q && this.tracker == tracker && this.estimator == estimator && this.policy == policy
      ensures this.keyStore == keyStore && this.rateLimiter == rateLimiter && this.hasHook == hasHook
      ensures idCounter == 0 && hookCalls == []
    {
      this.q, this.tracker, this.estimator, this.policy := q, tracker, estimator, policy;
      this.keyStore, this.rateLimiter, this.hasHook := keyStore, rateLimiter, hasHook;
      idCounter, hookCalls := 0, [];
    }

    ghost function Buckets(): set<Bucket>
      reads rateLimiter
    {
      if rateLimiter == null then {} else rateLimiter.buckets.Values
    }

    ghost predicate Valid()
      reads q.lanes.Values, rateLimiter
    {
      && q.Valid()
      && (rateLimiter != null ==> rateLimiter.Valid())
      && (estimator != null ==> estimator.concurrency >= 1)
    }

    ghost function Levels(): map<string, Level>
      reads rateLimiter, Buckets()
    {
      if rateLimiter == null then map[] else rateLimiter.View()
    }

    // -------------------------------------------------------------- the four gates

    function KeyOf(call: Incoming): Option<KeyInfo> {
      if keyStore.None? then None
      else
        var key := ExtractAPIKey(call.authorization);
        if key.Some? && key.value in keyStore.value then Some(keyStore.value[key.value]) else None
    }

    lemma KeyIsLookedUp(call: Incoming)
      requires keyStore.Some?
      ensures forall k :: k in keyStore.value && k != "" && call.authorization == "Bearer " + k ==>
                KeyOf(call) == Some(keyStore.value[k])
      ensures (forall k :: k in keyStore.value && k != "" ==> call.authorization != "Bearer " + k) ==>
                KeyOf(call) == None
    {
      forall k | k in keyStore.value && k != "" && call.authorization == "Bearer " + k
        ensures KeyOf(call) == Some(keyStore.value[k])
      {
        KeyFollowsBearer(call.authorization, k);
      }
      if KeyOf(call).Some? {
        KeyFollowsBearer(call.authorization, ExtractAPIKey(call.authorization).value);
      }
    }

    predicate Authenticated(call: Incoming) {
      keyStore.None? || KeyOf(call).Some?
    }

    /** Whether the limiter is asked at all. */
    predicate Metered(call: Incoming) {
      call.isPost && rateLimiter != null && KeyOf(call).Some?
    }

    ghost predicate WithinBudget(call: Incoming, now: int)
      reads rateLimiter, Buckets()
    {
      Metered(call) ==> AllowStep(Levels(), KeyOf(call).value.keyID, KeyOf(call).value.requestsPerMin, now).1
    }

    ghost predicate PassesAuth(call: Incoming, now: int)
      reads rateLimiter, Buckets()
    {
      call.isPost && Authenticated(call) && WithinBudget(call, now)
    }

    predicate NamesModel(call: Incoming) {
      call.content.Json? && call.content.model != ""
    }

    /** The predicted wait, from the queue as it is before the request itself is pushed, and from the
        average recorded for the model, if there is one. */
    ghost function PredictedWait(model: string, p: Priority): int
      requires q.Valid() && estimator != null && estimator.concurrency >= 1
      reads q.lanes.Values, estimator, if estimator == null then {} else {estimator.tracker}
    {
      var t := estimator.tracker;
      var average := if model in t.avg then t.avg[model] else t.fallback;
      TruncDiv(q.View().Ahead(p) * average, estimator.concurrency)
    }

    /** Without a policy, an estimator or a threshold for the priority everything is admitted. */
    ghost predicate PassesPolicy(call: Incoming)
      requires q.Valid() && (estimator != null ==> estimator.concurrency >= 1) && NamesModel(call)
      reads q.lanes.Values, estimator, if estimator == null then {} else {estimator.tracker}
    {
      var p := ParsePriority(call.priority);
      policy.Some? && estimator != null && p in policy.value ==>
        PredictedWait(call.content.model, p) <= policy.value[p]
    }

    ghost predicate HasRoom(call: Incoming)
      requires q.Valid()
      reads q.lanes.Values
    {
      |q.View().Lane(ParsePriority(call.priority))| < q.capacityPerLane
    }

    /** The three tests that look at shared state, as they stand when the request comes. */
    ghost function GatesFor(call: Incoming, now: int): Gates
      requires Valid()
      reads rateLimiter, Buckets(), q.lanes.Values, estimator, if estimator == null then {} else {estimator.tracker}
    {
      Gates(WithinBudget(call, now), NamesModel(call) && PassesPolicy(call), HasRoom(call))
    }

    /** Each refusal exactly when its own test is the first to fail. */
    predicate IsDecision(v: Decision, call: Incoming, gates: Gates) {
      var known := call.isPost && Authenticated(call);
      var Gates(within, admitted, room) := gates;
      && (v == Refused(WrongMethod) <==> !call.isPost)
      && (v == Refused(MissingKey) <==> call.isPost && keyStore.Some? && ExtractAPIKey(call.authorization).None?)
      && (v == Refused(InvalidKey) <==>
            && call.isPost && keyStore.Some?
            && var key := ExtractAPIKey(call.authorization); key.Some? && key.value !in keyStore.value)
      && (v == Refused(RateLimited) <==> known && !within)
      && (v == Refused(FailedToRead) <==> known && within && call.content.Unreadable?)
      && (v == Refused(NoModelField) <==> known && within && !call.content.Unreadable? && !NamesModel(call))
      && (v == Refused(WaitTooLong) <==> known && within && NamesModel(call) && !admitted)
      && (v == Refused(QueueFull) <==> known && within && NamesModel(call) && admitted && !room)
      && (v.Queued? <==> known && within && NamesModel(call) && admitted && room)
    }

    lemma DecisionOfRefusal(call: Incoming, gates: Gates, refusal: Refusal)
      requires refusal in {WrongMethod, MissingKey, InvalidKey, RateLimited}
      requires refusal == WrongMethod <==> !call.isPost
      requires refusal == MissingKey <==>
                 call.isPost && keyStore.Some? && ExtractAPIKey(call.authorization).None?
      requires refusal == InvalidKey <==>
                 && call.isPost && keyStore.Some?
                 && var key := ExtractAPIKey(call.authorization); key.Some? && key.value !in keyStore.value
      requires refusal == RateLimited ==> Metered(call) && !gates.within
      ensures IsDecision(Refused(refusal), call, gates)
    {
    }

    lemma DecisionOfInspection(call: Incoming, gates: Gates, v: Decision)
      requires call.isPost && Authenticated(call) && gates.within
      requires v == Refused(FailedToRead) <==> call.content.Unreadable?
      requires v == Refused(NoModelField) <==> !call.content.Unreadable? && !NamesModel(call)
      requires v == Refused(WaitTooLong) <==> NamesModel(call) && !gates.admitted
      requires v == Refused(QueueFull) <==> NamesModel(call) && gates.admitted && !gates.room
      requires v.Queued? <==> NamesModel(call) && gates.admitted && gates.room
      ensures IsDecision(v, call, gates)
    {
    }

    // -------------------------------------------------------------- in front of the queue

    /** Method, key and rate limit; nothing but the key's own budget is touched. */
    method Authenticate(call: Incoming, now: int) returns (refusal: Option<Refusal>)
      requires Valid()
      modifies rateLimiter, Buckets()
      ensures Valid()
      ensures refusal.None? <==> old(PassesAuth(call, now))
      ensures refusal.Some? ==> refusal.value in {WrongMethod, MissingKey, InvalidKey, RateLimited}
      ensures refusal == Some(WrongMethod) <==> !call.isPost
      ensures refusal == Some(MissingKey) <==>
                call.isPost && keyStore.Some? && ExtractAPIKey(call.authorization).None?
      ensures refusal == Some(InvalidKey) <==>
                && call.isPost && keyStore.Some?
                && var key := ExtractAPIKey(call.authorization); key.Some? && key.value !in keyStore.value
      ensures refusal == Some(RateLimited) <==> Metered(call) && !old(WithinBudget(call, now))
      ensures Levels() == if Metered(call) then
                            AllowStep(old(Levels()), KeyOf(call).value.keyID, KeyOf(call).value.requestsPerMin, now).0
                          else old(Levels())
      ensures call.isPost && keyStore.Some? && rateLimiter != null ==>
                forall k :: k in keyStore.value && k != "" && call.authorization == "Bearer " + k ==>
                  var (levels, ok) :=
                    AllowStep(old(Levels()), keyStore.value[k].keyID, keyStore.value[k].requestsPerMin, now);
                  Levels() == levels && (refusal == Some(RateLimited) <==> !ok)
      ensures (call.isPost && keyStore.Some? ==>
                 forall k :: k in keyStore.value && k != "" ==> call.authorization != "Bearer " + k) ==>
                Levels() == old(Levels()) && refusal != Some(RateLimited)
    {
      if !call.isPost {
        return Some(WrongMethod);
      }
      if keyStore.Some? {
        KeyIsLookedUp(call);
        var key := ExtractAPIKey(call.authorization);
        if key.None? {
          return Some(MissingKey);
        }
        if key.value !in keyStore.value {
          return Some(InvalidKey);
        }
        var info := keyStore.value[key.value];
        if rateLimiter != null {
          var ok := rateLimiter.Allow(info.keyID, info.requestsPerMin, now);
          if !ok {
            return Some(RateLimited);
          }
        }
      }
      return None;
    }

    /** Estimate, admission and push. */
    method Admit(call: Incoming) returns (v: Decision)
      requires Valid() && NamesModel(call)
      modifies this`idCounter, q.lanes.Values
      ensures Valid()
      ensures v == Refused(WaitTooLong) <==>
                var p := ParsePriority(call.priority);
                && policy.Some? && estimator != null && p in policy.value
                && var average := if call.content.model in old(estimator.tracker.avg)
                                  then old(estimator.tracker.avg[call.content.model]) else estimator.tracker.fallback;
                   TruncDiv(old(q.View()).Ahead(p) * average, estimator.concurrency) > policy.value[p]
      ensures v == Refused(WaitTooLong) <==> !old(PassesPolicy(call))
      ensures v == Refused(QueueFull) <==> old(PassesPolicy(call)) && !old(HasRoom(call))
      ensures v.Queued? <==> old(PassesPolicy(call)) && old(HasRoom(call))
      ensures v.Queued? ==>
                v.request == Request(idCounter, call.content.model, ParsePriority(call.priority), call.content.stream)
      ensures q.View() == if v.Queued? then PushStep(old(q.View()), q.capacityPerLane, v.request).0 else old(q.View())
      ensures idCounter == old(idCounter) + if old(PassesPolicy(call)) then 1 else 0
    {
      var priority := ParsePriority(call.priority);
      var estimate := 0;
      if estimator != null {
        var ahead := q.AheadOf(priority);
        estimate := estimator.Estimate(call.content.model, ahead);
      }
      if policy.Some? && estimator != null && !AdmissionControl.Admit(policy.value, priority, estimate) {
        return Refused(WaitTooLong);
      }
      idCounter := idCounter + 1;
      var request := Request(idCounter, call.content.model, priority, call.content.stream);
      var pushed := q.TryPush(request);
      v := if pushed then Queued(request) else Refused(QueueFull);
    }

    /** The body, and then the queue. */
    method Inspect(call: Incoming, ghost gates: Gates) returns (v: Decision)
      requires Valid() && call.isPost && Authenticated(call)
      requires gates == Gates(true, NamesModel(call) && PassesPolicy(call), HasRoom(call))
      modifies this`idCounter, q.lanes.Values
      ensures Valid()
      ensures IsDecision(v, call, gates)
      ensures q.View() == if v.Queued? then PushStep(old(q.View()), q.capacityPerLane, v.request).0 else old(q.View())
      ensures v.Queued? ==>
                v.request == Request(idCounter, call.content.model, ParsePriority(call.priority), call.content.stream)
      ensures idCounter == old(idCounter) + if v.Queued? || v == Refused(QueueFull) then 1 else 0
      ensures v == Refused(WaitTooLong) || v == Refused(QueueFull) || v.Queued? ==>
                call.content.Json? && call.content.model != ""
      ensures v == Refused(NoModelField) ==>
                call.content.Malformed? || (call.content.Json? && call.content.model == "")
      ensures v == Refused(WaitTooLong) || v == Refused(QueueFull) || v.Queued? ==>
                (v == Refused(WaitTooLong) <==>
                   var p := ParsePriority(call.priority);
                   && policy.Some? && estimator != null && p in policy.value
                   && var average := if call.content.model in old(estimator.tracker.avg)
                                     then old(estimator.tracker.avg[call.content.model])
                                     else estimator.tracker.fallback;
                      TruncDiv(old(q.View()).Ahead(p) * average, estimator.concurrency) > policy.value[p])
    {
      if call.content.Unreadable? {
        DecisionOfInspection(call, gates, Refused(FailedToRead));
        return Refused(FailedToRead);
      }
      if call.content.Malformed? || call.content.model == "" {
        DecisionOfInspection(call, gates, Refused(NoModelField));
        return Refused(NoModelField);
      }
      v := Admit(call);
      DecisionOfInspection(call, gates, v);
    }

    /** Everything before the select: which decision, and what is written where. */
    method Enter(call: Incoming, now: int) returns (v: Decision)
      requires Valid()
      modifies this`idCounter, q.lanes.Values, rateLimiter, Buckets()
      ensures Valid()
      ensures IsDecision(v, call, old(GatesFor(call, now)))
      ensures q.View() == if v.Queued? then PushStep(old(q.View()), q.capacityPerLane, v.request).0 else old(q.View())
      ensures v.Queued? ==>
                v.request == Request(idCounter, call.content.model, ParsePriority(call.priority), call.content.stream)
      ensures idCounter == old(idCounter) + if v.Queued? || v == Refused(QueueFull) then 1 else 0
      ensures Levels() == if Metered(call) then
                            AllowStep(old(Levels()), KeyOf(call).value.keyID, KeyOf(call).value.requestsPerMin, now).0
                          else old(Levels())
      ensures call.isPost && keyStore.Some? && rateLimiter != null ==>
                forall k :: k in keyStore.value && k != "" && call.authorization == "Bearer " + k ==>
                  var (levels, ok) :=
                    AllowStep(old(Levels()), keyStore.value[k].keyID, keyStore.value[k].requestsPerMin, now);
                  Levels() == levels && (v == Refused(RateLimited) <==> !ok)
      ensures (call.isPost && keyStore.Some? ==>
                 forall k :: k in keyStore.value && k != "" ==> call.authorization != "Bearer " + k) ==>
                Levels() == old(Levels()) && v != Refused(RateLimited)
      ensures v == Refused(WaitTooLong) || v == Refused(QueueFull) || v.Queued? ==>
                call.content.Json? && call.content.model != ""
      ensures v == Refused(NoModelField) ==>
                call.content.Malformed? || (call.content.Json? && call.content.model == "")
      ensures v == Refused(WaitTooLong) || v == Refused(QueueFull) || v.Queued? ==>
                (v == Refused(WaitTooLong) <==>
                   var p := ParsePriority(call.priority);
                   && policy.Some? && estimator != null && p in policy.value
                   && var average := if call.content.model in old(estimator.tracker.avg)
                                     then old(estimator.tracker.avg[call.content.model])
                                     else estimator.tracker.fallback;
                      TruncDiv(old(q.View()).Ahead(p) * average, estimator.concurrency) > policy.value[p])
    {
      ghost var gates := GatesFor(call, now);
      var refusal := Authenticate(call, now);
      if refusal.Some? {
        DecisionOfRefusal(call, gates, refusal.value);
        return Refused(refusal.value);
      }
      v := Inspect(call, gates);
    }

    method Refuse(refusal: Refusal, w: ResponseWriter<Payload>)
      requires w.statuses == [] && w.written == []
      modifies w
      ensures w.statuses == [StatusOf(refusal)] && BytesOf(w.written) == []
    {
      w.Error(Refusing(refusal), StatusOf(refusal));
    }

    // -------------------------------------------------------------- behind it

    /** Writes the status once and then every chunk, in order. */
    method StreamResponse(result: Result, chunks: seq<seq<byte>>, w: ResponseWriter<Payload>)
      requires w.statuses == [] && w.written == []
      modifies w
      ensures w.statuses == [result.statusCode]
      ensures BytesOf(w.written) == Flatten(chunks)
    {
      w.WriteHeader(result.statusCode);
      for i := 0 to |chunks|
        invariant w.statuses == [result.statusCode]
        invariant BytesOf(w.written) == Flatten(chunks[..i])
      {
        ghost var before := w.written;
        assert chunks[..i + 1][..i] == chunks[..i];
        w.Write(Bytes(chunks[i]));
        assert w.written[..|w.written| - 1] == before;
      }
      assert chunks[..|chunks|] == chunks;
    }

    /** The select and what follows: every result is recorded, failed ones too, and a timeout is not. */
    method Conclude(model: string, waited: Waited, w: ResponseWriter<Payload>) returns (success: bool)
      requires w.statuses == [] && w.written == []
      modifies tracker, w
      ensures tracker != null ==>
                tracker.avg == if waited.Arrived? then RecordStep(old(tracker.avg), model, waited.after)
                               else old(tracker.avg)
      ensures success <==> waited.Arrived? && waited.result.err == None && 200 <= waited.result.statusCode < 300
      ensures IsAnswer(waited, w.statuses, BytesOf(w.written))
    {
      match waited
      case TimedOut =>
        w.Error(Timeout, GATEWAY_TIMEOUT);
        success := false;
      case Arrived(result, after, chunks) =>
        if tracker != null {
          tracker.Record(model, after);
        }
        if result.err.Some? {
          w.Error(Failing(result.err.value), BAD_GATEWAY);
          return false;
        }
        success := 200 <= result.statusCode < 300;
        if result.streaming {
          StreamResponse(result, chunks, w);
          return;
        }
        w.WriteHeader(result.statusCode);
        w.Write(Bytes(result.body));
    }

    /** The answer to a decision, and the latency of a delivered result. */
    method Answer(call: Incoming, v: Decision, waited: Waited, w: ResponseWriter<Payload>) returns (success: bool)
      requires v.Queued? ==> call.content.Json?
      requires w.statuses == [] && w.written == []
      modifies tracker, w
      ensures success <==> Succeeds(v, waited)
      ensures v.Refused? ==> w.statuses == [StatusOf(v.refusal)] && BytesOf(w.written) == []
      ensures v.Queued? ==> IsAnswer(waited, w.statuses, BytesOf(w.written))
      ensures tracker != null && v.Queued? && waited.Arrived? ==>
                tracker.avg == RecordStep(old(tracker.avg), call.content.model, waited.after)
      ensures tracker != null && !(v.Queued? && waited.Arrived?) ==> tracker.avg == old(tracker.avg)
    {
      if v.Refused? {
        Refuse(v.refusal, w);
        return false;
      }
      success := Conclude(call.content.model, waited, w);
    }

    /** And the deferred hook. Queue and budgets stay as they are. */
    method Finish(call: Incoming, v: Decision, waited: Waited, w: ResponseWriter<Payload>)
      requires Valid() && w.statuses == [] && w.written == []
      requires v.Queued? ==> call.content.Json?
      modifies this`hookCalls, tracker, w
      ensures Valid() && q.View() == old(q.View()) && Levels() == old(Levels())
      ensures v.Refused? ==> w.statuses == [StatusOf(v.refusal)] && BytesOf(w.written) == []
      ensures v.Queued? ==> IsAnswer(waited, w.statuses, BytesOf(w.written))
      ensures tracker != null && v.Queued? && waited.Arrived? ==>
                tracker.avg == RecordStep(old(tracker.avg), call.content.model, waited.after)
      ensures tracker != null && !(v.Queued? && waited.Arrived?) ==> tracker.avg == old(tracker.avg)
      ensures hookCalls == old(hookCalls) + if hasHook then [HookCall(ModelOf(call, v), Succeeds(v, waited))] else []
    {
      var success := Answer(call, v, waited, w);
      if hasHook {
        hookCalls := hookCalls + [HookCall(ModelOf(call, v), success)];
      }
    }

    /** The whole handler: what Enter decides and writes, the answer that follows from it, the latency
        of every delivered result, and one call of the hook, if there is one. (What others do to queue
        and tracker meanwhile is not shown here.) */
    method HandleInference(call: Incoming, now: int, waited: Waited, w: ResponseWriter<Payload>) returns (v: Decision)
      requires Valid() && w.statuses == [] && w.written == []
      modifies this`idCounter, this`hookCalls, q.lanes.Values, rateLimiter, Buckets(), tracker, w
      ensures Valid()
      ensures IsDecision(v, call, old(GatesFor(call, now)))
      ensures q.View() == if v.Queued? then PushStep(old(q.View()), q.capacityPerLane, v.request).0 else old(q.View())
      ensures v.Queued? ==>
                v.request == Request(idCounter, call.content.model, ParsePriority(call.priority), call.content.stream)
      ensures idCounter == old(idCounter) + if v.Queued? || v == Refused(QueueFull) then 1 else 0
      ensures Levels() == if Metered(call) then
                            AllowStep(old(Levels()), KeyOf(call).value.keyID, KeyOf(call).value.requestsPerMin, now).0
                          else old(Levels())
      ensures call.isPost && keyStore.Some? && rateLimiter != null ==>
                forall k :: k in keyStore.value && k != "" && call.authorization == "Bearer " + k ==>
                  var (levels, ok) :=
                    AllowStep(old(Levels()), keyStore.value[k].keyID, keyStore.value[k].requestsPerMin, now);
                  Levels() == levels && (v == Refused(RateLimited) <==> !ok)
      ensures (call.isPost && keyStore.Some? ==>
                 forall k :: k in keyStore.value && k != "" ==> call.authorization != "Bearer " + k) ==>
                Levels() == old(Levels()) && v != Refused(RateLimited)
      ensures v == Refused(WaitTooLong) || v == Refused(QueueFull) || v.Queued? ==>
                call.content.Json? && call.content.model != ""
      ensures v == Refused(NoModelField) ==>
                call.content.Malformed? || (call.content.Json? && call.content.model == "")
      ensures v == Refused(WaitTooLong) || v == Refused(QueueFull) || v.Queued? ==>
                (v == Refused(WaitTooLong) <==>
                   var p := ParsePriority(call.priority);
                   && policy.Some? && estimator != null && p in policy.value
                   && var average := if call.content.model in old(estimator.tracker.avg)
                                     then old(estimator.tracker.avg[call.content.model])
                                     else estimator.tracker.fallback;
                      TruncDiv(old(q.View()).Ahead(p) * average, estimator.concurrency) > policy.value[p])
      ensures v.Refused? ==>
                && BytesOf(w.written) == []
                && w.statuses == match v.refusal
                                 case WrongMethod => [405]
                                 case MissingKey => [401]
                                 case InvalidKey => [401]
                                 case RateLimited => [429]
                                 case FailedToRead => [400]
                                 case NoModelField => [400]
                                 case WaitTooLong => [503]
                                 case QueueFull => [503]
      ensures v.Queued? ==> IsAnswer(waited, w.statuses, BytesOf(w.written))
      ensures tracker != null && v.Queued? && waited.Arrived? ==>
                tracker.avg == RecordStep(old(tracker.avg), call.content.model, waited.after)
      ensures tracker != null && !(v.Queued? && waited.Arrived?) ==> tracker.avg == old(tracker.avg)
      ensures !hasHook ==> hookCalls == old(hookCalls)
      ensures hasHook ==>
                var model := if v == Refused(WaitTooLong) || v == Refused(QueueFull) || v.Queued?
                             then call.content.model else "";
                var success := v.Queued? && waited.Arrived? && waited.result.err == None
                               && 200 <= waited.result.statusCode < 300;
                hookCalls == old(hookCalls) + [HookCall(model, success)]
    {
      v := Enter(call, now);
      Finish(call, v, waited, w);
    }
  }
}
