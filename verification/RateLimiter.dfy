/** The per-key token bucket of the gateway (request-plane/auth/ratelimiter.go).

    Arithmetic is exact: a token is divided into UNIT units, chosen so that a budget of R
    requests per minute refills exactly R units per nanosecond. Clock readings are integers
    (nanoseconds) passed in by the caller.

    The bucket is O(1) state; the theorems below show that it decides exactly what a check
    over the whole log of allowed requests would decide. */
module RateLimiting {
  import Arithmetic

  // R tokens per minute = R * UNIT units per 60 * 10^9 ns = R units per ns.
  const UNIT: int := 60_000_000_000

  /** The value of one bucket. */
  datatype Level = Level(tokens: int, lastRefill: int)

  /** The level a bucket with this budget has at `now`. */
  function Refilled(b: Level, rpm: int, now: int): int {
    Arithmetic.Min(rpm * UNIT, b.tokens + (now - b.lastRefill) * rpm)
  }

  /** One `Allow` call on the values of all buckets: the new values and the verdict. */
  function AllowStep(bs: map<string, Level>, key: string, rpm: int, now: int): (map<string, Level>, bool) {
    if rpm <= 0 then (bs, true)
    else if key !in bs then (bs[key := Level((rpm - 1) * UNIT, now)], true)
    else
      var level := Refilled(bs[key], rpm, now);
      if level < UNIT then (bs[key := Level(level, now)], false)
      else (bs[key := Level(level - UNIT, now)], true)
  }

  // ---------------------------------------------------------------- the objects

  class Bucket {
    var tokens: int
    var lastRefill: int

    constructor (tokens: int, lastRefill: int)
      ensures this.tokens == tokens && this.lastRefill == lastRefill
    {
      this.tokens := tokens;
      this.lastRefill := lastRefill;
    }
  }

  class RateLimiter {
    var buckets: map<string, Bucket>

    /** Distinct keys never share a bucket object. */
    ghost predicate Valid()
      reads this
    {
      forall k, k' :: k in buckets && k' in buckets && buckets[k] == buckets[k'] ==> k == k'
    }

    ghost function View(): map<string, Level>
      reads this, buckets.Values
    {
      map k | k in buckets :: Level(buckets[k].tokens, buckets[k].lastRefill)
    }

    constructor ()
      ensures Valid() && View() == map[]
    {
      buckets := map[];
    }

    method Allow(keyID: string, requestsPerMin: int, now: int) returns (ok: bool)
      requires Valid()
      modifies this, buckets.Values
      ensures Valid()
      ensures forall b :: b in buckets.Values ==> b in old(buckets.Values) || fresh(b)
      ensures (View(), ok) == AllowStep(old(View()), keyID, requestsPerMin, now)
    {
      if requestsPerMin <= 0 {
        return true;
      }
      var capacity := requestsPerMin * UNIT;
      if keyID !in buckets {
        var full := new Bucket(capacity - UNIT, now);
        buckets := buckets[keyID := full];
        assert View() == old(View())[keyID := Level(capacity - UNIT, now)];
        return true;
      }
      var b := buckets[keyID];
      var elapsed := now - b.lastRefill;
      b.tokens := Arithmetic.Min(capacity, b.tokens + elapsed * requestsPerMin);
      b.lastRefill := now;
      if b.tokens < UNIT {
        assert View() == old(View())[keyID := Level(b.tokens, now)];
        return false;
      }
      b.tokens := b.tokens - UNIT;
      assert View() == old(View())[keyID := Level(b.tokens, now)];
      return true;
    }

    /** Reads the level without changing it: at least one token is shown exactly when `Allow`
        at the same instant would say yes. */
    method Tokens(keyID: string, requestsPerMin: int, now: int)
      returns (tokens: int, capacity: int, tracked: bool)
      ensures tracked <==> requestsPerMin > 0
      ensures !tracked ==> tokens == 0 && capacity == 0
      ensures tracked ==> capacity == requestsPerMin * UNIT && tokens <= capacity
      ensures tracked ==>
                tokens == if keyID in View() then Refilled(View()[keyID], requestsPerMin, now) else capacity
      ensures tracked ==> (tokens >= UNIT <==> AllowStep(View(), keyID, requestsPerMin, now).1)
    {
      if requestsPerMin <= 0 {
        return 0, 0, false;
      }
      capacity := requestsPerMin * UNIT;
      if keyID !in buckets {
        return capacity, capacity, true;
      }
      var b := buckets[keyID];
      var elapsed := now - b.lastRefill;
      tokens := Arithmetic.Min(capacity, b.tokens + elapsed * requestsPerMin);
      tracked := true;
    }
  }

  // ---------------------------------------------------------------- whole runs

  datatype Call = Call(key: string, rpm: int, now: int)

  /** The buckets after a run that starts with none. */
  function Run(calls: seq<Call>): map<string, Level>
    decreases |calls|, 0
  {
    if calls == [] then map[] else After(calls[..|calls| - 1], calls[|calls| - 1]).0
  }

  /** What `Allow` does for `c` after the run `calls`. */
  function After(calls: seq<Call>, c: Call): (map<string, Level>, bool)
    decreases |calls|, 1
  {
    AllowStep(Run(calls), c.key, c.rpm, c.now)
  }

  predicate Verdict(calls: seq<Call>, k: nat)
    requires k < |calls|
  {
    After(calls[..k], calls[k]).1
  }

  /** The clock readings of the allowed calls of one key, oldest first. */
  function Log(calls: seq<Call>, key: string): seq<int> {
    if calls == [] then []
    else
      var earlier, c := calls[..|calls| - 1], calls[|calls| - 1];
      Log(earlier, key) + if c.key == key && After(earlier, c).1 then [c.now] else []
  }

  ghost predicate Monotone(calls: seq<Call>) {
    forall i, j :: 0 <= i <= j < |calls| ==> calls[i].now <= calls[j].now
  }

  /** Every call of `key` carries the same budget; other keys may do as they like. */
  ghost predicate FixedBudget(calls: seq<Call>, key: string, rpm: int) {
    forall i :: 0 <= i < |calls| && calls[i].key == key ==> calls[i].rpm == rpm
  }

  /** The reference rule, over the log of allowed requests: counting from any allowed request
      up to `now` and `more` new ones, no window may hold more than the burst plus the rate. */
  ghost predicate WindowsHold(log: seq<int>, rpm: int, now: int, more: int) {
    forall i :: 0 <= i < |log| ==> (|log| - i + more) * UNIT <= rpm * UNIT + (now - log[i]) * rpm
  }

  ghost predicate HistoryAllows(log: seq<int>, rpm: int, now: int) {
    WindowsHold(log, rpm, now, 1)
  }

  /** The tightest window of a non-empty log, as the number of units it leaves at `now`. */
  function Tightest(log: seq<int>, rpm: int, now: int): int
    requires log != []
  {
    var last := rpm * UNIT + (now - log[|log| - 1]) * rpm - UNIT;
    if |log| == 1 then last else Arithmetic.Min(last, Tightest(log[..|log| - 1], rpm, now) - UNIT)
  }

  lemma {:induction false} TightestShift(log: seq<int>, rpm: int, now: int, later: int)
    requires log != []
    ensures Tightest(log, rpm, later) == Tightest(log, rpm, now) + (later - now) * rpm
  {
    var x := log[|log| - 1];
    assert (later - x) * rpm == (now - x) * rpm + (later - now) * rpm;
    if |log| > 1 {
      TightestShift(log[..|log| - 1], rpm, now, later);
    }
  }

  lemma {:induction false} TightestThreshold(log: seq<int>, rpm: int, now: int, more: int)
    requires log != []
    ensures Tightest(log, rpm, now) >= more * UNIT <==> WindowsHold(log, rpm, now, more)
  {
    var n := |log| - 1;
    if n > 0 {
      TightestThreshold(log[..n], rpm, now, more + 1);
      WindowsSplit(log, rpm, now, more);
    }
  }

  lemma WindowsSplit(log: seq<int>, rpm: int, now: int, more: int)
    requires log != []
    ensures var n := |log| - 1;
            WindowsHold(log, rpm, now, more) <==>
            WindowsHold(log[..n], rpm, now, more + 1) && (1 + more) * UNIT <= rpm * UNIT + (now - log[n]) * rpm
  {
    var n := |log| - 1;
    var front := log[..n];
    if WindowsHold(front, rpm, now, more + 1) {
      forall i | 0 <= i < n ensures (|log| - i + more) * UNIT <= rpm * UNIT + (now - log[i]) * rpm {
        assert front[i] == log[i];
      }
    }
    if WindowsHold(log, rpm, now, more) {
      forall i | 0 <= i < n ensures (|front| - i + (more + 1)) * UNIT <= rpm * UNIT + (now - front[i]) * rpm {
        assert front[i] == log[i];
      }
    }
  }

  /** Capping at an intermediate instant loses nothing, whether or not a token was taken there. */
  lemma RefillTwice(rpm: int, b: Level, mid: int, now: int, tightest: int)
    requires rpm > 0 && mid <= now
    requires Refilled(b, rpm, mid) == Arithmetic.Min(rpm * UNIT, tightest)
    ensures Refilled(Level(Refilled(b, rpm, mid), mid), rpm, now)
         == Arithmetic.Min(rpm * UNIT, tightest + (now - mid) * rpm)
    ensures Refilled(Level(Refilled(b, rpm, mid) - UNIT, mid), rpm, now)
         == Arithmetic.Min(rpm * UNIT, Arithmetic.Min(rpm * UNIT + (now - mid) * rpm - UNIT,
                                                      tightest + (now - mid) * rpm - UNIT))
  {
    assert (now - mid) * rpm >= 0;
  }

  /** The whole state of a key's bucket, in terms of its log: absent while the log is empty, and
      otherwise refilled at `now` to the tightest window, capped at the budget. */
  ghost predicate Tracks(bs: map<string, Level>, log: seq<int>, key: string, rpm: int, now: int) {
    && (key in bs <==> log != [])
    && (key in bs ==> Refilled(bs[key], rpm, now) == Arithmetic.Min(rpm * UNIT, Tightest(log, rpm, now)))
  }

  lemma CallTracks(bs: map<string, Level>, log: seq<int>, key: string, rpm: int, mid: int, now: int)
    requires rpm > 0 && mid <= now && Tracks(bs, log, key, rpm, mid)
    ensures var (bs', ok) := AllowStep(bs, key, rpm, mid);
            Tracks(bs', log + if ok then [mid] else [], key, rpm, now)
  {
    if log != [] {
      TightestShift(log, rpm, mid, now);
      RefillTwice(rpm, bs[key], mid, now, Tightest(log, rpm, mid));
      assert (log + [mid])[..|log|] == log;
      assert log + [] == log;
    }
  }

  lemma {:induction false} LevelIsTightestWindow(calls: seq<Call>, key: string, rpm: int, now: int)
    requires rpm > 0 && Monotone(calls) && FixedBudget(calls, key, rpm)
    requires forall i :: 0 <= i < |calls| ==> calls[i].now <= now
    ensures Tracks(Run(calls), Log(calls, key), key, rpm, now)
  {
    if calls != [] {
      var earlier, c := calls[..|calls| - 1], calls[|calls| - 1];
      if c.key != key {
        LevelIsTightestWindow(earlier, key, rpm, now);
        assert Log(calls, key) == Log(earlier, key);
      } else {
        LevelIsTightestWindow(earlier, key, rpm, c.now);
        CallTracks(Run(earlier), Log(earlier, key), key, rpm, c.now, now);
      }
    }
  }

  /** Main theorem: the bucket's verdict is the full-history rule, for every run of any number
      of keys, as long as the clock does not go back and this key's budget stays the same. */
  lemma BucketIsHistoryRule(calls: seq<Call>, c: Call)
    requires Monotone(calls + [c]) && FixedBudget(calls + [c], c.key, c.rpm)
    ensures After(calls, c).1 <==> c.rpm <= 0 || HistoryAllows(Log(calls, c.key), c.rpm, c.now)
  {
    if c.rpm > 0 {
      var all := calls + [c];
      assert forall i :: 0 <= i < |calls| ==> all[i] == calls[i];
      assert all[|calls|] == c;
      LevelIsTightestWindow(calls, c.key, c.rpm, c.now);
      if Log(calls, c.key) != [] {
        TightestThreshold(Log(calls, c.key), c.rpm, c.now, 1);
      }
    }
  }

  /** In numbers: a call is denied only if some window forces it. (That no window is ever fuller is
      EveryWindowIsBounded.) */
  lemma DenialIsForced(calls: seq<Call>, c: Call) returns (i: nat)
    requires Monotone(calls + [c]) && FixedBudget(calls + [c], c.key, c.rpm) && !After(calls, c).1
    ensures c.rpm > 0 && i < |Log(calls, c.key)|
    ensures (|Log(calls, c.key)| - i + 1) * 60_000_000_000
          > c.rpm * 60_000_000_000 + (c.now - Log(calls, c.key)[i]) * c.rpm
  {
    BucketIsHistoryRule(calls, c);
    i := FullWindow(Log(calls, c.key), c.rpm, c.now);
  }

  lemma FullWindow(log: seq<int>, rpm: int, now: int) returns (i: nat)
    requires !HistoryAllows(log, rpm, now)
    ensures i < |log| && (|log| - i + 1) * UNIT > rpm * UNIT + (now - log[i]) * rpm
  {
    i :| 0 <= i < |log| && (|log| - i + 1) * UNIT > rpm * UNIT + (now - log[i]) * rpm;
  }

  /** The same for a call inside a run. */
  lemma VerdictIsHistoryRule(calls: seq<Call>, k: nat)
    requires k < |calls| && Monotone(calls) && FixedBudget(calls, calls[k].key, calls[k].rpm)
    ensures Verdict(calls, k) <==>
            calls[k].rpm <= 0 || HistoryAllows(Log(calls[..k], calls[k].key), calls[k].rpm, calls[k].now)
  {
    assert calls[..k] + [calls[k]] == calls[..k + 1];
    BucketIsHistoryRule(calls[..k], calls[k]);
  }

  lemma WindowAt(log: seq<int>, rpm: int, now: int, i: nat)
    requires HistoryAllows(log, rpm, now) && i < |log|
    ensures (|log| - i + 1) * UNIT <= rpm * UNIT + (now - log[i]) * rpm
  {
  }

  /** Burst plus rate, on every window of every run: from the i-th to the j-th allowed request
      of a key there are at most R + R * (elapsed minutes) of them. */
  lemma {:induction false} EveryWindowIsBounded(calls: seq<Call>, key: string, rpm: int, i: nat, j: nat)
    requires rpm > 0 && Monotone(calls) && FixedBudget(calls, key, rpm)
    requires i <= j < |Log(calls, key)|
    ensures (j - i + 1) * 60_000_000_000
         <= rpm * 60_000_000_000 + (Log(calls, key)[j] - Log(calls, key)[i]) * rpm
  {
    var earlier, c := calls[..|calls| - 1], calls[|calls| - 1];
    var log, all := Log(earlier, key), Log(calls, key);
    if j < |log| {
      EveryWindowIsBounded(earlier, key, rpm, i, j);
      assert all[i] == log[i] && all[j] == log[j];
    } else if i < j {
      assert earlier + [c] == calls;
      BucketIsHistoryRule(earlier, c);
      assert j == |log| && all[j] == c.now && all[i] == log[i];
      WindowAt(log, rpm, c.now, i);
    } else {
      assert (all[j] - all[i]) * rpm == 0;
    }
  }

  // ---------------------------------------------------------------- deletions

  /** The calls whose flag is set. */
  function Kept(calls: seq<Call>, keep: seq<bool>): seq<Call>
    requires |calls| == |keep|
  {
    if calls == [] then []
    else
      var n := |calls| - 1;
      Kept(calls[..n], keep[..n]) + if keep[n] then [calls[n]] else []
  }

  /** Every allowed call of `key` survives; denied calls and calls of other keys may go. */
  ghost predicate KeepsAllowed(calls: seq<Call>, keep: seq<bool>, key: string)
    requires |calls| == |keep|
  {
    forall i :: 0 <= i < |calls| && calls[i].key == key && Verdict(calls, i) ==> keep[i]
  }

  lemma {:induction false} KeptIsWellFormed(calls: seq<Call>, keep: seq<bool>, key: string, rpm: int, now: int)
    requires |calls| == |keep| && Monotone(calls) && FixedBudget(calls, key, rpm)
    requires forall i :: 0 <= i < |calls| ==> calls[i].now <= now
    ensures Monotone(Kept(calls, keep)) && FixedBudget(Kept(calls, keep), key, rpm)
    ensures forall i :: 0 <= i < |Kept(calls, keep)| ==> Kept(calls, keep)[i].now <= now
  {
    if calls != [] {
      var n := |calls| - 1;
      KeptIsWellFormed(calls[..n], keep[..n], key, rpm, calls[n].now);
    }
  }

  lemma LogSnoc(calls: seq<Call>, c: Call, key: string)
    ensures Log(calls + [c], key) == Log(calls, key) + if c.key == key && After(calls, c).1 then [c.now] else []
  {
    assert (calls + [c])[..|calls|] == calls;
  }

  lemma {:induction false} KeptLog(calls: seq<Call>, keep: seq<bool>, key: string, rpm: int)
    requires |calls| == |keep| && Monotone(calls) && FixedBudget(calls, key, rpm)
    requires KeepsAllowed(calls, keep, key)
    ensures Log(Kept(calls, keep), key) == Log(calls, key)
    decreases |calls|, 0
  {
    if calls != [] {
      var n := |calls| - 1;
      var earlier, flags, c := calls[..n], keep[..n], calls[n];
      forall i | 0 <= i < n && earlier[i].key == key && Verdict(earlier, i) ensures flags[i] {
        assert earlier[..i] == calls[..i];
        assert Verdict(calls, i);
      }
      KeptLog(earlier, flags, key, rpm);
      var kept := Kept(earlier, flags);
      assert c.key == key && After(earlier, c).1 ==> keep[n] by {
        if c.key == key && After(earlier, c).1 { assert Verdict(calls, n); }
      }
      if keep[n] {
        assert Kept(calls, keep) == kept + [c];
        LogSnoc(kept, c, key);
        if c.key == key {
          assert earlier + [c] == calls;
          DeletionKeepsVerdict(earlier, flags, c);
        }
      } else {
        assert Kept(calls, keep) == kept;
        assert Log(calls, key) == Log(earlier, key);
      }
    }
  }

  /** Denied calls leave no trace and other keys never matter: delete any denied calls of this
      key and any calls at all of other keys, and the verdict on the next call is the same. */
  lemma {:induction false} DeletionKeepsVerdict(calls: seq<Call>, keep: seq<bool>, c: Call)
    requires |calls| == |keep| && Monotone(calls + [c]) && FixedBudget(calls + [c], c.key, c.rpm)
    requires KeepsAllowed(calls, keep, c.key)
    ensures After(Kept(calls, keep), c).1 == After(calls, c).1
    decreases |calls|, 1
  {
    var all := calls + [c];
    assert all[|calls|] == c;
    assert forall i :: 0 <= i < |calls| ==> all[i] == calls[i];
    KeptLog(calls, keep, c.key, c.rpm);
    KeptIsWellFormed(calls, keep, c.key, c.rpm, c.now);
    BucketIsHistoryRule(calls, c);
    BucketIsHistoryRule(Kept(calls, keep), c);
  }

  function Verdicts(calls: seq<Call>): (vs: seq<bool>)
    ensures |vs| == |calls|
  {
    seq(|calls|, k requires 0 <= k < |calls| => Verdict(calls, k))
  }

  ghost predicate FixedBudgets(calls: seq<Call>) {
    forall i, j :: 0 <= i < |calls| && 0 <= j < |calls| && calls[i].key == calls[j].key ==> calls[i].rpm == calls[j].rpm
  }

  ghost predicate AllAllowed(calls: seq<Call>) {
    forall j :: 0 <= j < |calls| ==> Verdict(calls, j)
  }

  lemma AllAllowedExtends(calls: seq<Call>, c: Call)
    requires AllAllowed(calls) && After(calls, c).1
    ensures AllAllowed(calls + [c])
  {
    forall j | 0 <= j < |calls| + 1 ensures Verdict(calls + [c], j) {
      assert (calls + [c])[..j] == calls[..j];
      if j < |calls| {
        assert Verdict(calls, j);
      } else {
        assert calls[..j] == calls;
      }
    }
  }

  lemma VerdictsKeepAllowed(calls: seq<Call>, key: string)
    ensures KeepsAllowed(calls, Verdicts(calls), key)
  {
  }

  lemma VerdictsOfPrefix(calls: seq<Call>, n: nat)
    requires n <= |calls|
    ensures Verdicts(calls)[..n] == Verdicts(calls[..n])
  {
    forall i | 0 <= i < n ensures Verdicts(calls)[i] == Verdicts(calls[..n])[i] {
      assert calls[..n][..i] == calls[..i];
    }
  }

  /** Deleting every denied call of every key from a run leaves a run in which every call is
      allowed: no other verdict changes. */
  lemma {:induction false} DeletingAllDenials(calls: seq<Call>)
    requires Monotone(calls) && FixedBudgets(calls)
    ensures AllAllowed(Kept(calls, Verdicts(calls)))
  {
    if calls != [] {
      var n := |calls| - 1;
      var earlier, c := calls[..n], calls[n];
      DeletingAllDenials(earlier);
      VerdictsOfPrefix(calls, n);
      var flags := Verdicts(earlier);
      if After(earlier, c).1 {
        assert earlier + [c] == calls;
        VerdictsKeepAllowed(earlier, c.key);
        DeletionKeepsVerdict(earlier, flags, c);
        AllAllowedExtends(Kept(earlier, flags), c);
      } else {
        assert Kept(calls, Verdicts(calls)) == Kept(earlier, flags);
      }
    }
  }

  /** Exactly when a denied call leaves no trace, whatever the budgets: the bucket that a call denied
      under budget q leaves behind has, for a later call under budget r, always the level it would
      have had without that call, if and only if the budgets are the same or no time had passed since
      the bucket was last touched. */
  lemma DenialLeavesNoTraceExactly(bs: map<string, Level>, key: string, q: int, t: int, r: int)
    requires !AllowStep(bs, key, q, t).1 && t >= bs[key].lastRefill && r > 0
    ensures var after := AllowStep(bs, key, q, t).0;
            && key in after
            && ((forall now :: now >= t ==> Refilled(after[key], r, now) == Refilled(bs[key], r, now)) <==>
                q == r || t == bs[key].lastRefill)
  {
    var b, e := bs[key], t - bs[key].lastRefill;
    var left := Level(b.tokens + e * q, t);
    assert AllowStep(bs, key, q, t).0 == bs[key := left];
    if q == r || e == 0 {
      forall now | now >= t ensures Refilled(left, r, now) == Refilled(b, r, now) {
        assert (now - b.lastRefill) * r == e * r + (now - t) * r;
      }
    } else {
      assert e * q != e * r by {
        if q < r { Arithmetic.Monotone(e, q + 1, r); Arithmetic.Distribute(e, q, 1); }
        if r < q { Arithmetic.Monotone(e, r + 1, q); Arithmetic.Distribute(e, r, 1); }
      }
      assert Refilled(left, r, t) != Refilled(b, r, t);
    }
  }

  /** The fixed budget is needed: when a key's budget is changed between calls (AddKey may
      replace it), a denied call made under the new budget does leave a trace. */
  lemma DenialUnderChangedBudgetLeavesTrace() returns (calls: seq<Call>, c: Call)
    ensures |calls| == 3 && Monotone(calls + [c])
    ensures c.key == calls[2].key && !Verdict(calls, 2)
    ensures After(calls, c).1 != After(calls[..2], c).1
  {
    // Budget 2 spent at once, then half a minute. A denied call with budget 1 in the middle
    // makes the first quarter minute refill at half speed.
    var a, d := Call("k", 2, 0), Call("k", 1, 15_000_000_000);
    c := Call("k", 2, 30_000_000_000);
    var one, two := [a], [a, a];
    calls := [a, a, d];
    assert one[..0] == [] && two[..1] == one && calls[..2] == two;
    assert Run([]) == map[];
    assert Run(one) == AllowStep(map[], "k", 2, 0).0 == map["k" := Level(UNIT, 0)];
    assert Run(two) == After(one, a).0 == map["k" := Level(0, 0)];
    assert Refilled(Level(0, 0), 1, d.now) == 15_000_000_000;
    assert map["k" := Level(0, 0)]["k" := Level(15_000_000_000, d.now)] == map["k" := Level(15_000_000_000, d.now)];
    assert After(two, d) == (map["k" := Level(15_000_000_000, 15_000_000_000)], false);
    assert Run(calls) == After(two, d).0;
    assert Verdict(calls, 2) == After(two, d).1;
  }
}
