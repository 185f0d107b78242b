/** The latency average (request-plane/slo/tracker.go). Durations are integer nanoseconds; the
    smoothing factor 0.3 is taken as exactly three tenths, and the conversion back to a duration
    truncates toward zero as Go's does. */
module LatencyTracking {
  import Arithmetic

  /** Integer quotient truncated toward zero. */
  function TruncDiv(a: int, b: int): int
    requires b > 0
  {
    if a >= 0 then a / b else -(-a / b)
  }

  lemma TruncatesTowardZero(a: int, b: int)
    requires a >= 0 && b > 0
    ensures b * TruncDiv(a, b) <= a < b * TruncDiv(a, b) + b
    ensures TruncDiv(-a, b) == -TruncDiv(a, b)
  {
    Arithmetic.QuotientBounds(a, b);
    assert -(-a) == a;
    if a == 0 {
      Arithmetic.QuotientByBounds(0, b, 0);
    }
  }

  /** The stored average after one more sample. */
  function Blend(cur: int, d: int): int {
    TruncDiv(7 * cur + 3 * d, 10)
  }

  function RecordStep(avg: map<string, int>, model: string, d: int): map<string, int> {
    avg[model := if model in avg then Blend(avg[model], d) else d]
  }

  class LatencyTracker {
    var avg: map<string, int>
    const fallback: int

    constructor (fallback: int)
      ensures avg == map[] && this.fallback == fallback
    {
      avg := map[];
      this.fallback := fallback;
    }

    method Record(model: string, d: int)
      modifies this
      ensures avg == RecordStep(old(avg), model, d)
    {
      if model !in avg {
        avg := avg[model := d];
        return;
      }
      var cur := avg[model];
      avg := avg[model := TruncDiv(cur * 7 + d * 3, 10)];
    }

    function Average(model: string): int
      reads this
    {
      if model in avg then avg[model] else fallback
    }
  }

  // ---------------------------------------------------------------- bounds

  /** What is stored for a model after these samples. */
  function Stored(samples: seq<int>): int
    requires samples != []
  {
    var n := |samples| - 1;
    if n == 0 then samples[0] else Blend(Stored(samples[..n]), samples[n])
  }

  lemma BlendIsBetween(lo: int, hi: int, cur: int, d: int)
    requires lo <= cur <= hi && lo <= d <= hi
    ensures lo <= Blend(cur, d) <= hi
  {
  }

  /** The stored average never leaves the range of its samples, whatever their signs. */
  lemma {:induction false} StoredWithinSamples(samples: seq<int>, lo: int, hi: int)
    requires samples != [] && forall i :: 0 <= i < |samples| ==> lo <= samples[i] <= hi
    ensures lo <= Stored(samples) <= hi
  {
    var n := |samples| - 1;
    if n > 0 {
      StoredWithinSamples(samples[..n], lo, hi);
      BlendIsBetween(lo, hi, Stored(samples[..n]), samples[n]);
    }
  }

  datatype Sample = Sample(model: string, d: int)

  function RecordAll(avg: map<string, int>, samples: seq<Sample>): map<string, int> {
    if samples == [] then avg
    else
      var n := |samples| - 1;
      RecordStep(RecordAll(avg, samples[..n]), samples[n].model, samples[n].d)
  }

  function SamplesOf(samples: seq<Sample>, model: string): seq<int> {
    if samples == [] then []
    else
      var n := |samples| - 1;
      SamplesOf(samples[..n], model) + if samples[n].model == model then [samples[n].d] else []
  }

  /** Models do not disturb each other: a tracker that started empty holds, for each model, what
      that model's own samples produce, and nothing for a model without samples. */
  lemma {:induction false} TrackerHoldsPerModel(samples: seq<Sample>, model: string)
    ensures model in RecordAll(map[], samples) <==> SamplesOf(samples, model) != []
    ensures model in RecordAll(map[], samples) ==>
              RecordAll(map[], samples)[model] == Stored(SamplesOf(samples, model))
  {
    if samples != [] {
      var n := |samples| - 1;
      TrackerHoldsPerModel(samples[..n], model);
      if samples[n].model == model {
        var own := SamplesOf(samples[..n], model);
        assert (own + [samples[n].d])[..|own|] == own;
      } else {
        assert SamplesOf(samples, model) == SamplesOf(samples[..n], model);
      }
    }
  }

  // ---------------------------------------------------------------- the weighted sum

  function Pow(base: real, n: nat): real {
    if n == 0 then 1.0 else base * Pow(base, n - 1)
  }

  /** The weight of sample i among n: 0.3 * 0.7^age, the first sample taking the whole rest. */
  function Weight(i: nat, n: nat): real
    requires i < n
  {
    if i == 0 then Pow(0.7, n - 1) else 0.3 * Pow(0.7, n - 1 - i)
  }

  /** The first k of the n weighted samples. */
  function PartialSum(samples: seq<int>, k: nat, n: nat): real
    requires k <= |samples| && k <= n
  {
    if k == 0 then 0.0 else PartialSum(samples, k - 1, n) + Weight(k - 1, n) * samples[k - 1] as real
  }

  function WeightedSum(samples: seq<int>): real {
    PartialSum(samples, |samples|, |samples|)
  }

  lemma WeightAges(i: nat, n: nat)
    requires i < n
    ensures Weight(i, n + 1) == 0.7 * Weight(i, n)
  {
    if i > 0 {
      assert Pow(0.7, n - i) == 0.7 * Pow(0.7, n - 1 - i);
    }
  }

  lemma Scale(w: real, x: real)
    ensures (0.7 * w) * x == 0.7 * (w * x)
  {
  }

  lemma {:induction false} OneMoreAges(samples: seq<int>, d: int, k: nat, n: nat)
    requires 0 < n && k <= n && n == |samples|
    ensures PartialSum(samples + [d], k, n + 1) == 0.7 * PartialSum(samples, k, n)
  {
    if k > 0 {
      OneMoreAges(samples, d, k - 1, n);
      assert (samples + [d])[k - 1] == samples[k - 1];
      WeightAges(k - 1, n);
      Scale(Weight(k - 1, n), samples[k - 1] as real);
    }
  }

  /** The weights give the usual recurrence. */
  lemma WeightedSumRecurrence(samples: seq<int>, d: int)
    requires samples != []
    ensures WeightedSum(samples + [d]) == 0.7 * WeightedSum(samples) + 0.3 * d as real
  {
    var n := |samples|;
    OneMoreAges(samples, d, n, n);
    assert Weight(n, n + 1) == 0.3 * Pow(0.7, 0) == 0.3;
  }

  lemma BlendTruncates(cur: int, d: int)
    requires cur >= 0 && d >= 0
    ensures 0.0 <= 0.7 * cur as real + 0.3 * d as real - Blend(cur, d) as real < 1.0
    ensures 0.7 * cur as real + 0.3 * d as real - Blend(cur, d) as real <= 0.9
    ensures Blend(cur, d) >= 0
  {
    var q := Blend(cur, d);
    assert 10 * q <= 7 * cur + 3 * d <= 10 * q + 9;
    assert (7 * cur + 3 * d) as real == 7.0 * cur as real + 3.0 * d as real;
    assert (10 * q) as real <= (7 * cur + 3 * d) as real <= (10 * q + 9) as real;
  }

  /** Truncation loses less than 3 ns in all: the exact exponentially weighted sum is at least
      the stored value and less than 3 above it, after any number of samples. */
  lemma {:induction false} TruncationLosesLessThanThree(samples: seq<int>)
    requires samples != [] && forall i :: 0 <= i < |samples| ==> samples[i] >= 0
    ensures 0.0 <= WeightedSum(samples) - Stored(samples) as real < 3.0
    ensures Stored(samples) >= 0
  {
    var n := |samples| - 1;
    if n == 0 {
      assert Weight(0, 1) == Pow(0.7, 0) == 1.0;
      assert PartialSum(samples, 1, 1) == PartialSum(samples, 0, 1) + Weight(0, 1) * samples[0] as real;
    } else {
      var front, d := samples[..n], samples[n];
      TruncationLosesLessThanThree(front);
      WeightedSumRecurrence(front, d);
      assert front + [d] == samples;
      BlendTruncates(Stored(front), d);
    }
  }

  // ---------------------------------------------------------------- repeating one sample

  /** The stored value after n more samples d. */
  function Repeated(s: int, d: int, n: nat): int {
    if n == 0 then s else Blend(Repeated(s, d, n - 1), d)
  }

  /** Where the repetition settles. */
  function Limit(s: int, d: int): int {
    if s >= d then d else if s >= d - 3 then s else d - 3
  }

  /** One step moves toward the limit, by at least 1 until it is there, and never past it. */
  lemma StepTowardLimit(s: int, d: int)
    requires s >= 0 && d >= 0
    ensures Limit(Blend(s, d), d) == Limit(s, d)
    ensures s > Limit(s, d) ==> Limit(s, d) <= Blend(s, d) < s
    ensures s < Limit(s, d) ==> s < Blend(s, d) <= Limit(s, d)
    ensures s == Limit(s, d) <==> Blend(s, d) == s
    ensures Blend(s, d) >= 0
  {
  }

  function Gap(s: int, d: int): nat {
    if s >= d then s - d else d - s
  }

  /** Repeating a sample d moves the average monotonically to its limit and keeps it there: to d
      exactly from above, and from below to no more than 3 ns short (exactly d - 3 unless it was
      already closer). It is there after at most |s - d| samples. */
  lemma {:induction false} RepeatedSettles(s: int, d: int, n: nat)
    requires s >= 0 && d >= 0
    ensures Repeated(s, d, n) >= 0 && Limit(Repeated(s, d, n), d) == Limit(s, d)
    ensures s >= d ==> Limit(s, d) <= Repeated(s, d, n) && (n > 0 ==> Repeated(s, d, n) <= Repeated(s, d, n - 1))
    ensures s < d ==> Repeated(s, d, n) <= Limit(s, d) && (n > 0 ==> Repeated(s, d, n) >= Repeated(s, d, n - 1))
    ensures Gap(Repeated(s, d, n), Limit(s, d)) + n <= Gap(s, Limit(s, d)) || Repeated(s, d, n) == Limit(s, d)
    ensures n >= Gap(s, d) ==> Repeated(s, d, n) == Limit(s, d)
  {
    if n > 0 {
      RepeatedSettles(s, d, n - 1);
      StepTowardLimit(Repeated(s, d, n - 1), d);
    }
  }
}
