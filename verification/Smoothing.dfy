/** Exponentially smoothed throughput and latency per profile, provider and model. */
module Smoothing {
  import opened Basics
  import opened Registry
  import opened Select

  const EWMA_ALPHA: real := 0.2

  datatype Key = Key(profile: RoutingProfile, provider: string, slug: string)

  datatype Observation = Observation(completionTokens: nat, streamSeconds: real, firstTokenSeconds: real)

  datatype MeasurementError = ZeroStreamDuration

  predicate IsDuration(seconds: real) {
    seconds >= 0.0
  }

  predicate ValidObservation(o: Observation) {
    IsDuration(o.streamSeconds) && IsDuration(o.firstTokenSeconds)
  }

  function Ewma(previous: real, sample: real): real {
    EWMA_ALPHA * sample + (1.0 - EWMA_ALPHA) * previous
  }

  function Rate(o: Observation): (rate: real)
    requires ValidObservation(o) && o.streamSeconds != 0.0
    ensures rate >= 0.0
  {
    o.completionTokens as real / o.streamSeconds
  }

  function SampleOf(o: Observation): Measurements
    requires ValidObservation(o) && o.streamSeconds != 0.0
  {
    Measurements(Rate(o), o.firstTokenSeconds)
  }

  function Blend(current: Option<Measurements>, sample: Measurements): Measurements {
    match current
    case None => sample
    case Some(m) => Measurements(Ewma(m.throughput, sample.throughput), Ewma(m.latency, sample.latency))
  }

  function Stored(store: map<Key, Measurements>, key: Key): Option<Measurements> {
    if key in store then Some(store[key]) else None
  }

  predicate AllNonNegative(store: map<Key, Measurements>) {
    forall key :: key in store ==> store[key].throughput >= 0.0 && store[key].latency >= 0.0
  }

  class MeasurementStore {
    var measurements: map<Key, Measurements>

    ghost predicate Valid()
      reads this
    {
      AllNonNegative(measurements)
    }

    constructor ()
      ensures Valid() && measurements == map[]
    {
      measurements := map[];
    }

    method ObserveFor(key: Key, observation: Observation) returns (r: Result<Measurements, MeasurementError>)
      requires Valid() && ValidObservation(observation)
      modifies this
      ensures Valid()
      ensures measurements == Replay([Entry(key, observation)], old(measurements))
      ensures if observation.streamSeconds == 0.0 then r == Err(ZeroStreamDuration)
              else key in measurements && r == Ok(measurements[key])
    {
      if observation.streamSeconds == 0.0 {
        return Err(ZeroStreamDuration);
      }
      var sample := SampleOf(observation);
      if key in measurements {
        var current := measurements[key];
        measurements := measurements[key := Measurements(
          Ewma(current.throughput, sample.throughput), Ewma(current.latency, sample.latency))];
      } else {
        measurements := measurements[key := sample];
      }
      assert [Entry(key, observation)][1..] == [];
      return Ok(measurements[key]);
    }
  }

  // ----------------------------------------------------- whole observation logs

  datatype Entry = Entry(key: Key, observation: Observation)

  predicate ValidLog(log: seq<Entry>) {
    forall i :: 0 <= i < |log| ==> ValidObservation(log[i].observation)
  }

  /** The store after a log of observations. */
  function Replay(log: seq<Entry>, store: map<Key, Measurements>): map<Key, Measurements>
    requires ValidLog(log)
  {
    if log == [] then store
    else
      var Entry(key, observation) := log[0];
      var next :=
        if observation.streamSeconds == 0.0 then store
        else store[key := Blend(Stored(store, key), SampleOf(observation))];
      Replay(log[1..], next)
  }

  /** Observing one log after another is observing both: successive calls replay the whole log. */
  lemma {:induction false} ReplayAppends(a: seq<Entry>, b: seq<Entry>, store: map<Key, Measurements>)
    requires ValidLog(a) && ValidLog(b)
    ensures ValidLog(a + b) && Replay(a + b, store) == Replay(b, Replay(a, store))
  {
    if a == [] {
      assert a + b == b;
    } else {
      assert (a + b)[0] == a[0] && (a + b)[1..] == a[1..] + b;
      var Entry(key, observation) := a[0];
      var next :=
        if observation.streamSeconds == 0.0 then store
        else store[key := Blend(Stored(store, key), SampleOf(observation))];
      ReplayAppends(a[1..], b, next);
    }
  }

  /** The accepted samples of one key, oldest first. */
  function Samples(log: seq<Entry>, key: Key): seq<Measurements>
    requires ValidLog(log)
  {
    if log == [] then []
    else
      var entry := log[0];
      (if entry.key == key && entry.observation.streamSeconds != 0.0 then [SampleOf(entry.observation)] else [])
      + Samples(log[1..], key)
  }

  /** Blending samples into a current value, one after the other. */
  function BlendAll(current: Option<Measurements>, samples: seq<Measurements>): Option<Measurements>
    decreases |samples|
  {
    if samples == [] then current else BlendAll(Some(Blend(current, samples[0])), samples[1..])
  }

  lemma NothingBlended()
    ensures BlendAll(None, []) == None
  {}

  /** Each key sees only its own accepted samples. */
  lemma {:induction false} ReplayIsPerKey(log: seq<Entry>, store: map<Key, Measurements>, key: Key)
    requires ValidLog(log)
    ensures Stored(Replay(log, store), key) == BlendAll(Stored(store, key), Samples(log, key))
  {
    if log != [] {
      var Entry(k, observation) := log[0];
      if observation.streamSeconds == 0.0 {
        ReplayIsPerKey(log[1..], store, key);
        assert [] + Samples(log[1..], key) == Samples(log[1..], key);
      } else {
        var next := store[k := Blend(Stored(store, k), SampleOf(observation))];
        ReplayIsPerKey(log[1..], next, key);
        if k == key {
          var rest := Samples(log[1..], key);
          assert Samples(log, key)[1..] == rest;
        }
      }
    }
  }

  function Power(base: real, n: nat): real {
    if n == 0 then 1.0 else base * Power(base, n - 1)
  }

  /** The weight of sample `i` among `n`: the first keeps what later ones leave of it. */
  function SampleWeight(i: nat, n: nat): real
    requires i < n
  {
    if i == 0 then Power(0.8, n - 1) else 0.2 * Power(0.8, n - 1 - i)
  }

  /** The first `k` terms of the weighted sum over `n` samples. */
  function WeightedSum(xs: seq<real>, k: nat, n: nat): real
    requires k <= n && k <= |xs|
  {
    if k == 0 then 0.0 else WeightedSum(xs, k - 1, n) + SampleWeight(k - 1, n) * xs[k - 1]
  }

  function Smoothed(xs: seq<real>): real
    requires xs != []
  {
    if |xs| == 1 then xs[0] else Ewma(Smoothed(xs[..|xs| - 1]), xs[|xs| - 1])
  }

  lemma {:induction false} OneMoreSampleScalesWeights(xs: seq<real>, k: nat, n: nat)
    requires k <= n && k <= |xs|
    ensures WeightedSum(xs, k, n + 1) == 0.8 * WeightedSum(xs, k, n)
  {
    if k > 0 {
      OneMoreSampleScalesWeights(xs, k - 1, n);
      assert SampleWeight(k - 1, n + 1) == 0.8 * SampleWeight(k - 1, n);
      Distribute(0.8, WeightedSum(xs, k - 1, n), SampleWeight(k - 1, n), xs[k - 1]);
    }
  }

  lemma Distribute(a: real, sum: real, weight: real, x: real)
    ensures a * (sum + weight * x) == a * sum + a * weight * x
  {}

  lemma {:induction false} WeightedSumOfPrefix(xs: seq<real>, longer: seq<real>, k: nat, n: nat)
    requires k <= n && k <= |xs| && xs <= longer
    ensures WeightedSum(longer, k, n) == WeightedSum(xs, k, n)
  {
    if k > 0 { WeightedSumOfPrefix(xs, longer, k - 1, n); }
  }

  /** Smoothing equals the closed-form weighted sum. */
  lemma {:induction false} SmoothedIsWeightedSum(xs: seq<real>)
    requires xs != []
    ensures Smoothed(xs) == WeightedSum(xs, |xs|, |xs|)
  {
    var n := |xs| - 1;
    if n == 0 {
      assert SampleWeight(0, 1) == 1.0;
      assert WeightedSum(xs, 0, 1) == 0.0;
    } else {
      var front := xs[..n];
      SmoothedIsWeightedSum(front);
      OneMoreSampleScalesWeights(front, n, n);
      WeightedSumOfPrefix(front, xs, n, n + 1);
      assert Power(0.8, 0) == 1.0;
      assert SampleWeight(n, n + 1) == 0.2;
    }
  }

  /** A smoothed value stays between the least and the greatest sample. */
  lemma {:induction false} SmoothedIsBetween(xs: seq<real>, low: real, high: real)
    requires xs != [] && forall i :: 0 <= i < |xs| ==> low <= xs[i] <= high
    ensures low <= Smoothed(xs) <= high
  {
    if |xs| > 1 {
      SmoothedIsBetween(xs[..|xs| - 1], low, high);
    }
  }

  function Throughputs(samples: seq<Measurements>): (xs: seq<real>)
    ensures |xs| == |samples| && forall i :: 0 <= i < |xs| ==> xs[i] == samples[i].throughput
  {
    if samples == [] then [] else [samples[0].throughput] + Throughputs(samples[1..])
  }

  function Latencies(samples: seq<Measurements>): (xs: seq<real>)
    ensures |xs| == |samples| && forall i :: 0 <= i < |xs| ==> xs[i] == samples[i].latency
  {
    if samples == [] then [] else [samples[0].latency] + Latencies(samples[1..])
  }

  lemma {:induction false} BlendAllAppends(current: Option<Measurements>, samples: seq<Measurements>,
                                           last: Measurements)
    ensures BlendAll(current, samples + [last]) == Some(Blend(BlendAll(current, samples), last))
    decreases |samples|
  {
    if samples == [] {
      assert samples + [last] == [last] && [last][1..] == [];
    } else {
      BlendAllAppends(Some(Blend(current, samples[0])), samples[1..], last);
      assert (samples + [last])[1..] == samples[1..] + [last];
    }
  }

  lemma {:induction false} BlendedIsSmoothed(samples: seq<Measurements>)
    requires samples != []
    ensures BlendAll(None, samples)
         == Some(Measurements(Smoothed(Throughputs(samples)), Smoothed(Latencies(samples))))
  {
    hide Ewma, Throughputs, Latencies;
    var n := |samples| - 1;
    var front := samples[..n];
    assert samples == front + [samples[n]];
    BlendAllAppends(None, front, samples[n]);
    if n > 0 {
      hide BlendAll;
      BlendedIsSmoothed(front);
      assert Throughputs(samples)[..n] == Throughputs(front);
      assert Latencies(samples)[..n] == Latencies(front);
    } else {
      assert front == [];
      assert BlendAll(None, front) == None;
    }
  }

  /** What was observed of one key over streams that took some time, oldest first. */
  function Accepted(log: seq<Entry>, key: Key): (seen: seq<Observation>)
    requires ValidLog(log)
    ensures forall i :: 0 <= i < |seen| ==> seen[i].streamSeconds > 0.0
  {
    if log == [] then []
    else
      (if log[0].key == key && log[0].observation.streamSeconds > 0.0 then [log[0].observation] else [])
      + Accepted(log[1..], key)
  }

  lemma {:induction false} SamplesAreRates(log: seq<Entry>, key: Key)
    requires ValidLog(log)
    ensures var samples, seen := Samples(log, key), Accepted(log, key);
            && |samples| == |seen|
            && forall i :: 0 <= i < |seen| ==>
                 samples[i] == Measurements(seen[i].completionTokens as real / seen[i].streamSeconds,
                                            seen[i].firstTokenSeconds)
  {
    if log != [] {
      SamplesAreRates(log[1..], key);
      assert log[0].observation.streamSeconds >= 0.0;
    }
  }

  /** Completion tokens per second of streaming. */
  function Rates(seen: seq<Observation>): (rates: seq<real>)
    requires forall i :: 0 <= i < |seen| ==> seen[i].streamSeconds > 0.0
  {
    seq(|seen|, i requires 0 <= i < |seen| => seen[i].completionTokens as real / seen[i].streamSeconds)
  }

  function FirstTokenDelays(seen: seq<Observation>): seq<real> {
    seq(|seen|, i requires 0 <= i < |seen| => seen[i].firstTokenSeconds)
  }

  /**
   * After any log of observations a key is measured exactly when some stream of its own took any time, and then its
   * throughput and its latency are the closed-form weighted sums of its own token rates and first-token delays.
   */
  lemma MeasurementsAreWeightedSums(log: seq<Entry>, key: Key)
    requires ValidLog(log)
    ensures var seen := Accepted(log, key);
            Stored(Replay(log, map[]), key) ==
            if seen == [] then None
            else Some(Measurements(
              WeightedSum(Rates(seen), |seen|, |seen|), WeightedSum(FirstTokenDelays(seen), |seen|, |seen|)))
  {
    var samples, seen := Samples(log, key), Accepted(log, key);
    ReplayIsPerKey(log, map[], key);
    SamplesAreRates(log, key);
    hide Samples, Accepted, Replay, WeightedSum, BlendAll;
    if samples != [] {
      BlendedIsSmoothed(samples);
      SmoothedIsWeightedSum(Throughputs(samples));
      SmoothedIsWeightedSum(Latencies(samples));
      assert Throughputs(samples) == Rates(seen);
      assert Latencies(samples) == FirstTokenDelays(seen);
    } else {
      NothingBlended();
    }
  }

  /** Every measurement lies between the extremes of its own accepted samples. */
  lemma MeasurementsStayBetween(log: seq<Entry>, key: Key, low: Measurements, high: Measurements)
    requires ValidLog(log) && key in Replay(log, map[])
    requires forall i :: 0 <= i < |Samples(log, key)| ==>
               && low.throughput <= Samples(log, key)[i].throughput <= high.throughput
               && low.latency <= Samples(log, key)[i].latency <= high.latency
    ensures var m := Replay(log, map[])[key];
            low.throughput <= m.throughput <= high.throughput && low.latency <= m.latency <= high.latency
  {
    var samples := Samples(log, key);
    ReplayIsPerKey(log, map[], key);
    assert samples != [];
    BlendedIsSmoothed(samples);
    SmoothedIsBetween(Throughputs(samples), low.throughput, high.throughput);
    SmoothedIsBetween(Latencies(samples), low.latency, high.latency);
  }
}
