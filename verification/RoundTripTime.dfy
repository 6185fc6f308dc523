/** The integer round-trip estimator (`RttEstimator` in `src/timing.rs`) against
    the exact rational estimator of section 2 of RFC 6298. */
module RoundTripTime {
  import opened Wrappers

  const MAX_SAMPLE_MS: nat := 60_000
  const MIN_TIMEOUT_MS: nat := 50
  const MAX_TIMEOUT_MS: nat := 5_000
  const INITIAL_TIMEOUT_MS: nat := 1_000

  datatype TimingError =
    | TimeMovedBackwards | TimerExhausted | InvalidRttSample | StalePlan | GenerationExhausted

  /** The smoothed time and its variation in eighths of a millisecond. */
  datatype Estimator = Estimator(smoothed: Option<nat>, variation: nat, timeout: nat)

  const FRESH_ESTIMATOR: Estimator := Estimator(None, 0, INITIAL_TIMEOUT_MS)

  function AbsDiff(a: nat, b: nat): nat {
    if a < b then b - a else a - b
  }

  function DivCeil(n: nat, d: nat): nat
    requires d > 0
  {
    (n + d - 1) / d
  }

  function Clamp(n: nat, lo: nat, hi: nat): nat {
    if n < lo then lo else if n > hi then hi else n
  }

  /** Every product and sum is checked against 64 bits. */
  function Timeout(smoothed: nat, variation: nat): Result<nat, TimingError> {
    if 4 * variation > U64_MAX then Err(TimerExhausted)
    else
      var eighths := smoothed + if 4 * variation > 8 then 4 * variation else 8;
      if eighths > U64_MAX then Err(TimerExhausted)
      else Ok(Clamp(DivCeil(eighths, 8), MIN_TIMEOUT_MS, MAX_TIMEOUT_MS))
  }

  function Updated(smoothed: nat, variation: nat): Result<Estimator, TimingError> {
    match Timeout(smoothed, variation)
    case Err(e) => Err(e)
    case Ok(timeout) => Ok(Estimator(Some(smoothed), variation, timeout))
  }

  function Observe(e: Estimator, sample: nat): Result<Estimator, TimingError> {
    if sample > MAX_SAMPLE_MS then Err(InvalidRttSample)
    else
      match e.smoothed
      case None => Updated(8 * sample, 4 * sample)
      case Some(smoothed) =>
        var weighted := 3 * e.variation + AbsDiff(smoothed, 8 * sample);
        if weighted > U64_MAX || 7 * smoothed + 8 * sample > U64_MAX then Err(TimerExhausted)
        else Updated((7 * smoothed + 8 * sample) / 8, weighted / 4)
  }

  /** The estimator's fields updated in place. */
  class RttEstimator {
    var smoothedRttEighths: Option<nat>
    var rttVariationEighths: nat
    var retransmissionTimeoutMs: nat

    function View(): Estimator
      reads this
    {
      Estimator(smoothedRttEighths, rttVariationEighths, retransmissionTimeoutMs)
    }

    constructor ()
      ensures View() == FRESH_ESTIMATOR
    {
      smoothedRttEighths, rttVariationEighths, retransmissionTimeoutMs := None, 0, INITIAL_TIMEOUT_MS;
    }

    method ObserveSample(sample: nat) returns (r: Result<(), TimingError>)
      modifies this
      ensures
        match Observe(old(View()), sample)
        case Err(e) => r == Err(e)
        case Ok(next) => r == Ok(()) && View() == next
      ensures sample > MAX_SAMPLE_MS ==> View() == old(View())
    {
      if sample > MAX_SAMPLE_MS {
        return Err(InvalidRttSample);
      }
      var sampleEighths := 8 * sample;
      match smoothedRttEighths {
        case None =>
          smoothedRttEighths := Some(sampleEighths);
          rttVariationEighths := 4 * sample;
        case Some(smoothed) =>
          var weighted := 3 * rttVariationEighths + AbsDiff(smoothed, sampleEighths);
          if weighted > U64_MAX {
            return Err(TimerExhausted);
          }
          rttVariationEighths := weighted / 4;
          if 7 * smoothed + sampleEighths > U64_MAX {
            return Err(TimerExhausted);
          }
          smoothedRttEighths := Some((7 * smoothed + sampleEighths) / 8);
      }
      var timeout := Timeout(smoothedRttEighths.value, rttVariationEighths);
      if timeout.Err? {
        return Err(timeout.error);
      }
      retransmissionTimeoutMs := timeout.value;
      return Ok(());
    }
  }

  /** The timeout is the least whole number of milliseconds that covers the smoothed time
      and four variations, or one millisecond if that is more, between 50 and 5,000. */
  lemma TimeoutSays(smoothed: nat, variation: nat)
    ensures Timeout(smoothed, variation).Ok? <==>
      4 * variation <= U64_MAX && smoothed + 4 * variation <= U64_MAX && smoothed + 8 <= U64_MAX
    ensures Timeout(smoothed, variation).Ok? ==>
      var n := Timeout(smoothed, variation).value;
      && 50 <= n <= 5_000
      && (n > 50 ==> 8 * (n - 1) < smoothed + 4 * variation || 8 * (n - 1) < smoothed + 8)
      && (n < 5_000 ==> 8 * n >= smoothed + 4 * variation && 8 * n >= smoothed + 8)
  {
  }

  /** A sample moves the smoothed time by an eighth and the variation by a quarter of the
      way, rounding down to eighths of a millisecond; nothing beyond 64 bits passes. */
  lemma ObserveSays(e: Estimator, sample: nat)
    ensures Observe(e, sample) == Err(InvalidRttSample) <==> sample > 60_000
    ensures sample <= 60_000 ==>
      var (r, eighths) := (Observe(e, sample), 8 * sample);
      && (e.smoothed.None? && r.Ok? ==> r.value.smoothed == Some(eighths) && 2 * r.value.variation == eighths)
      && (e.smoothed.Some? ==>
            var (s, distance) := (e.smoothed.value, AbsDiff(e.smoothed.value, eighths));
            && (7 * s + eighths > U64_MAX || 3 * e.variation + distance > U64_MAX ==> r == Err(TimerExhausted))
            && (r.Ok? ==>
                  && r.value.smoothed.Some?
                  && 8 * r.value.smoothed.value <= 7 * s + eighths < 8 * r.value.smoothed.value + 8
                  && 4 * r.value.variation <= 3 * e.variation + distance < 4 * r.value.variation + 4)
            && (7 * s + eighths <= U64_MAX && 3 * e.variation + distance <= U64_MAX ==>
                  r == Updated((7 * s + eighths) / 8, (3 * e.variation + distance) / 4)))
      && (r.Ok? ==> r.value.timeout == Timeout(r.value.smoothed.value, r.value.variation).value)
  {
    hide DivCeil, Clamp;
  }

  // ------------------------------------------------------------------ reference

  /** The exact estimator: SRTT and RTTVAR in milliseconds. */
  datatype Exact = Exact(srtt: real, rttvar: real)

  function Abs(x: real): real {
    if x < 0.0 then -x else x
  }

  function ExactObserve(e: Option<Exact>, sample: nat): Exact {
    var r := sample as real;
    match e
    case None => Exact(r, r / 2.0)
    case Some(Exact(srtt, rttvar)) =>
      Exact(7.0 / 8.0 * srtt + 1.0 / 8.0 * r, 3.0 / 4.0 * rttvar + 1.0 / 4.0 * Abs(srtt - r))
  }

  function ExactTimeout(e: Exact): real {
    e.srtt + if 4.0 * e.rttvar > 1.0 then 4.0 * e.rttvar else 1.0
  }

  function ClampReal(x: real): real {
    if x < 50.0 then 50.0 else if x > 5000.0 then 5000.0 else x
  }

  function ExactAll(samples: seq<nat>): Option<Exact> {
    if samples == [] then None
    else Some(ExactObserve(ExactAll(samples[..|samples| - 1]), samples[|samples| - 1]))
  }

  function ObserveAll(samples: seq<nat>): Result<Estimator, TimingError> {
    if samples == [] then Ok(FRESH_ESTIMATOR)
    else
      match ObserveAll(samples[..|samples| - 1])
      case Err(e) => Err(e)
      case Ok(e) => Observe(e, samples[|samples| - 1])
  }

  // ------------------------------------------------------------------- accuracy

  /** The stored values stay near the exact ones: the smoothed time is never
      above and at most seven eighths below, the variation within ten eighths. */
  predicate Near(e: Estimator, x: Exact) {
    && e.smoothed.Some? && e.smoothed.value <= 8 * MAX_SAMPLE_MS && e.variation <= 8 * MAX_SAMPLE_MS
    && 0.0 <= x.srtt - e.smoothed.value as real / 8.0 <= 7.0 / 8.0
    && -7.0 / 8.0 <= x.rttvar - e.variation as real / 8.0 <= 10.0 / 8.0
  }

  lemma FloorEighth(n: nat)
    ensures 0.0 <= n as real / 8.0 - (n / 8) as real <= 7.0 / 8.0
  {
    assert n == 8 * (n / 8) + n % 8;
    assert n as real == 8.0 * (n / 8) as real + (n % 8) as real;
  }

  lemma FloorQuarter(n: nat)
    ensures 0.0 <= n as real / 4.0 - (n / 4) as real <= 3.0 / 4.0
  {
    assert n == 4 * (n / 4) + n % 4;
    assert n as real == 4.0 * (n / 4) as real + (n % 4) as real;
  }

  lemma SmoothedStaysNear(smoothed: nat, srtt: real, sample: nat)
    requires 0.0 <= srtt - smoothed as real / 8.0 <= 7.0 / 8.0
    ensures
      var next := (7 * smoothed + 8 * sample) / 8;
      0.0 <= (7.0 / 8.0 * srtt + 1.0 / 8.0 * sample as real) - next as real / 8.0 <= 7.0 / 8.0
  {
    var n := 7 * smoothed + 8 * sample;
    FloorEighth(n);
    assert n as real == 7.0 * smoothed as real + 8.0 * sample as real;
  }

  lemma VariationStaysNear(smoothed: nat, variation: nat, x: Exact, sample: nat)
    requires 0.0 <= x.srtt - smoothed as real / 8.0 <= 7.0 / 8.0
    requires -7.0 / 8.0 <= x.rttvar - variation as real / 8.0 <= 10.0 / 8.0
    ensures
      var next := (3 * variation + AbsDiff(smoothed, 8 * sample)) / 4;
      -7.0 / 8.0 <= (3.0 / 4.0 * x.rttvar + 1.0 / 4.0 * Abs(x.srtt - sample as real)) - next as real / 8.0 <= 10.0 / 8.0
  {
    var off := AbsDiff(smoothed, 8 * sample);
    var n := 3 * variation + off;
    FloorQuarter(n);
    assert n as real == 3.0 * variation as real + off as real;
    assert off as real == Abs(smoothed as real - 8.0 * sample as real);
    assert -7.0 / 8.0 <= Abs(x.srtt - sample as real) - off as real / 8.0 <= 7.0 / 8.0;
  }

  lemma ObserveStaysNear(e: Estimator, x: Exact, sample: nat)
    requires Near(e, x) && sample <= MAX_SAMPLE_MS
    ensures Observe(e, sample).Ok? && Near(Observe(e, sample).value, ExactObserve(Some(x), sample))
  {
    SmoothedStaysNear(e.smoothed.value, x.srtt, sample);
    VariationStaysNear(e.smoothed.value, e.variation, x, sample);
  }

  lemma {:induction false} AllStayNear(samples: seq<nat>)
    requires samples != [] && forall i :: 0 <= i < |samples| ==> samples[i] <= MAX_SAMPLE_MS
    ensures ObserveAll(samples).Ok? && Near(ObserveAll(samples).value, ExactAll(samples).value)
  {
    hide Observe, ExactObserve, Near;
    var front, last := samples[..|samples| - 1], samples[|samples| - 1];
    if front == [] {
      FirstIsExact(last);
    } else {
      AllStayNear(front);
      ObserveStaysNear(ObserveAll(front).value, ExactAll(front).value, last);
    }
  }

  lemma FirstIsExact(sample: nat)
    requires sample <= MAX_SAMPLE_MS
    ensures Observe(FRESH_ESTIMATOR, sample).Ok?
    ensures Near(Observe(FRESH_ESTIMATOR, sample).value, ExactObserve(None, sample))
  {
  }

  lemma CeilEighth(n: nat)
    ensures 0.0 <= DivCeil(n, 8) as real - n as real / 8.0 <= 7.0 / 8.0
  {
    FloorEighth(n + 7);
    assert (n + 7) as real == n as real + 7.0;
  }

  lemma TimeoutIsNear(e: Estimator, x: Exact)
    requires Near(e, x) && Timeout(e.smoothed.value, e.variation) == Ok(e.timeout)
    ensures MIN_TIMEOUT_MS <= e.timeout <= MAX_TIMEOUT_MS
    ensures -6.0 < ClampReal(ExactTimeout(x)) - e.timeout as real < 6.0
  {
    var eighths := e.smoothed.value + if 4 * e.variation > 8 then 4 * e.variation else 8;
    CeilEighth(eighths);
    assert eighths as real ==
      e.smoothed.value as real + if 4.0 * e.variation as real > 8.0 then 4.0 * e.variation as real else 8.0;
    var raw := DivCeil(eighths, 8);
    assert -6.0 < ExactTimeout(x) - raw as real < 6.0;
    ClampIsClose(raw, ExactTimeout(x));
  }

  lemma ClampIsClose(raw: nat, exact: real)
    requires -6.0 < exact - raw as real < 6.0
    ensures -6.0 < ClampReal(exact) - Clamp(raw, MIN_TIMEOUT_MS, MAX_TIMEOUT_MS) as real < 6.0
  {
  }

  /** For every sequence of allowed samples the estimator never fails, its
      smoothed time is at most 7/8 ms below the exact one and never above, and its
      timeout is within 6 ms of the exact clamped timeout and always usable. */
  lemma RttAccuracy(samples: seq<nat>)
    requires forall i :: 0 <= i < |samples| ==> samples[i] <= MAX_SAMPLE_MS
    ensures ObserveAll(samples).Ok?
    ensures
      var e := ObserveAll(samples).value;
      && MIN_TIMEOUT_MS <= e.timeout <= MAX_TIMEOUT_MS
      && (samples != [] ==>
            var x := ExactAll(samples).value;
            && e.smoothed.Some?
            && x.srtt - 7.0 / 8.0 <= e.smoothed.value as real / 8.0 <= x.srtt
            && Abs(ClampReal(ExactTimeout(x)) - e.timeout as real) < 6.0)
  {
    if samples != [] {
      AllStayNear(samples);
      TimeoutIsCurrent(samples);
      TimeoutIsNear(ObserveAll(samples).value, ExactAll(samples).value);
    }
  }

  lemma TimeoutIsCurrent(samples: seq<nat>)
    requires samples != [] && ObserveAll(samples).Ok?
    ensures
      var e := ObserveAll(samples).value;
      e.smoothed.Some? && Timeout(e.smoothed.value, e.variation) == Ok(e.timeout)
  {
    hide Timeout;
  }
}
