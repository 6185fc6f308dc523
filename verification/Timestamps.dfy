/** Sixteen-bit wire timestamps and the samples they give (`DatagramTiming` in
    `src/timing.rs`). */
module Timestamps {
  import opened Wrappers
  import opened RoundTripTime
  import Bytes
  import Fragments

  const MODULUS: nat := 0x1_0000
  const MAX_REPLY_AGE_MS: nat := 1_000

  datatype Disposition = Sampled(ms: nat) | NoReply | Reordered | Implausible

  datatype Timing = Timing(
    estimator: Estimator, highest: Option<nat>, lastReceived: Option<(nat, nat)>, lastObserved: nat)

  function Wire(now: nat): (t: nat)
    ensures t < MODULUS
  {
    now % MODULUS
  }

  /** The echo of a timestamp received at `at`: it grows with the time it was
      held, and is left out when too old or equal to the no-reply mark. */
  function Echo(received: Option<(nat, nat)>, now: nat): Option<nat> {
    match received
    case None => None
    case Some((timestamp, at)) =>
      if now < at || now - at > MAX_REPLY_AGE_MS then None
      else
        var reply := (timestamp + (now - at)) % MODULUS;
        if reply == Fragments.NO_REPLY then None else Some(reply)
  }

  datatype Stamps = Stamps(timestamp: nat, reply: Option<nat>)

  function Outgoing(t: Timing, now: nat): Result<(Timing, Stamps), TimingError> {
    if now < t.lastObserved then Err(TimeMovedBackwards)
    else Ok((t.(lastObserved := now), Stamps(Wire(now), Echo(t.lastReceived, now))))
  }

  function Sample(now: nat, reply: nat): nat {
    (now - reply) % MODULUS
  }

  function Received(t: Timing, sequence: nat, timestamp: nat, reply: Option<nat>, now: nat)
    : Result<(Timing, Disposition), TimingError>
  {
    if now < t.lastObserved then Err(TimeMovedBackwards)
    else
      var at := t.(lastObserved := now);
      if t.highest.Some? && sequence <= t.highest.value then Ok((at, Reordered))
      else
        var newest := at.(highest := Some(sequence), lastReceived := Some((timestamp, now)));
        if reply.None? then Ok((newest, NoReply))
        else
          var sample := Sample(now, reply.value);
          if sample > MAX_SAMPLE_MS then Ok((newest, Implausible))
          else
            match Observe(t.estimator, sample)
            case Err(e) => Err(e)
            case Ok(estimator) => Ok((newest.(estimator := estimator), Sampled(sample)))
  }

  class DatagramTiming {
    const estimator: RttEstimator
    var highestReceivedSequence: Option<nat>
    var lastReceivedTimestamp: Option<(nat, nat)>
    var lastObservedMs: nat

    function View(): Timing
      reads this, estimator
    {
      Timing(estimator.View(), highestReceivedSequence, lastReceivedTimestamp, lastObservedMs)
    }

    constructor (startedAt: nat)
      ensures View() == Timing(FRESH_ESTIMATOR, None, None, startedAt) && fresh(estimator)
    {
      estimator := new RttEstimator();
      highestReceivedSequence, lastReceivedTimestamp, lastObservedMs := None, None, startedAt;
    }

    method Stamp(now: nat) returns (r: Result<Stamps, TimingError>)
      modifies this
      ensures
        match Outgoing(old(View()), now)
        case Err(e) => r == Err(e) && View() == old(View())
        case Ok((next, stamps)) => r == Ok(stamps) && View() == next
    {
      if now < lastObservedMs {
        return Err(TimeMovedBackwards);
      }
      lastObservedMs := now;
      var reply: Option<nat> := None;
      if lastReceivedTimestamp.Some? {
        var (timestamp, at) := lastReceivedTimestamp.value;
        if at <= now && now - at <= MAX_REPLY_AGE_MS {
          var echoed := (timestamp + (now - at)) % MODULUS;
          if echoed != Fragments.NO_REPLY {
            reply := Some(echoed);
          }
        }
      }
      return Ok(Stamps(Wire(now), reply));
    }

    method ObserveReceived(sequence: nat, timestamp: nat, reply: Option<nat>, now: nat)
      returns (r: Result<Disposition, TimingError>)
      modifies this, estimator
      ensures
        match Received(old(View()), sequence, timestamp, reply, now)
        case Err(e) => r == Err(e)
        case Ok((next, disposition)) => r == Ok(disposition) && View() == next
      ensures now < old(lastObservedMs) ==> View() == old(View())
    {
      hide Observe;
      if now < lastObservedMs {
        return Err(TimeMovedBackwards);
      }
      lastObservedMs := now;
      if highestReceivedSequence.Some? && sequence <= highestReceivedSequence.value {
        return Ok(Reordered);
      }
      highestReceivedSequence := Some(sequence);
      lastReceivedTimestamp := Some((timestamp, now));
      if reply.None? {
        return Ok(NoReply);
      }
      var sample := (Wire(now) + MODULUS - reply.value % MODULUS) % MODULUS;
      WrappingSubtraction(now, reply.value);
      if sample > MAX_SAMPLE_MS {
        return Ok(Implausible);
      }
      var observed := estimator.ObserveSample(sample);
      if observed.Err? {
        return Err(observed.error);
      }
      return Ok(Sampled(sample));
    }
  }

  lemma WrappingSubtraction(now: nat, reply: nat)
    ensures (Wire(now) + MODULUS - reply % MODULUS) % MODULUS == Sample(now, reply)
  {
    var a, b := now / MODULUS, reply / MODULUS;
    assert now - reply == Wire(now) - reply % MODULUS + MODULUS * (a - b);
    ModuloShift(Wire(now) - reply % MODULUS, a - b);
    ModuloShift(Wire(now) - reply % MODULUS, 1);
  }

  lemma ModuloShift(x: int, k: int)
    ensures (x + MODULUS * k) % MODULUS == x % MODULUS
  {
    var q, r := x / MODULUS, x % MODULUS;
    assert x + MODULUS * k == MODULUS * (q + k) + r;
  }

  /** What a datagram of a given sequence does: only one newer than all before counts; its
      timestamp is kept for the echo, and its reply gives a sample up to 60,000 ms. */
  lemma ReceivedSays(t: Timing, sequence: nat, timestamp: nat, reply: Option<nat>, now: nat)
    requires t.lastObserved <= now
    ensures
      var r := Received(t, sequence, timestamp, reply, now);
      if t.highest.Some? && sequence <= t.highest.value then r == Ok((t.(lastObserved := now), Reordered))
      else
        var newest := t.(lastObserved := now, highest := Some(sequence), lastReceived := Some((timestamp, now)));
        if reply.None? then r == Ok((newest, NoReply))
        else if Sample(now, reply.value) > 60_000 then r == Ok((newest, Implausible))
        else
          && (r.Ok? <==> Observe(t.estimator, Sample(now, reply.value)).Ok?)
          && (r.Ok? ==>
                && r.value.1 == Sampled(Sample(now, reply.value))
                && Ok(r.value.0.estimator) == Observe(t.estimator, Sample(now, reply.value))
                && r.value.0 == newest.(estimator := r.value.0.estimator))
  {
    hide Observe;
  }

  /** What goes out: the time, and the last timestamp moved on by the time it was held,
      if that was at most 1,000 ms. */
  lemma OutgoingSays(t: Timing, now: nat)
    ensures Outgoing(t, now).Ok? <==> t.lastObserved <= now
    ensures Received(t, 0, 0, None, now).Ok? <==> t.lastObserved <= now
    ensures Outgoing(t, now).Ok? ==>
      var (next, stamps) := Outgoing(t, now).value;
      && next == t.(lastObserved := now) && stamps.timestamp == now % 0x1_0000
      && (t.lastReceived.None? ==> stamps.reply.None?)
      && (t.lastReceived.Some? && t.lastReceived.value.1 <= now ==>
            var reply := (t.lastReceived.value.0 + now - t.lastReceived.value.1) % 0x1_0000;
            stamps.reply ==
              if now - t.lastReceived.value.1 > 1_000 || reply == 0xFFFF then None else Some(reply))
  {
    hide Observe;
  }

  // ------------------------------------------------------------------ exactness

  /** An outgoing reply is never the mark for "no reply", so that every header built
      from outgoing times decodes to itself. */
  lemma OutgoingDecodes(t: Timing, now: nat, identifier: nat, number: nat, isFinal: bool, body: seq<Bytes.Byte>,
                        capacity: nat)
    requires Outgoing(t, now).Ok? && identifier < Bytes.Power256(8) && number < Fragments.FINAL_BIT
    requires |body| <= Fragments.MAX_BODY_BYTES && Fragments.HEADER_BYTES + |body| <= capacity
    ensures
      var stamps := Outgoing(t, now).value.1;
      var f := Fragments.Fragment(stamps.timestamp, stamps.reply, identifier, number, isFinal, body);
      && f.reply != Some(Fragments.NO_REPLY)
      && Fragments.Encode(f, capacity).Ok? && Fragments.Decode(Fragments.Encode(f, capacity).value) == Ok(f)
  {
    hide Fragments.Encode, Fragments.Decode, Bytes.Power256;
    var stamps := Outgoing(t, now).value.1;
    var f := Fragments.Fragment(stamps.timestamp, stamps.reply, identifier, number, isFinal, body);
    Fragments.DecodeInvertsEncode(f, capacity);
  }

  lemma SampleOfEcho(sent: nat, held: nat, now: nat)
    requires sent + held <= now
    ensures Sample(now, (Wire(sent) + held) % MODULUS) == (now - sent - held) % MODULUS
  {
    var reply := (Wire(sent) + held) % MODULUS;
    var p, q := sent / MODULUS, (Wire(sent) + held) / MODULUS;
    assert now - reply == (now - sent - held) + MODULUS * (p + q);
    ModuloShift(now - sent - held, p + q);
  }

  /** One end sends at `sent` on its clock; the other takes it in at `arrived`
      on its own clock, holds it for `held` and echoes it; the first end gets the
      echo at `back`.  Whatever the two clocks show and however often they wrap,
      the sample is the elapsed time less the holding time exactly when that is
      at most a minute, and nothing is echoed only when held too long or when the
      echo would be the no-reply mark. */
  lemma EchoIsExact(near: Timing, far: Timing, sent: nat, forth: nat, other: Option<nat>, arrived: nat, held: nat,
                    later: Timing, backSequence: nat, back: nat)
    requires Outgoing(near, sent).Ok?
    requires Received(far, forth, Outgoing(near, sent).value.1.timestamp, other, arrived).Ok?
    requires Received(far, forth, Outgoing(near, sent).value.1.timestamp, other, arrived).value.1 != Reordered
    requires later.lastObserved <= back && (later.highest.Some? ==> later.highest.value < backSequence)
    requires later.estimator.smoothed.Some? ==>
      later.estimator.smoothed.value <= 8 * MAX_SAMPLE_MS && later.estimator.variation <= 8 * MAX_SAMPLE_MS
    requires sent + held <= back
    ensures
      var heard := Received(far, forth, Wire(sent), other, arrived).value.0;
      Outgoing(heard, arrived + held).Ok?
    ensures
      var heard := Received(far, forth, Wire(sent), other, arrived).value.0;
      var echo := Outgoing(heard, arrived + held).value.1;
      && (echo.reply.None? <==> held > MAX_REPLY_AGE_MS || (sent + held) % MODULUS == Fragments.NO_REPLY)
      && (echo.reply.Some? ==>
            var r := Received(later, backSequence, echo.timestamp, echo.reply, back);
            r.Ok? && (r.value.1 == Sampled(back - sent - held) <==> back - sent - held <= MAX_SAMPLE_MS))
  {
    hide Observe;
    var heard := Received(far, forth, Wire(sent), other, arrived).value.0;
    assert heard.lastReceived == Some((Wire(sent), arrived)) && heard.lastObserved == arrived;
    SampleOfEcho(sent, held, back);
    EchoOf(sent, held);
    forall sample | 0 <= sample <= MAX_SAMPLE_MS ensures Observe(later.estimator, sample).Ok? {
      AllowedSampleIsTaken(later.estimator, sample);
    }
  }

  lemma EchoOf(sent: nat, held: nat)
    ensures (Wire(sent) + held) % MODULUS == (sent + held) % MODULUS
  {
    assert sent + held == Wire(sent) + held + MODULUS * (sent / MODULUS);
    ModuloShift(Wire(sent) + held, sent / MODULUS);
  }

  lemma AllowedSampleIsTaken(e: Estimator, sample: nat)
    requires sample <= MAX_SAMPLE_MS
    requires e.smoothed.Some? ==> e.smoothed.value <= 8 * MAX_SAMPLE_MS && e.variation <= 8 * MAX_SAMPLE_MS
    ensures Observe(e, sample).Ok?
  {
  }
}
