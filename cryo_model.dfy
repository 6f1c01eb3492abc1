/** The value-level model of the simulated temperature controller: the state
    the device carries, the calls its clients make, what one call does to the
    state and what a sequence of calls does. The class in CryoSim is proved to
    follow this model call by call; the properties of whole call sequences are
    proved here. */
module CryoModel {

  /** Temperature of a newly built device (the ambient baseline). */
  const AMBIENT: real := 25.0
  /** Setpoint a device is built with when the caller gives none. */
  const DEFAULT_SETPOINT: real := 25.0
  /** Seconds the simulated handshake waits when a connection is opened. */
  const CONNECT_LATENCY: real := 3.0

  /** The four fields of a device: target, current reading, the clock value
      of the last sample or setpoint write, and the connection flag. */
  datatype Device = Device(setpoint: real, temperature: real, time: real, connected: bool)

  /** A call on the device's public surface. The clock reading `at`, the decay
      factor `f` (standing for exp(-elapsed / time constant)) and the noise
      sample are what the device would otherwise obtain itself. */
  datatype Call =
    | Write(value: real, at: real)
    | Read(at: real, f: real, noise: real)
    | Open
    | Close

  function Abs(x: real): (r: real) { if x < 0.0 then -x else x }

  /** The temperature update of one sample: the distance to the setpoint is
      multiplied by the decay factor, then the noise is added. */
  function Approach(setpoint: real, temperature: real, f: real, noise: real): (t: real)
  {
    setpoint - (setpoint - temperature) * f + noise
  }

  /** The state of a newly built device. */
  function Fresh(setpoint: real, now: real): (d: Device)
  {
    Device(setpoint, AMBIENT, now, false)
  }

  /** What one call does to the state. */
  function Step(d: Device, c: Call): (d': Device)
  {
    match c
    case Write(v, at) => d.(setpoint := if d.connected then v else d.setpoint, time := at)
    case Read(at, f, noise) => d.(temperature := Approach(d.setpoint, d.temperature, f, noise), time := at)
    case Open => d.(connected := true)
    case Close => d.(connected := false)
  }

  /** The handshake delay an Open call waits in state `d`. */
  function OpenDelay(d: Device): (delay: real)
    ensures delay == 0.0 || delay == CONNECT_LATENCY
    ensures delay > 0.0 <==> !d.connected
  {
    if d.connected then 0.0 else CONNECT_LATENCY
  }

  /** The state after the calls `cs`, first to last. */
  function Run(d: Device, cs: seq<Call>): (d': Device)
    decreases |cs|
  {
    if cs == [] then d else Run(Step(d, cs[0]), cs[1..])
  }

  // ---------------------------------------------------------------------
  // One sample

  /** Without noise, one sample multiplies the distance to the setpoint by
      the decay factor. */
  lemma DistanceScales(setpoint: real, temperature: real, f: real)
    requires 0.0 <= f
    ensures Abs(setpoint - Approach(setpoint, temperature, f, 0.0)) == f * Abs(setpoint - temperature)
  {
  }

  /** Without noise and with a factor in [0, 1], a sample stays on the same
      side of the setpoint and never moves away from it. */
  lemma ApproachMonotone(setpoint: real, temperature: real, f: real)
    requires 0.0 <= f <= 1.0
    ensures temperature <= setpoint ==> temperature <= Approach(setpoint, temperature, f, 0.0) <= setpoint
    ensures setpoint <= temperature ==> setpoint <= Approach(setpoint, temperature, f, 0.0) <= temperature
    ensures Abs(setpoint - Approach(setpoint, temperature, f, 0.0)) <= Abs(setpoint - temperature)
  {
    var gap := setpoint - temperature;
    assert setpoint - Approach(setpoint, temperature, f, 0.0) == gap * f;
    if gap >= 0.0 {
      assert 0.0 <= gap * f <= gap;
    } else {
      assert gap <= gap * f <= 0.0;
    }
  }

  /** A factor of 1 (no time elapsed) keeps the temperature up to noise; a
      factor of 0 puts it on the setpoint up to noise. */
  lemma ApproachEndpoints(setpoint: real, temperature: real, noise: real)
    ensures Approach(setpoint, temperature, 1.0, noise) == temperature + noise
    ensures Approach(setpoint, temperature, 0.0, noise) == setpoint + noise
  {
  }

  /** Two noiseless samples with factors f1 and f2 land where one sample with
      factor f1 * f2 does: since exp(-a/T) * exp(-b/T) = exp(-(a+b)/T), the
      result does not depend on how often the device is polled. */
  lemma DecayComposes(setpoint: real, temperature: real, f1: real, f2: real)
    ensures Approach(setpoint, Approach(setpoint, temperature, f1, 0.0), f2, 0.0)
         == Approach(setpoint, temperature, f1 * f2, 0.0)
  {
  }

  // ---------------------------------------------------------------------
  // Sequences of calls

  lemma {:induction false} RunAppend(d: Device, a: seq<Call>, b: seq<Call>)
    ensures Run(d, a + b) == Run(Run(d, a), b)
    decreases |a|
  {
    if a == [] {
      assert a + b == b;
    } else {
      assert (a + b)[1..] == a[1..] + b;
      RunAppend(Step(d, a[0]), a[1..], b);
    }
  }

  /** Running one more call is one more Step. */
  lemma RunSnoc(d: Device, cs: seq<Call>, c: Call)
    ensures Run(d, cs + [c]) == Step(Run(d, cs), c)
  {
    RunAppend(d, cs, [c]);
  }

  /** Closing is idempotent at any point of any call sequence. */
  lemma CloseIdempotent(d: Device, cs: seq<Call>)
    ensures Run(d, cs + [Close, Close]) == Run(d, cs + [Close])
    ensures !Run(d, cs + [Close]).connected
  {
    RunAppend(d, cs, [Close, Close]);
    RunAppend(d, cs, [Close]);
  }

  /** Opening is idempotent at any point of any call sequence, and the second
      open waits no handshake. */
  lemma OpenIdempotent(d: Device, cs: seq<Call>)
    ensures Run(d, cs + [Open, Open]) == Run(d, cs + [Open])
    ensures Run(d, cs + [Open]).connected
    ensures OpenDelay(Run(d, cs + [Open])) == 0.0
  {
    RunAppend(d, cs, [Open, Open]);
    RunAppend(d, cs, [Open]);
  }

  /** A with-block: whatever the body does, the device is disconnected after
      it, and the body itself starts on a connected device. */
  lemma {:induction false} WithBlockDisconnects(d: Device, body: seq<Call>)
    ensures Run(d, [Open]).connected
    ensures !Run(d, [Open] + body + [Close]).connected
  {
    RunAppend(d, [Open] + body, [Close]);
  }

  /** True when no call in `cs` opens the connection. */
  predicate NeverOpens(cs: seq<Call>)
  {
    forall i | 0 <= i < |cs| :: !cs[i].Open?
  }

  /** On a disconnected device, as long as nobody opens the connection, every
      setpoint write is ignored and the device stays disconnected. */
  lemma {:induction false} SetpointFrozenWhileDisconnected(d: Device, cs: seq<Call>)
    requires !d.connected
    requires NeverOpens(cs)
    ensures Run(d, cs).setpoint == d.setpoint
    ensures !Run(d, cs).connected
    decreases |cs|
  {
    if cs != [] {
      assert !cs[0].Open?;
      assert NeverOpens(cs[1..]) by {
        forall i | 0 <= i < |cs[1..]| ensures !cs[1..][i].Open? {
          assert cs[1..][i] == cs[i + 1];
        }
      }
      SetpointFrozenWhileDisconnected(Step(d, cs[0]), cs[1..]);
    }
  }

  /** True when every call in `cs` is a noiseless sample. */
  predicate QuietReads(cs: seq<Call>)
  {
    forall i | 0 <= i < |cs| :: cs[i].Read? && cs[i].noise == 0.0
  }

  /** True when every sample in `cs` has a decay factor in [lo, 1]. */
  predicate FactorsWithin(cs: seq<Call>, lo: real)
  {
    forall i | 0 <= i < |cs| :: cs[i].Read? ==> lo <= cs[i].f <= 1.0
  }

  /** Product of the decay factors of the samples in `cs`. */
  function Decay(cs: seq<Call>): (product: real)
    decreases |cs|
  {
    if cs == [] then 1.0
    else (if cs[0].Read? then cs[0].f else 1.0) * Decay(cs[1..])
  }

  lemma {:induction false} QuietReadsTail(cs: seq<Call>)
    requires cs != [] && QuietReads(cs)
    ensures cs[0].Read? && cs[0].noise == 0.0 && QuietReads(cs[1..])
  {
    forall i | 0 <= i < |cs[1..]| ensures cs[1..][i].Read? && cs[1..][i].noise == 0.0 {
      assert cs[1..][i] == cs[i + 1];
    }
  }

  lemma {:induction false} FactorsWithinTail(cs: seq<Call>, lo: real)
    requires cs != [] && FactorsWithin(cs, lo)
    ensures FactorsWithin(cs[1..], lo)
  {
    forall i | 0 <= i < |cs[1..]| ensures cs[1..][i].Read? ==> lo <= cs[1..][i].f <= 1.0 {
      assert cs[1..][i] == cs[i + 1];
    }
  }

  /** Closed form of a run of noiseless samples: the setpoint and the
      connection stay as they were, and the distance to the setpoint is the
      initial distance times the product of the decay factors. */
  lemma {:induction false} QuietRunClosedForm(d: Device, cs: seq<Call>)
    requires QuietReads(cs)
    ensures Run(d, cs).setpoint == d.setpoint
    ensures Run(d, cs).connected == d.connected
    ensures Run(d, cs).temperature == Approach(d.setpoint, d.temperature, Decay(cs), 0.0)
    decreases |cs|
  {
    if cs == [] {
    } else {
      QuietReadsTail(cs);
      var d1 := Step(d, cs[0]);
      QuietRunClosedForm(d1, cs[1..]);
      DecayComposes(d.setpoint, d.temperature, cs[0].f, Decay(cs[1..]));
    }
  }

  /** Decay factors in [lo, 1] with lo >= 0 multiply to a value in [0, 1],
      and to a positive value when lo is positive. */
  lemma {:induction false} DecayBounds(cs: seq<Call>, lo: real)
    requires 0.0 <= lo && FactorsWithin(cs, lo)
    ensures 0.0 <= Decay(cs) <= 1.0
    ensures lo > 0.0 ==> Decay(cs) > 0.0
    decreases |cs|
  {
    if cs != [] {
      FactorsWithinTail(cs, lo);
      DecayBounds(cs[1..], lo);
      var h := if cs[0].Read? then cs[0].f else 1.0;
      var t := Decay(cs[1..]);
      assert 0.0 <= h * t <= t by {
        assert 0.0 <= h <= 1.0;
      }
      if lo > 0.0 {
        assert h > 0.0 && t > 0.0;
        assert h * t > 0.0;
      }
    }
  }

  /** Noiseless sampling with factors in [0, 1] never moves the temperature
      away from the setpoint, nor past it. */
  lemma QuietRunApproaches(d: Device, cs: seq<Call>)
    requires QuietReads(cs) && FactorsWithin(cs, 0.0)
    ensures Abs(d.setpoint - Run(d, cs).temperature) <= Abs(d.setpoint - d.temperature)
    ensures d.temperature <= d.setpoint ==> d.temperature <= Run(d, cs).temperature <= d.setpoint
    ensures d.setpoint <= d.temperature ==> d.setpoint <= Run(d, cs).temperature <= d.temperature
  {
    QuietRunClosedForm(d, cs);
    DecayBounds(cs, 0.0);
    ApproachMonotone(d.setpoint, d.temperature, Decay(cs));
  }

  /** The setpoint is approached but never reached in finite time: with
      positive decay factors a device off its setpoint stays off it. */
  lemma QuietRunNeverArrives(d: Device, cs: seq<Call>, lo: real)
    requires QuietReads(cs) && 0.0 < lo && FactorsWithin(cs, lo)
    requires d.temperature != d.setpoint
    ensures Run(d, cs).temperature != d.setpoint
  {
    QuietRunClosedForm(d, cs);
    DecayBounds(cs, lo);
    DistanceScales(d.setpoint, d.temperature, Decay(cs));
    assert Abs(d.setpoint - d.temperature) > 0.0;
    assert Decay(cs) * Abs(d.setpoint - d.temperature) > 0.0;
  }
}
