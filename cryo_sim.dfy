/** The simulated temperature controller as an object whose methods update
    its fields in place. Every method is specified both field by field and as
    one Step of the value-level model, so the sequence lemmas of CryoModel
    apply to any series of calls on a Cryo. */
module CryoSim {
  import opened CryoModel

  /** Setpoint the demonstration run writes inside its with-block. */
  const DEMO_SETPOINT: real := 50.0
  /** Number of samples the demonstration run takes. */
  const DEMO_SAMPLES: nat := 20

  class Cryo {
    var setpoint: real
    var temperature: real
    /** Clock value of the last sample or setpoint write. */
    var time: real
    var isConnected: bool

    /** The object's fields as a value of the model. */
    function State(): (d: Device)
      reads this
    {
      Device(setpoint, temperature, time, isConnected)
    }

    /** A new device starts disconnected at the ambient temperature, with the
        given setpoint (25 by default) and the clock reading of its creation. */
    constructor (now: real, setpoint: real := DEFAULT_SETPOINT)
      ensures this.setpoint == setpoint && temperature == AMBIENT
      ensures time == now && !isConnected
      ensures State() == Fresh(setpoint, now)
    {
      this.setpoint := setpoint;
      temperature := AMBIENT;
      time := now;
      isConnected := false;
    }

    /** Writes the setpoint only while connected; the write is silently
        ignored otherwise. The sample clock is reset in both cases. */
    method SetSetpoint(value: real, now: real)
      modifies this
      ensures setpoint == if old(isConnected) then value else old(setpoint)
      ensures time == now
      ensures isConnected == old(isConnected) && temperature == old(temperature)
      ensures State() == Step(old(State()), Write(value, now))
    {
      if isConnected {
        setpoint := value;
      }
      time := now;
    }

    /** Takes a sample at clock reading `now`: the distance to the setpoint
        shrinks by the decay factor `f`, `noise` is added, and the new
        temperature is returned. */
    method ReadTemperature(now: real, f: real, noise: real) returns (t: real)
      modifies this
      ensures time == now
      ensures temperature == old(setpoint) - (old(setpoint) - old(temperature)) * f + noise
      ensures t == temperature
      ensures setpoint == old(setpoint) && isConnected == old(isConnected)
      ensures State() == Step(old(State()), Read(now, f, noise))
    {
      time := now;
      temperature := Approach(setpoint, temperature, f, noise);
      t := temperature;
    }

    /** Connects; returns the handshake delay waited, which is zero when the
        device was already connected. */
    method OpenConnection() returns (delay: real)
      modifies this
      ensures isConnected
      ensures delay == (if old(isConnected) then 0.0 else CONNECT_LATENCY)
      ensures setpoint == old(setpoint) && temperature == old(temperature) && time == old(time)
      ensures State() == Step(old(State()), Open)
    {
      delay := OpenDelay(State());
      isConnected := true;
    }

    /** Disconnects, whatever the previous state. */
    method CloseConnection()
      modifies this
      ensures !isConnected
      ensures setpoint == old(setpoint) && temperature == old(temperature) && time == old(time)
      ensures State() == Step(old(State()), Close)
    {
      isConnected := false;
    }

    /** Entering a with-block opens the connection and yields this device. */
    method Enter() returns (c: Cryo)
      modifies this
      ensures c == this && isConnected
      ensures setpoint == old(setpoint) && temperature == old(temperature) && time == old(time)
      ensures State() == Step(old(State()), Open)
    {
      var _ := OpenConnection();
      c := this;
    }

    /** Leaving a with-block closes the connection. */
    method Exit()
      modifies this
      ensures !isConnected
      ensures setpoint == old(setpoint) && temperature == old(temperature) && time == old(time)
      ensures State() == Step(old(State()), Close)
    {
      CloseConnection();
    }
  }

  /** The demonstration run: a device with the default setpoint is used in a
      with-block that writes the setpoint 50 and takes 20 samples. `clock`
      holds the clock readings (creation, the write, then one per sample),
      `factors` and `noises` the decay factor and noise of each sample.
      Afterwards the device is disconnected, the write has taken effect, the
      device's state is the model's Run of the calls made (open, write, the
      samples, close), and each sample is the update of the previous one; without noise and with
      factors in [0, 1] the samples rise monotonically from 25 towards 50. */
  method SampleDemo(clock: seq<real>, factors: seq<real>, noises: seq<real>)
    returns (c: Cryo, hist: seq<real>)
    requires |clock| == DEMO_SAMPLES + 2
    requires |factors| == DEMO_SAMPLES && |noises| == DEMO_SAMPLES
    ensures !c.isConnected && c.setpoint == DEMO_SETPOINT
    ensures |hist| == DEMO_SAMPLES && c.temperature == hist[DEMO_SAMPLES - 1]
    ensures c.time == clock[DEMO_SAMPLES + 1]
    ensures c.State() == Run(Fresh(DEFAULT_SETPOINT, clock[0]),
      [Open, Write(DEMO_SETPOINT, clock[1])] + DemoReads(clock, factors, noises, DEMO_SAMPLES) + [Close])
    ensures forall i | 0 <= i < DEMO_SAMPLES ::
      hist[i] == Approach(DEMO_SETPOINT, Before(hist, i), factors[i], noises[i])
    ensures (forall i | 0 <= i < DEMO_SAMPLES :: noises[i] == 0.0 && 0.0 <= factors[i] <= 1.0) ==>
      AMBIENT <= hist[0] && (forall i | 0 < i < DEMO_SAMPLES :: hist[i - 1] <= hist[i]) &&
      hist[DEMO_SAMPLES - 1] <= DEMO_SETPOINT
  {
    c := new Cryo(clock[0]);
    ghost var start := c.State();
    ghost var prefix := [Open, Write(DEMO_SETPOINT, clock[1])];
    var device := c.Enter();
    assert c.State() == Run(start, [Open]);
    device.SetSetpoint(DEMO_SETPOINT, clock[1]);
    RunSnoc(start, [Open], Write(DEMO_SETPOINT, clock[1]));
    assert [Open] + [Write(DEMO_SETPOINT, clock[1])] == prefix == prefix + DemoReads(clock, factors, noises, 0);
    hist := [];
    for k := 0 to DEMO_SAMPLES
      invariant c.isConnected && c.setpoint == DEMO_SETPOINT
      invariant |hist| == k && c.temperature == Before(hist, k)
      invariant k > 0 ==> c.time == clock[k + 1]
      invariant c.State() == Run(start, prefix + DemoReads(clock, factors, noises, k))
      invariant forall i | 0 <= i < k ::
        hist[i] == Approach(DEMO_SETPOINT, Before(hist, i), factors[i], noises[i])
    {
      var t := device.ReadTemperature(clock[k + 2], factors[k], noises[k]);
      RunSnoc(start, prefix + DemoReads(clock, factors, noises, k), Read(clock[k + 2], factors[k], noises[k]));
      assert prefix + DemoReads(clock, factors, noises, k + 1)
          == prefix + DemoReads(clock, factors, noises, k) + [Read(clock[k + 2], factors[k], noises[k])];
      ghost var before := hist;
      hist := hist + [t];
      assert forall i | 0 <= i <= k :: Before(hist, i) == Before(before, i);
    }
    device.Exit();
    RunSnoc(start, prefix + DemoReads(clock, factors, noises, DEMO_SAMPLES), Close);
    QuietDemoRises(hist, factors, noises);
  }

  /** The first `k` samples of the demonstration run as model calls. */
  function DemoReads(clock: seq<real>, factors: seq<real>, noises: seq<real>, k: nat): (cs: seq<Call>)
    requires k <= |factors| && k <= |noises| && k + 2 <= |clock|
    decreases k
  {
    if k == 0 then []
    else DemoReads(clock, factors, noises, k - 1) + [Read(clock[k + 1], factors[k - 1], noises[k - 1])]
  }

  /** Without noise and with decay factors in [0, 1], the samples of the
      demonstration run rise monotonically from the ambient temperature and
      stay at or below the setpoint. */
  lemma QuietDemoRises(hist: seq<real>, factors: seq<real>, noises: seq<real>)
    requires |hist| == |factors| == |noises| == DEMO_SAMPLES
    requires forall j | 0 <= j < |hist| ::
      hist[j] == Approach(DEMO_SETPOINT, Before(hist, j), factors[j], noises[j])
    ensures (forall i | 0 <= i < DEMO_SAMPLES :: noises[i] == 0.0 && 0.0 <= factors[i] <= 1.0) ==>
      AMBIENT <= hist[0] && (forall i | 0 < i < DEMO_SAMPLES :: hist[i - 1] <= hist[i]) &&
      hist[DEMO_SAMPLES - 1] <= DEMO_SETPOINT
  {
    if forall i | 0 <= i < DEMO_SAMPLES :: noises[i] == 0.0 && 0.0 <= factors[i] <= 1.0 {
      forall i | 0 <= i < DEMO_SAMPLES
        ensures Before(hist, i) <= hist[i] <= DEMO_SETPOINT
      {
        PrefixBelowSetpoint(hist, factors, noises, i);
      }
      assert Before(hist, 0) <= hist[0];
      assert forall i | 0 < i < DEMO_SAMPLES :: Before(hist, i) == hist[i - 1];
    }
  }

  /** The temperature the `i`-th sample of the demonstration run starts from. */
  function Before(hist: seq<real>, i: nat): (t: real)
    requires i <= |hist|
  {
    if i == 0 then AMBIENT else hist[i - 1]
  }

  /** Every noiseless sample of the demonstration run lies between the one
      before it and the setpoint. */
  lemma {:induction false} PrefixBelowSetpoint(hist: seq<real>, factors: seq<real>, noises: seq<real>, i: nat)
    requires |hist| == |factors| == |noises| && i < |hist|
    requires forall j | 0 <= j < |hist| :: noises[j] == 0.0 && 0.0 <= factors[j] <= 1.0
    requires forall j | 0 <= j < |hist| ::
      hist[j] == Approach(DEMO_SETPOINT, Before(hist, j), factors[j], noises[j])
    ensures Before(hist, i) <= hist[i] <= DEMO_SETPOINT
  {
    var prev := Before(hist, i);
    if i > 0 {
      PrefixBelowSetpoint(hist, factors, noises, i - 1);
    }
    assert prev <= DEMO_SETPOINT;
    assert hist[i] == Approach(DEMO_SETPOINT, prev, factors[i], 0.0);
    ApproachMonotone(DEMO_SETPOINT, prev, factors[i]);
  }
}
