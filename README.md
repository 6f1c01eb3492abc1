# Simulated cryostat controller — a Dafny model

This project models `Cryo`, the simulated temperature-controller device in
`GUI/cryo_sim.py`. A device has four fields:

- a setpoint;
- a current temperature;
- the clock reading of its last sample (`_time`);
- a connection flag.

Its public surface does four things:

- writes the setpoint, which takes effect only while connected;
- takes a noisy sample that moves the temperature exponentially towards the setpoint;
- opens and closes the connection;
- acts as a context manager that opens on entry and closes on exit.

The project has two modules:

- `CryoModel` (`cryo_model.dfy`) is the value-level model. It defines the device
  state `Device`, the calls `Call`, the effect of one call (`Step`), the effect of
  a call sequence (`Run`) and the sample update `Approach`. The lemmas about
  single samples and whole call sequences live here.
- `CryoSim` (`cryo_sim.dfy`) is the class `Cryo` with mutable fields. Each
  method states its new fields in terms of the old ones. It also states
  `State() == Step(old(State()), call)`. With `RunSnoc` (one more call is one
  more `Step`), a series of method calls on a `Cryo` ends in the `Run` of the
  corresponding calls, so the `CryoModel` lemmas apply to it.
  `SampleDemo` models the file's demonstration run, a `with` block that writes
  the setpoint 50 and takes 20 samples, and states this for that run.

Nondeterminism becomes parameters:

- Each clock reading (`time.time()`) is a `now` argument.
- The decay factor `exp(-elapsed / TIME_CONSTANT)` is an argument `f`.
- The Gaussian noise sample is an argument `noise`.
- The three-second handshake sleep is returned as the delay the call would wait
  (`CONNECT_LATENCY`, or 0 when already connected).

With those parameters, a sample sets the temperature to
`setpoint - (setpoint - temperature) * f + noise` over `real`.

A rejected setpoint write is not a no-op: `set_setpoint` still resets the
sample clock (`GUI/cryo_sim.py:17`). `SetSetpoint` ensures `time == now` in
both branches.

## Model

| member | source | states |
|---|---|---|
| `CryoSim.Cryo.constructor` | GUI/cryo_sim.py:8-12 | a new device has the given setpoint (25 by default), temperature 25, the creation clock reading, and is disconnected |
| `CryoSim.Cryo.SetSetpoint` | GUI/cryo_sim.py:14-17 | the setpoint becomes the value exactly when the device was connected, otherwise it is unchanged; the clock is reset to now in both cases; temperature and connection are untouched |
| `CryoSim.Cryo.ReadTemperature` | GUI/cryo_sim.py:19-26 | the clock becomes the read time; the temperature's distance to the setpoint is scaled by the decay factor, then the noise is added; the returned value is the new stored temperature; setpoint and connection are untouched |
| `CryoSim.Cryo.OpenConnection` | GUI/cryo_sim.py:28-33 | the device ends connected whatever its prior state; the handshake delay is taken only when it was disconnected; setpoint, temperature and clock are untouched |
| `CryoSim.Cryo.CloseConnection` | GUI/cryo_sim.py:35-38 | the device ends disconnected whatever its prior state; no other field changes |
| `CryoSim.Cryo.Enter` | GUI/cryo_sim.py:40-42 | entering opens the connection and yields the same object |
| `CryoSim.Cryo.Exit` | GUI/cryo_sim.py:44-45 | leaving closes the connection and changes nothing else |
| `CryoModel.OpenDelay` | GUI/cryo_sim.py:29-31 | the handshake delay is positive exactly when the device is disconnected, and is either zero or the fixed latency |
| `CryoModel.DistanceScales` | GUI/cryo_sim.py:25 | without noise, a sample multiplies the distance to the setpoint by the decay factor |
| `CryoModel.ApproachMonotone` | GUI/cryo_sim.py:25 | without noise and with a factor in [0, 1], a sample never moves away from the setpoint and never overshoots it |
| `CryoModel.ApproachEndpoints` | GUI/cryo_sim.py:25 | a factor of 1 (no elapsed time) keeps the temperature up to noise; a factor of 0 lands on the setpoint up to noise |
| `CryoModel.DecayComposes` | GUI/cryo_sim.py:22-25 | two noiseless samples with factors f1 and f2 equal one sample with factor f1*f2, so the trajectory does not depend on the polling cadence |
| `CryoModel.OpenIdempotent` | GUI/cryo_sim.py:28-33 | after any call sequence, opening twice equals opening once, the device is connected, and a second open waits no handshake |
| `CryoModel.CloseIdempotent` | GUI/cryo_sim.py:35-38 | after any call sequence, closing twice equals closing once and the device is disconnected |
| `CryoModel.WithBlockDisconnects` | GUI/cryo_sim.py:40-45 | the body of a with-block starts connected, and whatever the body does the device is disconnected after the block |
| `CryoModel.SetpointFrozenWhileDisconnected` | GUI/cryo_sim.py:14-17 | on a disconnected device, no sequence of calls without an open changes the setpoint or connects the device |
| `CryoModel.QuietRunClosedForm` | GUI/cryo_sim.py:19-26 | a run of noiseless samples keeps setpoint and connection and scales the distance to the setpoint by the product of the decay factors |
| `CryoModel.QuietRunApproaches` | GUI/cryo_sim.py:19-26 | noiseless sampling with factors in [0, 1] never moves the temperature away from the setpoint or past it |
| `CryoModel.QuietRunNeverArrives` | GUI/cryo_sim.py:25 | over exact reals, with positive decay factors a device off its setpoint never reaches it in finitely many noiseless samples |
| `CryoSim.SampleDemo` | GUI/cryo_sim.py:49-55 | after the demonstration's with-block the device is disconnected with setpoint 50 and its state is the `Run` of the calls made (open, write, 20 samples, close); each sample is the update of the previous temperature with that sample's factor and noise |
| `CryoSim.QuietDemoRises` | GUI/cryo_sim.py:49-55 | without noise and with factors in [0, 1], the demonstration's samples rise monotonically from 25 and stay at or below 50 |

## Left out

- `TIME_CONSTANT`, `np.exp` and the elapsed time `now - _time` (`GUI/cryo_sim.py:4`, `22`, `25`) are not modelled. The decay is floating-point transcendental arithmetic, so the caller supplies the factor `f` instead.
- `CryoSim.Cryo.ReadTemperature`: does not tie `f` to the elapsed time since the last sample. The caller is trusted to pass `exp(-(now - time) / 5)`. For the same reason the sample lemmas take their bounds on `f` as hypotheses. As a consequence the stored clock `time` is written but never read by the model. In the program, a setpoint write between two samples, even a rejected one, resets that clock, so the decay over the interval before the write is never applied (`GUI/cryo_sim.py:17`, `22`); the model does not express this.
- `NOISE_LEVEL` and `np.random.normal` (`GUI/cryo_sim.py:5`, `25`) are not modelled, because they are randomness. The noise sample is an argument.
- `time.time()` is clock I/O. Each reading is an argument.
- `time.sleep(3)` is not performed. `OpenConnection` returns the delay instead.
- `CryoSim.Cryo.Enter`: discards the handshake delay, just as `__enter__` returns only the object.
- The `print` messages on connect and disconnect are console output and are dropped.
- The demonstration's one-second sleeps between samples are timing only.
- The demonstration's matplotlib plot (`GUI/cryo_sim.py:57-59`) is plotting and is not modelled.
- `GUI/gui_solution.py` is left out as tkinter UI code with an unsynchronised polling thread. It drives a `Cyro` from a module `fake_cryo` that is not part of this model. Its `toggle_connection` and `set_setpoint` only dispatch to the device methods modelled here.
- `GUI/gui.py` is an empty UI skeleton with no logic.
- `Classes/example/convolve.py` is a sequence of numpy/scipy/matplotlib calls over floating-point arrays.
- `demo.py` is a filesystem walk that counts Markdown files.
- Python floats are modelled as exact `real` numbers. Rounding is not captured.
- `CryoModel.QuietRunNeverArrives`: holds over exact reals only. In doubles, `setpoint - (setpoint - temperature) * f` rounds to exactly `setpoint` once the remaining distance is below half an ulp of the setpoint (setpoint 50, temperature 25, one sample 200 s after the last gives f ≈ 4.2e-18 and the result 50.0), and `np.exp` underflows to 0.0 once the elapsed time exceeds about 3725 s.
