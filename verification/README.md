# BMI270/BMM150 sensor driver: a Dafny model

This project models the core of `BoschSensorClass` in `src/BMI270.cpp`. That class is the Arduino
adapter for a BMI270 inertial sensor (accelerometer and gyroscope) and a BMM150 magnetometer.
The model covers four parts:

- **Transport adapter** (`Transport`, over the mock bus in `Bus`). `bmi2_i2c_read` and
  `bmi2_i2c_write` are methods over a nullable `array<bv8>` and a scripted `MockWire`. The mock
  records every bus call in a trace. The status `endTransmission` reports and the bytes the
  device answers with are fixed when the mock is built. The `intf_ptr` device record is passed
  as the bus it holds and its device address.
- **Interrupt counter and callback** (`Sensor.BoschSensor`). `_interrupts` is raised by the
  interrupt handler and lowered by accelerometer and gyroscope reads. The user callback runs
  only once `begin` has completed. The `*Available` queries read the counter without changing it.
- **Start-up and fault policy** (`Vendor`, `Fault`, `Sensor`). Both `configure_sensor`
  overloads are modelled as chains over opaque vendor status results. `print_rslt` is a pure
  verdict: proceed, or halt with a message carrying the code. `begin` is a staged run that the
  first halting report ends. The LED panic loop is an absorbing `halted` flag.
- **Sample-rate queries** (`Rates`). The magnetometer data-rate lookup is modelled as a datatype
  of the eight named codes plus any other raw value. The inertial rate `(1 << odr) * 0.39` is
  kept as an exact integer in hundredths of a hertz.

Every call is one atomic step. Vendor routines are opaque: each call is recorded in
`vendorCalls`, and its status is an input (`VendorResults`, `ImuConfigResults`). Status codes
are abstract apart from the distinguished `Ok`. The same status type serves both chips, as
`print_rslt` does when it classifies magnetometer results with inertial codes.

## Model

| member | source | states |
|---|---|---|
| `Bus.Sends` | src/BMI270.cpp:266-269 | the payload loop puts exactly one byte event per payload byte on the bus, in buffer order |
| `Bus.DecodeWriteFrame` | src/BMI270.cpp:264-270 | from every framed write (begin, register, payload, end) the device recovers the same address, register and payload |
| `Bus.DecodeWriteIsFramed` | src/BMI270.cpp:264-270 | conversely, every bus trace the device accepts as a write has exactly that framing |
| `Bus.MockWire.BeginTransmission` | src/BMI270.cpp:240 | opening a transmission to an address adds exactly that begin event to the trace |
| `Bus.MockWire.Write` | src/BMI270.cpp:265-269 | each byte written inside a transmission adds exactly one byte event to the trace |
| `Bus.MockWire.EndTransmission` | src/BMI270.cpp:270 | ending a transmission adds an end event and reports the bus's scripted status, 0 being success |
| `Bus.MockWire.RequestFrom` | src/BMI270.cpp:243 | the bus delivers at most the requested count and may deliver fewer (a short read) |
| `Bus.MockWire.Read` | src/BMI270.cpp:247 | received bytes are taken in arrival order |
| `Transport.I2cRead` | src/BMI270.cpp:230-254 | returns 0 iff the buffer is non-null, 0 < len <= 32 and the end of the address phase succeeded; otherwise returns -1. A rejected call causes no bus traffic, and a failed address phase leaves the buffer untouched. On success the trace is begin, register, end, request(len). The first min(len, bytes the device sent) buffer bytes are the received bytes in order, the rest are unchanged, and a short read still returns 0 |
| `Transport.I2cWrite` | src/BMI270.cpp:256-275 | a null buffer, len 0 or len > 32 returns -1 with no bus traffic. Otherwise the trace grows by exactly begin(dev), register, `regData[0..len)` in order, end. It returns 0 iff the end status is 0 |
| `Transport.WriteReachesDevice` | src/BMI270.cpp:256-275 | a write through the adapter is decoded by the device as exactly its address, register and payload, whatever the end status |
| `Vendor.Chain` | src/BMI270.cpp:183-199 | runs steps in order and stops after the first non-OK one, returning its status. All earlier steps were OK. The result is OK iff every step returned OK, and then every step ran |
| `Vendor.ConfigureImu` | src/BMI270.cpp:157-200 | the calls issued are a non-empty prefix of (int-pin config, data-int map, sensor config, sensor enable), and every issued call before the last returned OK. The result is OK iff all four returned OK, and a failure returns the last issued call's status. Sensor enable runs iff the three before it succeeded |
| `Vendor.ConfigureMag` | src/BMI270.cpp:202-228 | returns the power-mode call's status, and the power-mode call is the only call issued. The preset-mode and data-ready-pin calls are never issued |
| `Fault.Report` | src/BMI270.cpp:302-451 | halts iff a debug stream is attached and the status is a failure, and the halting message carries that status's code. An OK status, or any status without a stream, proceeds |
| `Fault.Boot` | src/BMI270.cpp:55-67 | a staged run logs at most one line, and it halted iff it logged one |
| `Fault.BootWithoutSinkRunsAll` | src/BMI270.cpp:304-306 | without a debug stream every stage runs whatever it returns, nothing is logged, and there is no halt |
| `Fault.BootAllOkRunsAll` | src/BMI270.cpp:309 | when every stage returns OK, all run and nothing is logged, with or without a stream |
| `Fault.BootHaltsAtFirstFailure` | src/BMI270.cpp:310-313 | with a stream, the first failing stage k halts the run. Exactly the calls of stages 0..k were issued, and the one logged line carries stage k's code |
| `Fault.BootHaltsIffSomeFailure` | src/BMI270.cpp:55-66 | with a stream, the run halts iff some stage fails |
| `Rates.MagRateHz` | src/BMI270.cpp:133-155 | the eight named codes map to non-zero rates in {2,6,8,10,15,20,25,30}, and every other code maps to 0 |
| `Rates.MagRateForHz` | src/BMI270.cpp:136-154 | inverse lookup: any code it yields is a named one |
| `Rates.MagRateRoundTrip` | src/BMI270.cpp:136-154 | each named code is recovered from its rate (the table is injective) |
| `Rates.MagRateForHzSound` | src/BMI270.cpp:136-154 | every rate the inverse accepts is the rate of the code it yields |
| `Rates.ImuRateCentiHz` | src/BMI270.cpp:88-93 | the inertial rate is a positive multiple of 0.39 Hz, at least 0.39 Hz |
| `Rates.ImuRateDoubles` | src/BMI270.cpp:92 | raising the rate code by one doubles the rate |
| `Rates.ImuRateIncreasing` | src/BMI270.cpp:117 | the rate strictly increases with the code |
| `Rates.ImuRateOfCode8` | src/BMI270.cpp:92 | code 8 reads back as 99.84 Hz |
| `Sensor.CounterIsEdgesMinusReads` | src/BMI270.cpp:77 | after N handled edges and M accelerometer/gyroscope reads, in any order, the counter has moved by exactly N − M. Magnetometer reads do not count, and nothing clamps the counter at zero |
| `Sensor.BeginStages` | src/BMI270.cpp:55-65 | `begin` has exactly four reported steps |
| `Sensor.BeginStagesInOrder` | src/BMI270.cpp:55-65 | those steps are, in order: inertial init, inertial configuration (its issued calls and status), magnetometer init, and magnetometer configuration (the power-mode call alone). Each carries the status its routine returned |
| `Sensor.BeginWithoutDebugRunsEveryStep` | src/BMI270.cpp:55-67 | without a debug stream `begin` never halts. It issues the inertial init, the configuration calls, the magnetometer init and the power-mode call, logs nothing, and ends initialized |
| `Sensor.BeginWithDebugHaltsIffSomeStepFails` | src/BMI270.cpp:55-65 | with a stream `begin` halts iff one of its vendor steps fails: the two inits, the four inertial configuration calls, or the power-mode call |
| `Sensor.BeginStopsAtFailedImuInit` | src/BMI270.cpp:55-56 | with a stream, a failed inertial init stops `begin` at once. Only that init was called, and the single message carries its code |
| `Sensor.BoschSensor.constructor` | src/BMI270.cpp:12-15 | the object starts with a zero counter, no callback, no stream, not initialized, not halted and no calls |
| `Sensor.BoschSensor.Debug` | src/BMI270.cpp:17-20 | attaching a stream sets the debug flag and nothing else |
| `Sensor.BoschSensor.OnInterrupt` | src/BMI270.cpp:22-27 | registering a callback sets the callback flag and nothing else |
| `Sensor.BoschSensor.InterruptHandler` | src/BMI270.cpp:282-288 | the counter rises by exactly 1. The callback runs iff the object is initialized and a callback is registered, so no callback runs before `begin` completes (`Valid`) |
| `Sensor.BoschSensor.ReadAcceleration` | src/BMI270.cpp:71-78 | one sensor-data fetch, and the counter falls by exactly 1 |
| `Sensor.BoschSensor.ReadGyroscope` | src/BMI270.cpp:96-103 | one sensor-data fetch, and the counter falls by exactly 1 |
| `Sensor.BoschSensor.ReadMagneticField` | src/BMI270.cpp:121-127 | one magnetometer fetch, and the counter is unchanged |
| `Sensor.BoschSensor.AccelerationAvailable` | src/BMI270.cpp:80-86 | reports the counter when a callback is registered and exactly 1 otherwise. Changes nothing |
| `Sensor.BoschSensor.GyroscopeAvailable` | src/BMI270.cpp:105-111 | reports the counter when a callback is registered and exactly 1 otherwise. Changes nothing |
| `Sensor.BoschSensor.MagneticFieldAvailable` | src/BMI270.cpp:129-131 | always reports 1 |
| `Sensor.BoschSensor.PrintResult` | src/BMI270.cpp:302-451 | enters the panic state exactly when `Report` says halt, and logs that verdict's message. Otherwise nothing changes |
| `Sensor.BoschSensor.Begin` | src/BMI270.cpp:29-68 | starts the bus and sets the inertial transfer cap to 30. The calls issued, lines logged and halt state equal the staged run of its four steps. The object becomes initialized iff that run did not halt. The counter, callback and stream are unchanged |
| `Sensor.BoschSensor.RunStages` | src/BMI270.cpp:55-67 | the four reported steps leave calls, log and halt state equal to the staged run, and `_initialized` is set iff none halted |
| `Sensor.BoschSensor.RunStage` | src/BMI270.cpp:55-56 | one step then its report: on a halt the state is the whole run; otherwise the run of the remaining steps completes it |
| `Sensor.BoschSensor.Run` | src/BMI270.cpp:282-288 | any schedule of handled edges and reads leaves the counter at its step-by-step value and issues the reads' fetches in order. Callbacks run once per edge iff initialized with a callback, and `Valid` is kept |

## Left out

- The RTOS plumbing is left out: the static `InterruptIn`, `EventQueue` and `Thread`, `event_t.start`, `irq.rise` and `yield()`. Each handler call is one atomic step, so the race on `_interrupts` between the event thread and the reader is not captured. Registering a callback twice is not captured either.
- Vendor driver routines (`bmi270_init`, `bmm150_init`, `bmi2_set_*`, `bmi2_map_data_int`, `bmi2_sensor_enable`, `bmm150_set_op_mode`, the data and settings fetches) have no bodies here. They are recorded as calls, and their status results are inputs.
- Floating point is left out: the axis values copied out by the three reads are not modelled. The inertial sample rate is kept in exact hundredths of a hertz, while the source multiplies by the double nearest 0.39.
- The sample-rate queries' read-back of the live configuration (`bmi2_get_sensor_config`, `bmm150_get_sensor_settings`) is replaced by the code passed as a parameter.
- `panic_led_trap` is only the absorbing `halted` flag. Its LED loop toggles every 100 ms, a 200 ms period; neither is modelled. Once halted, no main-thread method is called again, while the interrupt handler still may run.
- `bmi2_delay_us` and the bus library's own `begin` are hardware wrappers: only a `busStarted` flag remains.
- The 30+ message texts of `print_rslt` are left out: a message carries only the status code.
- Numeric values of `BMI2_*` and `BMM150_*` constants (addresses, status codes, rate codes) live in headers that are not part of this model. Apart from the transfer cap of 30, the device records' fields are not modelled: chip id, address, callbacks, interface kind and config-file pointer.
- `begin`, `readAcceleration`, `readGyroscope` and `readMagneticField` are declared to return `int` but return nothing. That is undefined behaviour in C++, so they are modelled as returning nothing.
- The `TwoWire&` held by the class object is not a field of `BoschSensor`: the transport methods take the bus directly.
- The mock bus holds no registers, so a "write then read back" round trip through a register device is not modelled. Instead, the device-side decode of every framed write is proved.
- `Transport.I2cRead`: it assumes the bus never reports more bytes than requested. The mock's `RequestFrom` guarantees this, as the bus library does.
- `Sensor.BoschSensor.InterruptHandler`: the user callback is only counted, as a run of opaque code that cannot touch the object. The exact +1 on the counter therefore does not cover a callback that itself calls `readAcceleration` or `readGyroscope`, which would make the handler's net effect 0 or less.
- `Sensor.BoschSensor.OnInterrupt`: registering always sets the callback flag. An empty `mbed::Callback`, for which `if (_cb)` is false, is not modelled.
- `Sensor.CounterIsEdgesMinusReads`: the counter is an unbounded integer. Overflow of the fixed-width C++ field (declared in a header that is not part of this model) is not modelled.
