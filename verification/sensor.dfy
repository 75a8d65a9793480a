/**
 * The `BoschSensorClass` object: the interrupt counter shared by the event
 * thread and the reader, the user callback, the debug stream, and `begin`.
 * Each call is one atomic step; the event thread and the queue that deliver
 * interrupts are not modelled.
 */
module Sensor {
  import opened Vendor
  import opened Fault

  /** One step of a run: an interrupt edge handled, or one of the three sample reads. */
  datatype Event = Edge | AccelRead | GyroRead | MagRead

  /** Number of interrupt edges in `events`. */
  function Edges(events: seq<Event>): nat
  {
    if events == [] then 0 else (if events[0] == Edge then 1 else 0) + Edges(events[1..])
  }

  /** Number of accelerometer and gyroscope reads in `events`: the reads that consume a sample. */
  function Consumed(events: seq<Event>): nat
  {
    if events == [] then 0
    else (if events[0] == AccelRead || events[0] == GyroRead then 1 else 0) + Consumed(events[1..])
  }

  /** The counter after `events`, applying each step's effect in turn. */
  function CounterAfter(start: int, events: seq<Event>): int
  {
    if events == [] then start
    else
      var before := CounterAfter(start, events[..|events| - 1]);
      match events[|events| - 1]
      case Edge => before + 1
      case AccelRead => before - 1
      case GyroRead => before - 1
      case MagRead => before
  }

  /** The vendor fetches the reads in `events` issue, in order. */
  function FetchCalls(events: seq<Event>): seq<VendorCall>
  {
    if events == [] then []
    else
      var before := FetchCalls(events[..|events| - 1]);
      match events[|events| - 1]
      case Edge => before
      case AccelRead => before + [GetSensorData]
      case GyroRead => before + [GetSensorData]
      case MagRead => before + [Bmm150ReadMagData]
  }

  lemma {:induction false} CountsOfAppend(a: seq<Event>, b: seq<Event>)
    ensures Edges(a + b) == Edges(a) + Edges(b)
    ensures Consumed(a + b) == Consumed(a) + Consumed(b)
  {
    if a == [] {
      assert a + b == b;
    } else {
      CountsOfAppend(a[1..], b);
      assert (a + b)[1..] == a[1..] + b;
    }
  }

  /**
   * After N edges and M accelerometer/gyroscope reads, in any order, the
   * counter has moved by exactly N - M; nothing clamps it at zero.
   */
  lemma {:induction false} CounterIsEdgesMinusReads(start: int, events: seq<Event>)
    ensures CounterAfter(start, events) == start + Edges(events) - Consumed(events)
  {
    if events != [] {
      var n := |events| - 1;
      CounterIsEdgesMinusReads(start, events[..n]);
      CountsOfAppend(events[..n], [events[n]]);
      assert events[..n] + [events[n]] == events;
    }
  }

  /** The first vendor steps `begin` runs, with the results they return. */
  datatype VendorResults = VendorResults(
    imuInit: Status,
    imuConfig: ImuConfigResults,
    magInit: Status,
    magOpMode: Status)

  /** The four steps of `begin`, each followed by `print_rslt`. */
  function BeginStages(v: VendorResults): (stages: seq<Stage>)
    ensures |stages| == 4
  {
    var imu := ConfigureImu(v.imuConfig);
    var mag := ConfigureMag(v.magOpMode);
    [Stage([Bmi270Init], v.imuInit), Stage(imu.calls, imu.status),
     Stage([Bmm150Init], v.magInit), Stage(mag.calls, mag.status)]
  }

  /**
   * The steps of `begin` in order: inertial init, inertial configuration,
   * magnetometer init, magnetometer configuration (the power-mode call alone),
   * each reported with the status its routine returned.
   */
  lemma BeginStagesInOrder(v: VendorResults)
    ensures var stages := BeginStages(v);
            && stages[0] == Stage([Bmi270Init], v.imuInit)
            && stages[1] == Stage(ConfigureImu(v.imuConfig).calls, ConfigureImu(v.imuConfig).status)
            && stages[2] == Stage([Bmm150Init], v.magInit)
            && stages[3] == Stage([Bmm150SetOpMode], v.magOpMode)
  {
  }

  /** The calls `begin` issues when every step runs to completion. */
  function FullBeginCalls(v: VendorResults): seq<VendorCall>
  {
    [Bmi270Init] + ConfigureImu(v.imuConfig).calls + [Bmm150Init, Bmm150SetOpMode]
  }

  /**
   * Without a debug stream `begin` never halts: all four steps are attempted
   * whatever they return, nothing is logged, and the object ends initialized.
   */
  lemma BeginWithoutDebugRunsEveryStep(v: VendorResults)
    ensures Boot(false, BeginStages(v)) == BootTrace(FullBeginCalls(v), [], false)
  {
    var stages := BeginStages(v);
    BootWithoutSinkRunsAll(stages);
    assert AllCalls(stages[3..]) == stages[3].calls + AllCalls([]) by { assert stages[3..][1..] == []; }
    assert AllCalls(stages[2..]) == stages[2].calls + AllCalls(stages[3..]) by { assert stages[2..][1..] == stages[3..]; }
    assert AllCalls(stages[1..]) == stages[1].calls + AllCalls(stages[2..]) by { assert stages[1..][1..] == stages[2..]; }
  }

  /**
   * With a debug stream `begin` halts exactly when some vendor step fails:
   * one of the two inits, one of the four inertial configuration calls, or the
   * magnetometer power-mode call.
   */
  lemma BeginWithDebugHaltsIffSomeStepFails(v: VendorResults)
    ensures Boot(true, BeginStages(v)).halted
            <==> !(v.imuInit == Ok && v.imuConfig.Steps() == [Ok, Ok, Ok, Ok] && v.magInit == Ok && v.magOpMode == Ok)
  {
    var stages := BeginStages(v);
    BootHaltsIffSomeFailure(stages);
    assert stages[0].status == v.imuInit && stages[2].status == v.magInit && stages[3].status == v.magOpMode;
  }

  /**
   * With a debug stream, a failing inertial init stops `begin` at once: only
   * that init was called and the one logged line carries its code.
   */
  lemma BeginStopsAtFailedImuInit(v: VendorResults)
    requires v.imuInit.Failed?
    ensures Boot(true, BeginStages(v)) == BootTrace([Bmi270Init], [ErrorReport(v.imuInit.code)], true)
  {
    BootStops(true, BeginStages(v));
  }

  class BoschSensor {
    /** `_interrupts`: edges handled minus samples consumed. */
    var interrupts: int
    /** A user callback has been registered with `onInterrupt`. */
    var hasCallback: bool
    /** `_initialized`: `begin` ran to its end. */
    var initialized: bool
    /** A debug stream has been attached with `debug`. */
    var debugAttached: bool
    /** The LED panic loop has been entered; the main thread never leaves it. */
    var halted: bool
    /** How many times the user callback has run. */
    var callbackRuns: nat
    /** Vendor routines invoked so far, oldest first. */
    var vendorCalls: seq<VendorCall>
    /** Lines written to the debug stream. */
    var debugLog: seq<Message>
    /** The bus has been started. */
    var busStarted: bool
    /** Transfer length cap handed to the inertial driver (0 until `begin`). */
    var imuReadWriteLen: nat

    /** No user callback runs before `begin` has completed. */
    ghost predicate Valid()
      reads this
    {
      !initialized ==> callbackRuns == 0
    }

    /** The driver object lives in static storage, so every field starts zeroed. */
    constructor ()
      ensures Valid()
      ensures interrupts == 0 && !hasCallback && !initialized && !debugAttached && !halted
      ensures callbackRuns == 0 && vendorCalls == [] && debugLog == []
      ensures !busStarted && imuReadWriteLen == 0
    {
      interrupts := 0;
      hasCallback := false;
      initialized := false;
      debugAttached := false;
      halted := false;
      callbackRuns := 0;
      vendorCalls := [];
      debugLog := [];
      busStarted := false;
      imuReadWriteLen := 0;
    }

    /** `debug`: attach the stream faults are reported to. */
    method Debug()
      requires Valid() && !halted
      modifies this`debugAttached
      ensures Valid()
      ensures debugAttached
    {
      debugAttached := true;
    }

    /** `onInterrupt`: register the user callback. */
    method OnInterrupt()
      requires Valid() && !halted
      modifies this`hasCallback
      ensures Valid()
      ensures hasCallback
    {
      hasCallback := true;
    }

    /**
     * `interrupt_handler`, run on the event thread (so also while the main thread
     * is halted): count the edge, then run the callback only once initialized.
     */
    method InterruptHandler()
      requires Valid()
      modifies this`interrupts, this`callbackRuns
      ensures Valid()
      ensures interrupts == old(interrupts) + 1
      ensures callbackRuns == old(callbackRuns) + (if initialized && hasCallback then 1 else 0)
    {
      interrupts := interrupts + 1;
      if initialized && hasCallback {
        callbackRuns := callbackRuns + 1;
      }
    }

    /** `readAcceleration`: fetch a sample and retire one counted interrupt. */
    method ReadAcceleration()
      requires Valid() && !halted
      modifies this`interrupts, this`vendorCalls
      ensures Valid()
      ensures interrupts == old(interrupts) - 1
      ensures vendorCalls == old(vendorCalls) + [GetSensorData]
    {
      vendorCalls := vendorCalls + [GetSensorData];
      interrupts := interrupts - 1;
    }

    /** `readGyroscope`: fetch a sample and retire one counted interrupt. */
    method ReadGyroscope()
      requires Valid() && !halted
      modifies this`interrupts, this`vendorCalls
      ensures Valid()
      ensures interrupts == old(interrupts) - 1
      ensures vendorCalls == old(vendorCalls) + [GetSensorData]
    {
      vendorCalls := vendorCalls + [GetSensorData];
      interrupts := interrupts - 1;
    }

    /** `readMagneticField`: fetch a magnetometer sample; the counter is left alone. */
    method ReadMagneticField()
      requires Valid() && !halted
      modifies this`vendorCalls
      ensures Valid()
      ensures interrupts == old(interrupts)
      ensures vendorCalls == old(vendorCalls) + [Bmm150ReadMagData]
    {
      vendorCalls := vendorCalls + [Bmm150ReadMagData];
    }

    /** `accelerationAvailable`: the counter when a callback is registered, otherwise always 1. */
    method AccelerationAvailable() returns (n: int)
      requires !halted
      ensures hasCallback ==> n == interrupts
      ensures !hasCallback ==> n == 1
    {
      if hasCallback {
        return interrupts;
      }
      return 1;
    }

    /** `gyroscopeAvailable`: the counter when a callback is registered, otherwise always 1. */
    method GyroscopeAvailable() returns (n: int)
      requires !halted
      ensures hasCallback ==> n == interrupts
      ensures !hasCallback ==> n == 1
    {
      if hasCallback {
        return interrupts;
      }
      return 1;
    }

    /** `magneticFieldAvailable`: the magnetometer is polled, so a sample is always reported. */
    method MagneticFieldAvailable() returns (n: int)
      requires !halted
      ensures n == 1
    {
      return 1;
    }

    /** `print_rslt`: report a status, entering the panic loop when the verdict is to halt. */
    method PrintResult(rslt: Status)
      requires Valid() && !halted
      modifies this`halted, this`debugLog
      ensures Valid()
      ensures halted == Report(debugAttached, rslt).Halt?
      ensures debugLog == old(debugLog) + (if halted then [Report(debugAttached, rslt).line] else [])
    {
      match Report(debugAttached, rslt)
      case Proceed =>
      case Halt(line) =>
        debugLog := debugLog + [line];
        halted := true;
    }

    /**
     * `begin`: start the bus, fill in the device records, then run the four
     * vendor steps, each checked by `print_rslt`; the object is initialized
     * only if no report halted.
     */
    method Begin(v: VendorResults)
      requires Valid() && !halted
      modifies this`busStarted, this`imuReadWriteLen, this`vendorCalls, this`halted, this`debugLog, this`initialized
      ensures Valid()
      ensures busStarted && imuReadWriteLen == 30
      ensures var t := Boot(debugAttached, BeginStages(v));
              && vendorCalls == old(vendorCalls) + t.calls
              && debugLog == old(debugLog) + t.log
              && halted == t.halted
              && initialized == (old(initialized) || !t.halted)
      ensures interrupts == old(interrupts) && callbackRuns == old(callbackRuns)
      ensures hasCallback == old(hasCallback) && debugAttached == old(debugAttached)
    {
      busStarted := true;
      imuReadWriteLen := 30;
      RunStages(BeginStages(v));
    }

    /** The four reported steps of `begin`, then `_initialized` if none halted. */
    method RunStages(stages: seq<Stage>)
      requires Valid() && |stages| == 4 && !halted
      modifies this`vendorCalls, this`halted, this`debugLog, this`initialized
      ensures Valid()
      ensures var t := Boot(debugAttached, stages);
              && vendorCalls == old(vendorCalls) + t.calls
              && debugLog == old(debugLog) + t.log
              && halted == t.halted
              && initialized == (old(initialized) || !t.halted)
    {
      ghost var t := Boot(debugAttached, stages);
      ghost var calls0, log0 := vendorCalls, debugLog;
      assert stages[0..] == stages;
      RunStage(stages, 0, t, calls0, log0);
      if halted { return; }
      RunStage(stages, 1, t, calls0, log0);
      if halted { return; }
      RunStage(stages, 2, t, calls0, log0);
      if halted { return; }
      RunStage(stages, 3, t, calls0, log0);
      if halted { return; }
      assert stages[4..] == [];
      initialized := true;
    }

    /**
     * Whether the calls issued and lines logged so far, followed by the run of
     * `stages[k..]`, make up the whole run `t` started from `calls0` and `log0`.
     */
    ghost predicate PartWay(stages: seq<Stage>, k: nat, t: BootTrace, calls0: seq<VendorCall>, log0: seq<Message>)
      reads this
      requires k <= |stages|
    {
      var rest := Boot(debugAttached, stages[k..]);
      && vendorCalls + rest.calls == calls0 + t.calls
      && debugLog + rest.log == log0 + t.log
      && rest.halted == t.halted
    }

    /** One step of `begin`: issue the stage's vendor calls, then `print_rslt` its status. */
    method RunStage(stages: seq<Stage>, k: nat, ghost t: BootTrace, ghost calls0: seq<VendorCall>, ghost log0: seq<Message>)
      requires Valid() && k < |stages| && !halted
      requires PartWay(stages, k, t, calls0, log0)
      modifies this`vendorCalls, this`halted, this`debugLog
      ensures Valid()
      ensures halted ==> vendorCalls == calls0 + t.calls && debugLog == log0 + t.log && t.halted
      ensures !halted ==> PartWay(stages, k + 1, t, calls0, log0)
    {
      var stage := stages[k];
      assert stages[k..][0] == stage && stages[k..][1..] == stages[k + 1..];
      vendorCalls := vendorCalls + stage.calls;
      PrintResult(stage.status);
      if halted {
        BootStops(debugAttached, stages[k..]);
      } else {
        BootProceeds(debugAttached, stages[k..]);
      }
    }

    /** Runs a sequence of handled edges and reads, one atomic step at a time. */
    method Run(events: seq<Event>)
      requires Valid() && !halted
      modifies this`interrupts, this`callbackRuns, this`vendorCalls
      ensures Valid()
      ensures interrupts == CounterAfter(old(interrupts), events)
      ensures callbackRuns == old(callbackRuns) + (if initialized && hasCallback then Edges(events) else 0)
      ensures vendorCalls == old(vendorCalls) + FetchCalls(events)
    {
      var i := 0;
      while i < |events|
        invariant i <= |events|
        invariant Valid()
        invariant interrupts == CounterAfter(old(interrupts), events[..i])
        invariant callbackRuns == old(callbackRuns) + (if initialized && hasCallback then Edges(events[..i]) else 0)
        invariant vendorCalls == old(vendorCalls) + FetchCalls(events[..i])
      {
        assert events[..i + 1][..i] == events[..i];
        CountsOfAppend(events[..i], [events[i]]);
        assert events[..i] + [events[i]] == events[..i + 1];
        match events[i] {
          case Edge => InterruptHandler();
          case AccelRead => ReadAcceleration();
          case GyroRead => ReadGyroscope();
          case MagRead => ReadMagneticField();
        }
        i := i + 1;
      }
      assert events[..i] == events;
    }
  }
}
