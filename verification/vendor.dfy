/**
 * Vendor driver results and the two `configure_sensor` overloads. The vendor
 * routines themselves are opaque: each call is recorded and its status is an
 * input. Status codes are abstract apart from the distinguished OK; the same
 * type serves the inertial chip and the magnetometer.
 */
module Vendor {

  datatype Status = Ok | Failed(code: int)

  /** Vendor routines the adapter can invoke. */
  datatype VendorCall =
    | Bmi270Init
    | SetIntPinConfig
    | MapDataInt
    | SetSensorConfig
    | SensorEnable
    | GetSensorData
    | Bmm150Init
    | Bmm150SetOpMode
    | Bmm150SetPresetMode
    | Bmm150SetSensorSettings
    | Bmm150ReadMagData

  datatype ChainResult = ChainResult(status: Status, attempted: nat)

  /**
   * Runs `steps` in order and stops after the first one that is not OK,
   * returning its status; OK only when every step returned OK.
   */
  function Chain(steps: seq<Status>): (r: ChainResult)
    ensures r.attempted <= |steps|
    ensures r.status == Ok <==> forall i :: 0 <= i < |steps| ==> steps[i] == Ok
    ensures r.status == Ok ==> r.attempted == |steps|
    ensures r.status != Ok ==>
              && 0 < r.attempted
              && steps[r.attempted - 1] == r.status
              && forall i :: 0 <= i < r.attempted - 1 ==> steps[i] == Ok
  {
    if steps == [] then ChainResult(Ok, 0)
    else if steps[0] != Ok then ChainResult(steps[0], 1)
    else
      var rest := Chain(steps[1..]);
      ChainResult(rest.status, rest.attempted + 1)
  }

  /** The results the four inertial configuration routines would return. */
  datatype ImuConfigResults = ImuConfigResults(pinConfig: Status, mapInt: Status, sensorConfig: Status, enable: Status)
  {
    function Steps(): seq<Status> { [pinConfig, mapInt, sensorConfig, enable] }
  }

  const ImuConfigCalls: seq<VendorCall> := [SetIntPinConfig, MapDataInt, SetSensorConfig, SensorEnable]

  /** The status a configuration routine returns and the vendor calls it issued. */
  datatype ConfigOutcome = ConfigOutcome(status: Status, calls: seq<VendorCall>)

  /**
   * `configure_sensor(bmi2_dev*)`: interrupt-pin setup, data-ready mapping,
   * sensor configuration and sensor enable, stopping at the first failure.
   */
  function ConfigureImu(results: ImuConfigResults): (r: ConfigOutcome)
    ensures 0 < |r.calls| <= |ImuConfigCalls| && r.calls == ImuConfigCalls[..|r.calls|]
    ensures r.status == Ok <==> results.Steps() == [Ok, Ok, Ok, Ok]
    ensures r.status == Ok ==> r.calls == ImuConfigCalls
    ensures r.status != Ok ==> r.status == results.Steps()[|r.calls| - 1]
    ensures forall i :: 0 <= i < |r.calls| - 1 ==> results.Steps()[i] == Ok
    ensures SensorEnable in r.calls <==> results.pinConfig == results.mapInt == results.sensorConfig == Ok
  {
    var steps := results.Steps();
    var c := Chain(steps);
    assert steps[0] == results.pinConfig && steps[1] == results.mapInt && steps[2] == results.sensorConfig;
    assert SensorEnable in ImuConfigCalls[..c.attempted] <==> c.attempted == 4 by {
      assert |steps| == 4;
      if c.attempted < 4 {
        assert forall j :: 0 <= j < c.attempted ==> ImuConfigCalls[j] != SensorEnable;
      } else {
        assert ImuConfigCalls[..c.attempted][3] == SensorEnable;
      }
    }
    ConfigOutcome(c.status, ImuConfigCalls[..c.attempted])
  }

  /**
   * `configure_sensor(bmm150_dev*)`: only the power-mode call is issued; the
   * preset-mode and data-ready-pin calls are commented out in the driver.
   */
  function ConfigureMag(opMode: Status): (r: ConfigOutcome)
    ensures r.status == opMode
    ensures r.calls == [Bmm150SetOpMode]
    ensures Bmm150SetPresetMode !in r.calls && Bmm150SetSensorSettings !in r.calls
  {
    ConfigOutcome(opMode, [Bmm150SetOpMode])
  }
}
