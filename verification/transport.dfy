/**
 * The register read/write callbacks the vendor drivers use to reach the
 * sensor over I2C (`bmi2_i2c_read`, `bmi2_i2c_write`). The `intf_ptr`
 * device record is passed as the bus it names and the device address it holds.
 */
module Transport {
  import opened Wrappers
  import opened Bus

  /** Largest transfer the adapter accepts: the size of the bus library's buffer. */
  const MaxTransfer: nat := 32

  /** The single failure code both callbacks return. */
  const InterfaceError: int := -1

  /** The argument check both callbacks start with: a buffer, and 0 < len <= 32. */
  predicate Accepts(hasBuffer: bool, len: nat)
  {
    hasBuffer && 0 < len <= MaxTransfer
  }

  /**
   * Reads `len` bytes of register `regAddr` into `regData`. The address phase is
   * framed on its own; after a clean end the bytes the device returned are copied
   * in bus order, and a short read still reports success.
   */
  method I2cRead(regAddr: bv8, regData: array?<bv8>, len: nat, wire: MockWire, devAddr: bv8)
    returns (rslt: int)
    requires regData != null && Accepts(true, len) ==> len <= regData.Length
    modifies wire`trace, wire`rx, regData
    ensures rslt == 0 <==> Accepts(regData != null, len) && wire.endStatus == 0
    ensures rslt != 0 ==> rslt == InterfaceError
    ensures !Accepts(regData != null, len) ==> wire.trace == old(wire.trace) && wire.rx == old(wire.rx)
    ensures Accepts(regData != null, len) && wire.endStatus != 0 ==>
              wire.trace == old(wire.trace) + AddressFrame(devAddr, regAddr) && wire.rx == old(wire.rx)
    ensures regData != null && rslt != 0 ==> regData[..] == old(regData[..])
    ensures regData != null && rslt == 0 ==>
              var n := Min(len, |wire.reply|);
              && wire.trace == old(wire.trace) + AddressFrame(devAddr, regAddr) + [Request(devAddr, len)]
              && regData[..n] == wire.reply[..n]
              && regData[n..] == old(regData[n..])
              && wire.rx == []
  {
    if regData == null || len == 0 || len > MaxTransfer {
      return InterfaceError;
    }
    wire.BeginTransmission(devAddr);
    wire.Write(regAddr);
    var status := wire.EndTransmission();
    if status == 0 {
      var received := wire.RequestFrom(devAddr, len);
      var i: nat := 0;
      while i < received
        invariant i <= received == Min(len, |wire.reply|)
        invariant wire.rx == wire.reply[i..received]
        invariant regData[..i] == wire.reply[..i]
        invariant regData[i..] == old(regData[i..])
        invariant wire.trace == old(wire.trace) + AddressFrame(devAddr, regAddr) + [Request(devAddr, len)]
      {
        var b := wire.Read();
        regData[i] := b;
        i := i + 1;
      }
    } else {
      return InterfaceError;
    }
    return 0;
  }

  /**
   * Writes `regData[..len]` to register `regAddr` as one framed transmission and
   * reports success exactly when the end of the transmission does.
   */
  method I2cWrite(regAddr: bv8, regData: array?<bv8>, len: nat, wire: MockWire, devAddr: bv8)
    returns (rslt: int)
    requires regData != null && Accepts(true, len) ==> len <= regData.Length
    modifies wire`trace
    ensures rslt == 0 <==> Accepts(regData != null, len) && wire.endStatus == 0
    ensures rslt != 0 ==> rslt == InterfaceError
    ensures !Accepts(regData != null, len) ==> wire.trace == old(wire.trace)
    ensures regData != null && Accepts(true, len) ==>
              wire.trace == old(wire.trace) + WriteFrame(devAddr, regAddr, regData[..len])
  {
    if regData == null || len == 0 || len > MaxTransfer {
      return InterfaceError;
    }
    wire.BeginTransmission(devAddr);
    wire.Write(regAddr);
    var i: nat := 0;
    while i < len
      invariant i <= len
      invariant wire.trace == old(wire.trace) + [Begin(devAddr), Send(regAddr)] + Sends(regData[..i])
    {
      wire.Write(regData[i]);
      assert regData[..i + 1] == regData[..i] + [regData[i]];
      i := i + 1;
    }
    var status := wire.EndTransmission();
    if status != 0 {
      return InterfaceError;
    }
    return 0;
  }

  /**
   * A register written through the adapter reaches the device intact: the
   * device decodes the traffic as exactly that address, register and payload.
   */
  method WriteReachesDevice(regAddr: bv8, regData: array<bv8>, len: nat, wire: MockWire, devAddr: bv8)
    returns (rslt: int, received: Option<WriteTransaction>)
    requires 0 < len <= MaxTransfer && len <= regData.Length
    modifies wire`trace
    ensures rslt == 0 <==> wire.endStatus == 0
    ensures received == Some(WriteTransaction(devAddr, regAddr, regData[..len]))
  {
    var before := |wire.trace|;
    rslt := I2cWrite(regAddr, regData, len, wire, devAddr);
    var traffic := wire.trace[before..];
    assert traffic == WriteFrame(devAddr, regAddr, regData[..len]);
    DecodeWriteFrame(devAddr, regAddr, regData[..len]);
    received := DecodeWrite(traffic);
  }
}
