/**
 * A scripted stand-in for the Arduino `TwoWire` object that the transport
 * adapter drives. Every call that reaches the bus is recorded as an event in
 * `trace`; the status `endTransmission` reports and the bytes the addressed
 * device answers with are fixed when the mock is built.
 */
module Bus {
  import opened Wrappers

  /** One call on the bus, in the order the adapter issues them. */
  datatype BusEvent =
    | Begin(addr: bv8)                  // beginTransmission(addr)
    | Send(b: bv8)                      // write(b) inside a transmission
    | End                               // endTransmission()
    | Request(addr: bv8, quantity: nat) // requestFrom(addr, quantity)

  function Min(a: nat, b: nat): nat { if a <= b then a else b }

  /** The events produced by writing `bytes` one after another. */
  function Sends(bytes: seq<bv8>): (r: seq<BusEvent>)
    ensures |r| == |bytes|
    ensures forall i :: 0 <= i < |bytes| ==> r[i] == Send(bytes[i])
  {
    if bytes == [] then [] else Sends(bytes[..|bytes| - 1]) + [Send(bytes[|bytes| - 1])]
  }

  /** A framed register write: begin, register address, payload, end. */
  function WriteFrame(dev: bv8, reg: bv8, payload: seq<bv8>): seq<BusEvent>
  {
    [Begin(dev), Send(reg)] + Sends(payload) + [End]
  }

  /** The address phase that precedes a register read. */
  function AddressFrame(dev: bv8, reg: bv8): seq<BusEvent>
  {
    [Begin(dev), Send(reg), End]
  }

  /** What the device on the other end of the bus makes of one write. */
  datatype WriteTransaction = WriteTransaction(dev: bv8, reg: bv8, payload: seq<bv8>)

  /** The data bytes of a run of `Send` events, or None if another event is in it. */
  function SentBytes(events: seq<BusEvent>): (r: Option<seq<bv8>>)
    ensures r.Some? ==> |r.value| == |events|
  {
    if events == [] then Some([])
    else
      match (SentBytes(events[..|events| - 1]), events[|events| - 1])
      case (Some(prefix), Send(b)) => Some(prefix + [b])
      case _ => None
  }

  /** Decodes a framed write as the receiving device sees it. */
  function DecodeWrite(events: seq<BusEvent>): Option<WriteTransaction>
  {
    if |events| < 3 || !events[0].Begin? || !events[1].Send? || events[|events| - 1] != End then None
    else
      match SentBytes(events[2..|events| - 1])
      case None => None
      case Some(payload) => Some(WriteTransaction(events[0].addr, events[1].b, payload))
  }

  lemma {:induction false} SentBytesOfSends(bytes: seq<bv8>)
    ensures SentBytes(Sends(bytes)) == Some(bytes)
  {
    if bytes != [] {
      var n := |bytes| - 1;
      SentBytesOfSends(bytes[..n]);
      assert Sends(bytes)[..n] == Sends(bytes[..n]);
      assert bytes[..n] + [bytes[n]] == bytes;
    }
  }

  lemma {:induction false} SendsOfSentBytes(events: seq<BusEvent>)
    requires SentBytes(events).Some?
    ensures Sends(SentBytes(events).value) == events
  {
    if events != [] {
      var n := |events| - 1;
      SendsOfSentBytes(events[..n]);
      var bytes := SentBytes(events).value;
      assert bytes[..n] == SentBytes(events[..n]).value;
      assert events[..n] + [events[n]] == events;
    }
  }

  /** The device recovers address, register and payload from every framed write. */
  lemma DecodeWriteFrame(dev: bv8, reg: bv8, payload: seq<bv8>)
    ensures DecodeWrite(WriteFrame(dev, reg, payload)) == Some(WriteTransaction(dev, reg, payload))
  {
    var f := WriteFrame(dev, reg, payload);
    assert f[2..|f| - 1] == Sends(payload);
    SentBytesOfSends(payload);
  }

  /** Conversely, every event sequence the device accepts as a write is a framed write. */
  lemma DecodeWriteIsFramed(events: seq<BusEvent>)
    requires DecodeWrite(events).Some?
    ensures var t := DecodeWrite(events).value; events == WriteFrame(t.dev, t.reg, t.payload)
  {
    var n := |events|;
    var middle := events[2..n - 1];
    var t := DecodeWrite(events).value;
    SendsOfSentBytes(middle);
    assert Sends(t.payload) == middle;
    assert events[0] == Begin(t.dev) && events[1] == Send(t.reg) && events[n - 1] == End;
    assert events == [events[0], events[1]] + middle + [events[n - 1]];
  }

  class MockWire {
    /** Every bus call so far, oldest first. */
    var trace: seq<BusEvent>
    /** The status every endTransmission() reports (0 is success). */
    var endStatus: int
    /** The bytes the addressed device sends back when read from. */
    var reply: seq<bv8>
    /** Bytes received by the last requestFrom() and not yet read. */
    var rx: seq<bv8>

    constructor (endStatus: int, reply: seq<bv8>)
      ensures trace == [] && rx == []
      ensures this.endStatus == endStatus && this.reply == reply
    {
      trace := [];
      this.endStatus := endStatus;
      this.reply := reply;
      rx := [];
    }

    method BeginTransmission(addr: bv8)
      modifies this`trace
      ensures trace == old(trace) + [Begin(addr)]
    {
      trace := trace + [Begin(addr)];
    }

    method Write(b: bv8)
      modifies this`trace
      ensures trace == old(trace) + [Send(b)]
    {
      trace := trace + [Send(b)];
    }

    method EndTransmission() returns (status: int)
      modifies this`trace
      ensures status == endStatus
      ensures trace == old(trace) + [End]
    {
      trace := trace + [End];
      status := endStatus;
    }

    /** The device may stop early (a short read) but never sends more than asked for. */
    method RequestFrom(addr: bv8, quantity: nat) returns (received: nat)
      modifies this`trace, this`rx
      ensures received == Min(quantity, |reply|) && received <= quantity
      ensures rx == reply[..received]
      ensures trace == old(trace) + [Request(addr, quantity)]
    {
      received := Min(quantity, |reply|);
      rx := reply[..received];
      trace := trace + [Request(addr, quantity)];
    }

    /** Takes the next received byte; with none left, the -1 Arduino returns reads as 0xFF. */
    method Read() returns (b: bv8)
      modifies this`rx
      ensures old(rx) == [] ==> b == 0xFF && rx == []
      ensures old(rx) != [] ==> b == old(rx)[0] && rx == old(rx)[1..]
    {
      if rx == [] {
        b := 0xFF;
      } else {
        b := rx[0];
        rx := rx[1..];
      }
    }
  }
}
