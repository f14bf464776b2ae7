/**
 * The SPI bus and the two control lines between a microcontroller and one
 * nRF24L01+. The firmware drives CSN and CE and shifts bytes; the chip
 * answers each byte and acts on a whole transaction when CSN rises. Every
 * completed transaction, CE change and environment event is appended to
 * `trace`, so the drivers can state exactly what they put on the wires.
 */
module Spi {
  import opened Nrf24Chip

  datatype Event =
    | Bracket(mosi: seq<bv8>)                // CSN low, these bytes, CSN high
    | ChipEnable(high: bool)                 // CE driven high or low
    | OnAir(air: Air)                        // a transmission completed on the air
    | Arrival(pipe: nat, data: seq<bv8>)     // a payload came in from the air

  /** The MISO bytes of a whole bracket. */
  function Response(s: State, frame: seq<bv8>): (r: seq<bv8>)
    requires Valid(s)
    ensures |r| == |frame|
    ensures forall k :: 0 < k < |frame| ==> r[k] == Echo(s, frame[0], k)
    ensures |frame| > 0 ==> r[0] == StatusByte(s)
  {
    seq(|frame|, k requires 0 <= k < |frame| => Miso(s, frame, k))
  }

  class Bus {
    var chip: State
    var ce: bool
    /** CSN is low. */
    var selected: bool
    /** The bytes shifted out since CSN went low. */
    var frame: seq<bv8>
    var trace: seq<Event>

    ghost predicate Valid()
      reads this
    {
      Nrf24Chip.Valid(chip) && (!selected ==> frame == [])
    }

    /** The bus after SPI_Init: CSN high, CE low, the chip in state `s`. */
    constructor (s: State)
      requires Nrf24Chip.Valid(s)
      ensures Valid() && chip == s && !ce && !selected && trace == []
    {
      chip := s;
      ce := false;
      selected := false;
      frame := [];
      trace := [];
    }

    /** CSN low. */
    method Select()
      requires Valid() && !selected
      modifies this`selected
      ensures Valid() && selected && frame == []
    {
      selected := true;
    }

    /** One full-duplex byte: `b` goes out, the chip's answer comes back. */
    method Transfer(b: bv8) returns (r: bv8)
      requires Valid() && selected
      modifies this`frame
      ensures Valid()
      ensures frame == old(frame) + [b]
      ensures r == Miso(chip, frame, |old(frame)|)
    {
      frame := frame + [b];
      r := Miso(chip, frame, |frame| - 1);
    }

    /** CSN high: the chip acts on the bracket. */
    method Deselect()
      requires Valid() && selected
      modifies this`selected, this`frame, this`chip, this`trace
      ensures Valid() && !selected
      ensures chip == Apply(old(chip), old(frame))
      ensures trace == old(trace) + [Bracket(old(frame))]
    {
      chip := Apply(chip, frame);
      trace := trace + [Bracket(frame)];
      frame := [];
      selected := false;
    }

    method SetCE(high: bool)
      requires Valid()
      modifies this`ce, this`trace
      ensures Valid() && ce == high
      ensures trace == old(trace) + [ChipEnable(high)]
    {
      ce := high;
      trace := trace + [ChipEnable(high)];
    }

    /** Environment step: the chip finishes one transmission. */
    method Air(air: Air)
      requires Valid()
      modifies this`chip, this`trace
      ensures Valid() && chip == Transmit(old(chip), air)
      ensures trace == old(trace) + [OnAir(air)]
    {
      chip := Transmit(chip, air);
      trace := trace + [OnAir(air)];
    }

    /** Environment step: a payload arrives on `pipe`. */
    method Arrive(pipe: nat, data: seq<bv8>)
      requires Valid() && pipe < PIPES && 1 <= |data| <= MAX_PAYLOAD
      modifies this`chip, this`trace
      ensures Valid() && chip == Receive(old(chip), pipe, data)
      ensures trace == old(trace) + [Arrival(pipe, data)]
    {
      chip := Receive(chip, pipe, data);
      trace := trace + [Arrival(pipe, data)];
    }

    // ------------------------------------------------ whole brackets

    /** A one-byte command bracket; returns the STATUS byte shifted out with it. */
    method Command(cmd: bv8) returns (status: bv8)
      requires Valid() && !selected
      modifies this`selected, this`frame, this`chip, this`trace
      ensures Valid() && !selected
      ensures status == StatusByte(old(chip))
      ensures chip == Apply(old(chip), [cmd])
      ensures trace == old(trace) + [Bracket([cmd])]
    {
      Select();
      status := Transfer(cmd);
      assert frame == [cmd];
      Deselect();
    }

    /** The bracket [cmd, b]; returns the byte shifted in with `b`. */
    method Pair(cmd: bv8, b: bv8) returns (r: bv8)
      requires Valid() && !selected
      modifies this`selected, this`frame, this`chip, this`trace
      ensures Valid() && !selected
      ensures r == Echo(old(chip), cmd, 1)
      ensures chip == Apply(old(chip), [cmd, b])
      ensures trace == old(trace) + [Bracket([cmd, b])]
    {
      Select();
      var _ := Transfer(cmd);
      r := Transfer(b);
      assert frame == [cmd, b];
      Deselect();
    }

    /** Shifts out `data` inside the open bracket, in index order. */
    method Stream(data: seq<bv8>)
      requires Valid() && selected && |frame| > 0
      modifies this`frame
      ensures Valid() && frame == old(frame) + data
    {
      var i := 0;
      while i < |data|
        invariant 0 <= i <= |data|
        invariant Valid() && frame == old(frame) + data[..i]
      {
        var _ := Transfer(data[i]);
        assert data[..i + 1] == data[..i] + [data[i]];
        i := i + 1;
      }
    }

    /** The bracket [cmd] + data, streamed byte by byte. */
    method WriteBytes(cmd: bv8, data: seq<bv8>)
      requires Valid() && !selected
      modifies this`selected, this`frame, this`chip, this`trace
      ensures Valid() && !selected
      ensures chip == Apply(old(chip), [cmd] + data)
      ensures trace == old(trace) + [Bracket([cmd] + data)]
    {
      Select();
      var _ := Transfer(cmd);
      assert frame == [cmd];
      Stream(data);
      Deselect();
    }
  }
}
