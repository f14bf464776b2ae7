/**
 * The sensor side of the payloads: where the bytes read from the MAX17043
 * fuel gauge and the BNO055 IMU land, how the receivers turn them back into
 * numbers, and the analogue multiplexer (74HC4051-style, select lines
 * S0/S1/S2 on PORTD) that routes one of six IMUs onto the I2C bus.
 *
 * The I2C transfers themselves are not modelled: a register read is a pair
 * of bytes handed to the model, MSB first as the chips send them.
 */
module Sensors {

  // ------------------------------------------------------ MAX17043 gauge

  /** The two 16-bit gauge registers a node reads: VCELL and SOC. */
  datatype Gauge = Gauge(vcell: bv16, soc: bv16)

  function Msb(w: bv16): bv8
  {
    (w >> 8) as bv8
  }

  function Lsb(w: bv16): bv8
  {
    (w & 0xFF) as bv8
  }

  /**
   * The node's reply payload: VCELL MSB, VCELL LSB, SOC MSB, SOC LSB at
   * indices 0 to 3, in the order the gauge sends them.
   */
  function GaugePayload(g: Gauge): (p: seq<bv8>)
    ensures |p| == 4
    ensures ((p[0] as bv16) << 8) | (p[1] as bv16) == g.vcell
    ensures ((p[2] as bv16) << 8) | (p[3] as bv16) == g.soc
  {
    [Msb(g.vcell), Lsb(g.vcell), Msb(g.soc), Lsb(g.soc)]
  }

  /**
   * MAX17043_Read_VCELL then MAX17043_Read_SOC: each register's MSB and LSB
   * stored in the node's reply, VCELL at indices 0 and 1, SOC at 2 and 3.
   */
  method StoreGauge(payload: array<bv8>, g: Gauge)
    requires payload.Length == 4
    modifies payload
    ensures payload[..] == GaugePayload(g)
  {
    payload[0] := Msb(g.vcell);
    payload[1] := Lsb(g.vcell);
    payload[2] := Msb(g.soc);
    payload[3] := Lsb(g.soc);
  }

  /**
   * The base station's raw cell reading: the big-endian word shifted right
   * by 4. VCELL is a 12-bit value left-justified in its register, so the
   * result is below 4096 and the low nibble of the LSB plays no part.
   */
  function CellReading(msb: bv8, lsb: bv8): (v: bv16)
    ensures v < 4096
    ensures v == ((msb as bv16) << 4) | ((lsb as bv16) >> 4)
  {
    ((lsb as bv16) | ((msb as bv16) << 8)) >> 4
  }

  /**
   * The whole-percent part of the state of charge. The station prints
   * MSB + LSB / 256.0; its integer part is the MSB, the floor of the
   * register value divided by 256.
   */
  function SocPercent(msb: bv8, lsb: bv8): (p: nat)
    ensures p * 256 <= msb as nat * 256 + lsb as nat < (p + 1) * 256
  {
    msb as nat
  }

  /**
   * The reading the station decodes from a node's payload is the gauge's
   * 12-bit cell voltage and the whole-percent state of charge.
   */
  lemma GaugeRoundTrip(g: Gauge)
    ensures var p := GaugePayload(g);
      && CellReading(p[0], p[1]) == g.vcell >> 4
      && SocPercent(p[2], p[3]) == (g.soc >> 8) as nat
  {
    CellOfWord(g.vcell);
    SocOfWord(g.soc);
  }

  lemma CellOfWord(w: bv16)
    ensures CellReading(Msb(w), Lsb(w)) == w >> 4
  {
  }

  lemma SocOfWord(w: bv16)
    ensures Msb(w) as nat == (w >> 8) as nat
  {
  }

  // ------------------------------------------------------- BNO055 words

  /** Values of a C `int16_t`, and of a `uint8_t` as the IMU's registers deliver them. */
  predicate IsInt16(w: int)
  {
    -0x8000 <= w < 0x8000
  }

  predicate IsByte(b: int)
  {
    0 <= b < 0x100
  }

  /**
   * `int16_t w = (MSB << 8) | LSB;`: the two bytes do not overlap, so the
   * OR is their sum, and the 16-bit pattern is read as two's complement.
   */
  function RawWord(msb: int, lsb: int): (w: int)
    requires IsByte(msb) && IsByte(lsb)
    ensures IsInt16(w)
    ensures w < 0 <==> msb >= 0x80
  {
    var u := msb * 0x100 + lsb;
    if u >= 0x8000 then u - 0x10000 else u
  }

  /** The bit pattern of an `int16_t`, as the IMU stores it. */
  function Pattern(w: int): (u: nat)
    requires IsInt16(w)
    ensures u < 0x10000
  {
    if w < 0 then w + 0x10000 else w
  }

  /** The IMU's byte pair for a value: high and low byte of its pattern. */
  function HighByte(w: int): (b: int)
    requires IsInt16(w)
    ensures IsByte(b)
  {
    Pattern(w) / 0x100
  }

  function LowByte(w: int): (b: int)
    requires IsInt16(w)
    ensures IsByte(b)
  {
    Pattern(w) % 0x100
  }

  /** Assembling the word recovers every `int16_t` the IMU can report. */
  lemma WordRoundTrip(w: int)
    requires IsInt16(w)
    ensures RawWord(HighByte(w), LowByte(w)) == w
  {
    var u := Pattern(w);
    assert u == HighByte(w) * 0x100 + LowByte(w);
  }

  /** And no two byte pairs give the same word. */
  lemma WordInjective(msb: int, lsb: int)
    requires IsByte(msb) && IsByte(lsb)
    ensures HighByte(RawWord(msb, lsb)) == msb && LowByte(RawWord(msb, lsb)) == lsb
  {
    var u := msb * 0x100 + lsb;
    assert Pattern(RawWord(msb, lsb)) == u;
    DivMod256(u, msb, lsb);
  }

  /** Division by 256 takes a number apart into its two bytes. */
  lemma DivMod256(u: int, hi: int, lo: int)
    requires IsByte(lo) && 0 <= hi && u == hi * 0x100 + lo
    ensures u / 0x100 == hi && u % 0x100 == lo
  {
  }

  // ------------------------------------------------- BNO055 quaternion

  /**
   * BNO_Read_Quaternions / BNO_get_Quaternion: the eight bytes of one burst
   * read (W, X, Y, Z, each LSB then MSB) stored at payload indices 2 to 9.
   * Indices 0 and 1, the node and IMU numbers, are not touched.
   */
  method StoreQuaternion(payload: array<bv8>, quat: seq<bv8>)
    requires payload.Length == 10 && |quat| == 8
    modifies payload
    ensures payload[..] == old(payload[..2]) + quat
  {
    forall i | 2 <= i < 10 {
      payload[i] := quat[i - 2];
    }
  }

  // -------------------------------------------------- BNO055 calibration

  /** CALIB_STAT split into its four 2-bit fields. */
  datatype Calibration = Calibration(sys: bv8, gyro: bv8, acc: bv8, mag: bv8)

  predicate Fits(c: Calibration)
  {
    c.sys <= 3 && c.gyro <= 3 && c.acc <= 3 && c.mag <= 3
  }

  /** sys = bits 7-6, gyro = bits 5-4, acc = bits 3-2, mag = bits 1-0. */
  function SplitCalibration(cal: bv8): (c: Calibration)
    ensures Fits(c)
  {
    Calibration((cal & 0xC0) >> 6, (cal & 0x30) >> 4, (cal & 0x0C) >> 2, cal & 0x03)
  }

  /** The register byte with the four fields in place. */
  function PackCalibration(c: Calibration): bv8
    requires Fits(c)
  {
    (c.sys << 6) | (c.gyro << 4) | (c.acc << 2) | c.mag
  }

  /** The split loses nothing and the fields are independent. */
  lemma CalibrationRoundTrip(cal: bv8, c: Calibration)
    requires Fits(c)
    ensures PackCalibration(SplitCalibration(cal)) == cal
    ensures SplitCalibration(PackCalibration(c)) == c
  {
  }

  // ------------------------------------------------------- multiplexer

  /** The select lines on PORTD: S0 is bit 4, S1 bit 6, S2 bit 7. */
  const MUX_S0: bv8 := 0x10
  const MUX_S1: bv8 := 0x40
  const MUX_S2: bv8 := 0x80
  const MUX_PINS: bv8 := 0xD0

  /** The multiplexer input the select lines address: Y = 4*S2 + 2*S1 + S0. */
  function MuxInput(port: bv8): (y: nat)
    ensures y < 8
  {
    (if port & MUX_S2 != 0 then 4 else 0)
    + (if port & MUX_S1 != 0 then 2 else 0)
    + (if port & MUX_S0 != 0 then 1 else 0)
  }

  /** The input wired to IMU `channel`: IMUs 1..6 sit on Y5, Y4, Y2, Y1, Y0, Y3. */
  function MuxWiring(channel: nat): (y: nat)
    requires 1 <= channel <= 6
    ensures y < 6
  {
    if channel == 1 then 5
    else if channel == 2 then 4
    else if channel == 3 then 2
    else if channel == 4 then 1
    else if channel == 5 then 0
    else 3
  }

  /** One select line driven high or low, the rest of the port untouched. */
  function Drive(port: bv8, pin: bv8, high: bool): bv8
  {
    if high then port | pin else port & !pin
  }

  /** S0, then S1, then S2 driven to the given levels. */
  function Lines(port: bv8, s2: bool, s1: bool, s0: bool): bv8
  {
    Drive(Drive(Drive(port, MUX_S0, s0), MUX_S1, s1), MUX_S2, s2)
  }

  /**
   * PORTD after BNO_MUX_Select: for channels 1..6 the three select levels
   * of that case; any other channel leaves the port as it was.
   */
  function MuxPort(port: bv8, channel: nat): bv8
  {
    if channel == 1 then Lines(port, true, false, true)
    else if channel == 2 then Lines(port, true, false, false)
    else if channel == 3 then Lines(port, false, true, false)
    else if channel == 4 then Lines(port, false, false, true)
    else if channel == 5 then Lines(port, false, false, false)
    else if channel == 6 then Lines(port, false, true, true)
    else port
  }

  /** Driving the lines to given levels addresses the input they spell and touches no other pin. */
  lemma LinesAddress(port: bv8, s2: bool, s1: bool, s0: bool)
    ensures var p := Lines(port, s2, s1, s0);
      && MuxInput(p) == (if s2 then 4 else 0) + (if s1 then 2 else 0) + (if s0 then 1 else 0)
      && p & !MUX_PINS == port & !MUX_PINS
  {
  }

  /**
   * For channels 1..6 the select lines address the input wired to that IMU
   * (the wiring table, an independent statement of the board); any other
   * channel leaves the port as it was; the other pins of PORTD never change.
   */
  lemma MuxSelectsWiring(port: bv8, channel: nat)
    ensures MuxPort(port, channel) & !MUX_PINS == port & !MUX_PINS
    ensures 1 <= channel <= 6 ==> MuxInput(MuxPort(port, channel)) == MuxWiring(channel)
    ensures !(1 <= channel <= 6) ==> MuxPort(port, channel) == port
  {
    if channel == 1 {
      LinesAddress(port, true, false, true);
    } else if channel == 2 {
      LinesAddress(port, true, false, false);
    } else if channel == 3 {
      LinesAddress(port, false, true, false);
    } else if channel == 4 {
      LinesAddress(port, false, false, true);
    } else if channel == 5 {
      LinesAddress(port, false, false, false);
    } else if channel == 6 {
      LinesAddress(port, false, true, true);
    }
  }

  /** Six IMUs on six different inputs: no two channels select the same one. */
  lemma WiringIsInjective(c1: nat, c2: nat)
    requires 1 <= c1 <= 6 && 1 <= c2 <= 6 && c1 != c2
    ensures MuxWiring(c1) != MuxWiring(c2)
  {
  }

  /** PORTD, the AVR output register holding the select lines. */
  class PortD {
    var value: bv8

    constructor (value: bv8)
      ensures this.value == value
    {
      this.value := value;
    }

    /** BNO_MUX_Select: three read-modify-writes of PORTD (`|=` to drive a line high, `&= ~` to drive it low), one per select line. */
    method MuxSelect(channel: nat)
      modifies this
      ensures value == MuxPort(old(value), channel)
    {
      if channel == 1 {
        value := Drive(value, MUX_S0, true);
        value := Drive(value, MUX_S1, false);
        value := Drive(value, MUX_S2, true);
      } else if channel == 2 {
        value := Drive(value, MUX_S0, false);
        value := Drive(value, MUX_S1, false);
        value := Drive(value, MUX_S2, true);
      } else if channel == 3 {
        value := Drive(value, MUX_S0, false);
        value := Drive(value, MUX_S1, true);
        value := Drive(value, MUX_S2, false);
      } else if channel == 4 {
        value := Drive(value, MUX_S0, true);
        value := Drive(value, MUX_S1, false);
        value := Drive(value, MUX_S2, false);
      } else if channel == 5 {
        value := Drive(value, MUX_S0, false);
        value := Drive(value, MUX_S1, false);
        value := Drive(value, MUX_S2, false);
      } else if channel == 6 {
        value := Drive(value, MUX_S0, true);
        value := Drive(value, MUX_S1, true);
        value := Drive(value, MUX_S2, false);
      }
    }
  }
}
