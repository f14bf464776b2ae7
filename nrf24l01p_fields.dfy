/**
 * The register encodings of the mbed `Nrf24l01p` driver class: the clamps
 * its setters apply before writing, the bit fields they read-modify-write,
 * and the decoding its getters apply to what they read back. Bit positions
 * come from section 9 of the nRF24L01+ Product Specification (the class
 * names them through a header that is not part of this model).
 */
module Nrf24l01pFields {
  import opened Nrf24Chip

  /** The highest channel setChannel writes. */
  const MAX_CHANNEL: bv8 := 125
  const MIN_ADDRESS_WIDTH: bv8 := 3
  const MAX_ADDRESS_WIDTH: bv8 := 5
  const MIN_DELAY_US: nat := 250
  const MAX_DELAY_US: nat := 4000
  const MAX_RETRIES: bv8 := 15

  // setDataRate / getDataRate selectors
  const RATE_250_KBPS: bv8 := 0
  const RATE_1_MBPS: bv8 := 1
  const RATE_2_MBPS: bv8 := 2
  /** The two RF_SETUP bits that select the data rate. */
  const RATE_BITS: bv8 := 0x28

  /** The highest setRFOutPower level, 0 dBm. */
  const MAX_POWER: bv8 := 3

  /** The two CONFIG bits setCRCLength rewrites. */
  const CRC_BITS: bv8 := 0x0C
  /** The three CONFIG bits maskIRQ rewrites. */
  const MASK_BITS: bv8 := 0x70

  // --------------------------------------------------------- chip updates

  /** The chip with plain register `r` holding `v`. */
  function Poked(s: State, r: nat, v: bv8): (t: State)
    requires Valid(s) && IsPlain(r)
    ensures Valid(t) && Reg(t, r) == v
    ensures forall q :: 0 <= q < REGISTER_COUNT && q != r ==> t.regs[q] == s.regs[q]
    ensures t.rxFifo == s.rxFifo && t.txFifo == s.txFifo && t.reuse == s.reuse
    ensures t.rxAddr0 == s.rxAddr0 && t.rxAddr1 == s.rxAddr1 && t.txAddr == s.txAddr
  {
    s.(regs := s.regs[r := v])
  }

  /** Writing back the value a register already holds changes nothing. */
  lemma PokeSame(s: State, r: nat)
    requires Valid(s) && IsPlain(r)
    ensures Poked(s, r, s.regs[r]) == s
  {
    assert s.regs[r := s.regs[r]] == s.regs;
  }

  // ------------------------------------------------------------- clamps

  /** setChannel: channels above 125 are written as 125. */
  function ClampChannel(channel: bv8): (r: bv8)
    ensures r <= MAX_CHANNEL
    ensures channel <= MAX_CHANNEL ==> r == channel
  {
    if channel > MAX_CHANNEL then MAX_CHANNEL else channel
  }

  /** The channel read back after setChannel(channel) is the smaller of `channel` and 125. */
  lemma ChannelReadsBack(s: State, channel: bv8)
    requires Valid(s)
    ensures Reg(Poked(s, RF_CH, ClampChannel(channel)), RF_CH) as nat
         == if channel as nat <= 125 then channel as nat else 125
  {
  }

  /** setAddressWidth's clamp into 3 to 5 bytes. */
  function ClampWidth(width: bv8): (r: bv8)
    ensures MIN_ADDRESS_WIDTH <= r <= MAX_ADDRESS_WIDTH
    ensures MIN_ADDRESS_WIDTH <= width <= MAX_ADDRESS_WIDTH ==> r == width
  {
    if width < MIN_ADDRESS_WIDTH then MIN_ADDRESS_WIDTH
    else if width > MAX_ADDRESS_WIDTH then MAX_ADDRESS_WIDTH
    else width
  }

  /** The SETUP_AW code setAddressWidth writes: the clamped width minus two, in two bits. */
  function WidthCode(width: bv8): (code: bv8)
    ensures 1 <= code <= 3
  {
    (ClampWidth(width) - 2) & 0x03
  }

  /** getAddressWidth: the SETUP_AW byte plus two, in 8-bit arithmetic. */
  function WidthOf(code: bv8): bv8
  {
    code + 2
  }

  /** getAddressWidth after setAddressWidth(width) is the clamped width. */
  lemma WidthRoundTrip(width: bv8)
    ensures WidthOf(WidthCode(width)) == ClampWidth(width)
    ensures MIN_ADDRESS_WIDTH <= width <= MAX_ADDRESS_WIDTH ==> WidthOf(WidthCode(width)) == width
  {
    var w := ClampWidth(width);
    assert w == 3 || w == 4 || w == 5;
  }

  /** setRetries' clamp of the delay into 250 to 4000 microseconds. */
  function ClampDelay(delayUs: bv16): (us: nat)
    ensures MIN_DELAY_US <= us <= MAX_DELAY_US
    ensures MIN_DELAY_US <= delayUs as nat <= MAX_DELAY_US ==> us == delayUs as nat
  {
    if delayUs as nat < MIN_DELAY_US then MIN_DELAY_US
    else if delayUs as nat > MAX_DELAY_US then MAX_DELAY_US
    else delayUs as nat
  }

  /** setRetries' clamp of the retry count to 15. */
  function ClampCount(count: bv8): (r: bv8)
    ensures r <= MAX_RETRIES
    ensures count <= MAX_RETRIES ==> r == count
  {
    if count > MAX_RETRIES then MAX_RETRIES else count
  }

  /** The SETUP_RETR byte setRetries writes: ARD = delay / 250 - 1 above ARC = count. */
  function RetrValue(delayUs: bv16, count: bv8): bv8
  {
    var ard := ClampDelay(delayUs) / 250 - 1;
    ((ard as bv8) << 4) | ClampCount(count)
  }

  /** Packing two nibbles: each reads back from its own half. */
  lemma Nibbles(hi: nat, lo: bv8)
    requires hi < 16 && lo < 16
    ensures (((hi as bv8) << 4) | lo) & 0x0F == lo
    ensures ((((hi as bv8) << 4) | lo) >> 4) as nat == hi
  {
    var h := hi as bv8;
    assert h < 16;
    assert ((h << 4) | lo) >> 4 == h;
  }

  /**
   * After setRetries(delayUs, count) the chip retries min(count, 15) times
   * and waits the clamped delay, rounded down to a multiple of 250 us.
   */
  lemma RetriesReadBack(s: State, delayUs: bv16, count: bv8)
    requires Valid(s)
    ensures RetryBudget(Poked(s, SETUP_RETR, RetrValue(delayUs, count))) == ClampCount(count) as nat
    ensures RetransmitDelay(Poked(s, SETUP_RETR, RetrValue(delayUs, count))) == ClampDelay(delayUs) / 250 * 250
  {
    var ard := ClampDelay(delayUs) / 250 - 1;
    assert 0 <= ard < 16;
    Nibbles(ard, ClampCount(count));
  }

  /** setPayloadLength's clamp of the static payload width to 32 bytes. */
  function ClampPayload(size: bv8): (r: bv8)
    ensures r as nat <= MAX_PAYLOAD
    ensures size as nat <= MAX_PAYLOAD ==> r == size
  {
    if size > 32 then 32 else size
  }

  // ------------------------------------------------------------ RF_SETUP

  /** setDataRate: RF_SETUP with bits 0x28 replaced by the code for `rate`; any rate above 1 means 2 Mbps. */
  function RateBits(rfSetup: bv8, rate: bv8): (r: bv8)
    ensures r & !RATE_BITS == rfSetup & !RATE_BITS
  {
    var kept := rfSetup & 0xD7;
    if rate == RATE_250_KBPS then kept | 0x20
    else if rate == RATE_1_MBPS then kept
    else kept | 0x08
  }

  /** getDataRate: 0x20 is 250 kbps, neither bit is 1 Mbps, anything else 2 Mbps. */
  function RateOf(rfSetup: bv8): (rate: bv8)
    ensures rate <= RATE_2_MBPS
  {
    var bits := rfSetup & RATE_BITS;
    if bits == 0x20 then RATE_250_KBPS
    else if bits == 0 then RATE_1_MBPS
    else RATE_2_MBPS
  }

  /** getDataRate after setDataRate(rate) gives `rate` for the three selectors, 2 Mbps for any other value. */
  lemma RateRoundTrip(rfSetup: bv8, rate: bv8)
    ensures RateOf(RateBits(rfSetup, rate)) == if rate <= RATE_2_MBPS then rate else RATE_2_MBPS
  {
  }

  /** setRFOutPower: RF_PWR (bits 0x06) replaced by the level clamped to 3. */
  function PowerBits(rfSetup: bv8, power: bv8): (r: bv8)
    ensures r & !RF_PWR == rfSetup & !RF_PWR
  {
    var level := if power > MAX_POWER then MAX_POWER else power;
    (rfSetup & !RF_PWR) | (level << 1)
  }

  /** getRFOutPower: the RF_PWR field. */
  function PowerOf(rfSetup: bv8): (level: bv8)
    ensures level <= MAX_POWER
  {
    (rfSetup & RF_PWR) >> 1
  }

  /** getRFOutPower after setRFOutPower(power) gives the power clamped to 3. */
  lemma PowerRoundTrip(rfSetup: bv8, power: bv8)
    ensures PowerOf(PowerBits(rfSetup, power)) == if power <= MAX_POWER then power else MAX_POWER
  {
  }

  /** The two RF_SETUP fields are independent: setting one leaves the other's reading alone. */
  lemma RateAndPowerIndependent(rfSetup: bv8, rate: bv8, power: bv8)
    ensures RateOf(PowerBits(rfSetup, power)) == RateOf(rfSetup)
    ensures PowerOf(RateBits(rfSetup, rate)) == PowerOf(rfSetup)
  {
    assert PowerBits(rfSetup, power) & RATE_BITS == rfSetup & RATE_BITS;
    assert RateBits(rfSetup, rate) & RF_PWR == rfSetup & RF_PWR;
  }

  // -------------------------------------------------------------- CONFIG

  /** setCRCLength: EN_CRC and CRCO cleared, then EN_CRC for length 1 and both for 2 or more. */
  function CrcBits(config: bv8, length: bv8): (r: bv8)
    ensures r & !CRC_BITS == config & !CRC_BITS
  {
    var cleared := config & !(CRCO | EN_CRC);
    if length == 0 then cleared
    else if length == 1 then cleared | EN_CRC
    else (cleared | EN_CRC) | CRCO
  }

  /**
   * getCRCLength: CRC is in force when EN_CRC is set or auto-ACK is on for
   * any pipe; then CRCO tells one byte from two.
   */
  function CrcLength(config: bv8, enAA: bv8): (length: bv8)
    ensures length <= 2
    ensures length == 0 <==> config & EN_CRC == 0 && enAA == 0
  {
    if config & EN_CRC != 0 || enAA != 0 then
      if config & CRCO != 0 then 2 else 1
    else 0
  }

  /**
   * getCRCLength after setCRCLength(length): the length capped at 2, except
   * that a disabled CRC reads as one byte while auto-ACK is on.
   */
  lemma CrcRoundTrip(config: bv8, length: bv8, enAA: bv8)
    ensures CrcLength(CrcBits(config, length), enAA)
         == if length == 0 then (if enAA == 0 then 0 else 1)
            else if length == 1 then 1 else 2
  {
  }

  /** disableCRC clears EN_CRC only; while auto-ACK is on the CRC length read back does not change. */
  lemma DisableCrcUnderAutoAck(config: bv8, enAA: bv8)
    ensures (config & !EN_CRC) & !EN_CRC == config & !EN_CRC
    ensures enAA != 0 ==> CrcLength(config & !EN_CRC, enAA) == CrcLength(config, enAA)
    ensures enAA == 0 ==> CrcLength(config & !EN_CRC, enAA) == 0
  {
  }

  /** maskIRQ: the three MASK bits of CONFIG set exactly as asked, the rest kept. */
  function MaskBits(config: bv8, rxReady: bool, txDone: bool, maxRetry: bool): (r: bv8)
    ensures r & !MASK_BITS == config & !MASK_BITS
    ensures (r & MASK_RX_DR != 0) == rxReady
    ensures (r & MASK_TX_DS != 0) == txDone
    ensures (r & MASK_MAX_RT != 0) == maxRetry
  {
    (config & !(MASK_RX_DR | MASK_TX_DS | MASK_MAX_RT))
      | (if rxReady then MASK_RX_DR else 0)
      | (if txDone then MASK_TX_DS else 0)
      | (if maxRetry then MASK_MAX_RT else 0)
  }

  // ------------------------------------------------------------ per pipe

  /** The bit of pipe `pipe` in EN_AA, EN_RXADDR and DYNPD. */
  function PipeMask(pipe: bv8): bv8
    requires pipe as nat < PIPES
  {
    1 << pipe
  }

  /** A per-pipe register with the bit of `pipe` set or cleared. */
  function WithPipe(v: bv8, pipe: bv8, on: bool): (r: bv8)
    requires pipe as nat < PIPES
    ensures r & !PipeMask(pipe) == v & !PipeMask(pipe)
    ensures (r & PipeMask(pipe) != 0) == on
  {
    if on then v | PipeMask(pipe) else v & !PipeMask(pipe)
  }

  /** Only bit `pipe` changes: every other pipe's bit reads as before. */
  lemma OtherPipesKept(v: bv8, pipe: bv8, on: bool, other: bv8)
    requires pipe as nat < PIPES && other as nat < PIPES && other != pipe
    ensures (WithPipe(v, pipe, on) & PipeMask(other) != 0) == (v & PipeMask(other) != 0)
  {
    assert PipeMask(other) & PipeMask(pipe) == 0;
  }

  // ------------------------------------------------------------ addresses

  /** The address as setTXAddress and setRXAddress clock it: last byte first. */
  function Reversed(a: seq<bv8>): (r: seq<bv8>)
    ensures |r| == |a|
    ensures forall i :: 0 <= i < |a| ==> r[i] == a[|a| - 1 - i]
  {
    if a == [] then [] else Reversed(a[1..]) + [a[0]]
  }

  /** Reversing twice gives the address back. */
  lemma ReversedTwice(a: seq<bv8>)
    ensures Reversed(Reversed(a)) == a
  {
  }

  /** One more byte from the end of the window extends the reversed prefix. */
  lemma ReversedStep(a: seq<bv8>, i: nat, n: nat)
    requires 0 < i <= n <= |a|
    ensures Reversed(a[i - 1..n]) == Reversed(a[i..n]) + [a[i - 1]]
  {
    assert a[i - 1..n][1..] == a[i..n];
  }

  // --------------------------------------------------------------- status

  /** FIFO_STATUS answers the four FIFO questions the driver asks. */
  lemma FifoStatusBits(s: State)
    requires Valid(s)
    ensures FifoStatus(s) & RX_EMPTY != 0 <==> s.rxFifo == []
    ensures FifoStatus(s) & RX_FULL != 0 <==> |s.rxFifo| == FIFO_DEPTH
    ensures FifoStatus(s) & TX_EMPTY != 0 <==> s.txFifo == []
    ensures FifoStatus(s) & FIFO_FULL != 0 <==> |s.txFifo| == FIFO_DEPTH
  {
  }

  /** getRXPipeNumber's decoding of STATUS: bits 3..1 are RX_P_NO. */
  lemma PipeNumberField(s: State)
    requires Valid(s)
    ensures (StatusByte(s) >> 1) & 0x07 == RxPipeNumber(s)
    ensures s.rxFifo != [] ==> ((StatusByte(s) >> 1) & 0x07) as nat == s.rxFifo[0].pipe
  {
    var p := RxPipeNumber(s);
    assert p <= 7;
  }
}
