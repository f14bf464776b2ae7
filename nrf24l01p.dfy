/**
 * The mbed `Nrf24l01p` class of the newer base station: one object owns the
 * SPI port and the CSN and CE lines of one nRF24L01+, and every method is a
 * short sequence of SPI brackets (mostly read-modify-writes of one register)
 * and CE edges. Each method states the chip state it leaves, and the simple
 * ones the brackets they put on the wires; the encodings they apply are in
 * `Nrf24l01pFields`.
 */
module Nrf24l01pDriver {
  import opened Nrf24Chip
  import opened Spi
  import opened NodeDriver
  import opened Nrf24l01pFields

  /** The payload length readRXData reports for the head of a non-empty RX FIFO. */
  function RxLength(s: State): (len: bv8)
    requires Valid(s) && s.rxFifo != []
  {
    var pipe := s.rxFifo[0].pipe;
    if s.regs[DYNPD] & PipeMask(pipe as bv8) != 0 then |s.rxFifo[0].data| as bv8
    else s.regs[RX_PW_P0 + pipe]
  }

  /** A payload length or pipe number survives the round trip through a byte. */
  lemma ByteRoundTrip(n: nat)
    requires n <= MAX_PAYLOAD
    ensures (n as bv8) as nat == n
  {
  }

  /** A buffer of `n` bytes holds any payload readRXData can report. */
  predicate Fits(s: State, n: nat)
    requires Valid(s)
  {
    MAX_PAYLOAD <= n && forall r :: RX_PW_P0 <= r < RX_PW_P0 + PIPES ==> s.regs[r] as nat <= n
  }

  /** `n` zero bytes, what readRXData clocks out after R_RX_PAYLOAD. */
  function Zeros(n: nat): (r: seq<bv8>)
    ensures |r| == n
  {
    seq(n, _ => 0)
  }

  /** `trace` followed by a read-modify-write of `reg` that writes back `v`. */
  function WithRmw(trace: seq<Event>, reg: nat, v: bv8): seq<Event>
    requires reg < REGISTER_COUNT
  {
    trace + [Peek(reg)] + [Poke(reg, v)]
  }

  // ------------------------------------------------ chip after each setter

  /** A per-pipe setter: nothing for pipes above 5, otherwise bit `pipe` of `reg` set or cleared. */
  function PipeBitSet(s: State, reg: nat, pipe: bv8, on: bool): (t: State)
    requires Valid(s) && IsPlain(reg)
    ensures Valid(t)
  {
    if pipe > 5 then s else Poked(s, reg, WithPipe(s.regs[reg], pipe, on))
  }

  /** setPayloadLength: nothing for pipes above 5, otherwise RX_PW_Px holds the size clamped to 32. */
  function PayloadLengthSet(s: State, pipe: bv8, size: bv8): (t: State)
    requires Valid(s)
    ensures Valid(t)
  {
    if pipe > 5 then s else Poked(s, RX_PW_P0 + pipe as nat, ClampPayload(size))
  }

  /** A FEATURE read-modify-write setting `bits`. */
  function FeatureSet(s: State, bits: bv8): (t: State)
    requires Valid(s)
    ensures Valid(t)
  {
    Poked(s, FEATURE, s.regs[FEATURE] | bits)
  }

  /** A FEATURE read-modify-write clearing `bits`. */
  function FeatureCleared(s: State, bits: bv8): (t: State)
    requires Valid(s)
    ensures Valid(t)
  {
    Poked(s, FEATURE, s.regs[FEATURE] & !bits)
  }

  /**
   * enableDynamicPayloadLength(pipe): nothing for pipes above 5; otherwise
   * EN_DPL, then the pipe's EN_AA bit, then its DYNPD bit set.
   */
  function DynamicPipe(s: State, pipe: bv8): (t: State)
    requires Valid(s)
    ensures Valid(t)
  {
    if pipe > 5 then s
    else
      var s1 := FeatureSet(s, EN_DPL);
      var s2 := PipeBitSet(s1, EN_AA, pipe, true);
      PipeBitSet(s2, DYNPD, pipe, true)
  }

  /** Any bracket that starts with W_REGISTER + reg is a register write of the bytes after it. */
  lemma RegisterBracket(s: State, reg: nat, data: seq<bv8>)
    requires Valid(s) && reg < REGISTER_COUNT
    ensures Apply(s, [W_REGISTER + reg as bv8] + data) == WriteRegister(s, reg, data)
  {
    var cmd := W_REGISTER + reg as bv8;
    assert (cmd & REGISTER_MASK) as nat == reg;
    assert ([cmd] + data)[1..] == data;
  }

  /** setRXAddress(pipe, address, addrLen). */
  function RxAddressed(s: State, pipe: bv8, address: seq<bv8>, addrLen: nat): (t: State)
    requires Valid(s) && addrLen <= |address|
    requires 2 <= pipe <= 5 ==> addrLen >= 1
    ensures Valid(t)
  {
    if pipe < 2 then WriteRegister(s, RX_ADDR_P0 + pipe as nat, Reversed(address[..addrLen]))
    else if pipe <= 5 then Poked(s, RX_ADDR_P0 + pipe as nat, address[addrLen - 1])
    else s
  }

  // ------------------------------------------------ chip after the composites

  /** The five-byte address of the pipe-opening calls, as the chip stores it: last byte first. */
  function AirAddress(address: seq<bv8>): (r: seq<bv8>)
    requires |address| >= ADDRESS_WIDTH
    ensures |r| == ADDRESS_WIDTH
    ensures forall i :: 0 <= i < ADDRESS_WIDTH ==> r[i] == address[ADDRESS_WIDTH - 1 - i]
  {
    Reversed(address[..ADDRESS_WIDTH])
  }

  /** The first four steps of openRXPipe: address, pipe enabled, static length. */
  function PipeOpening(s: State, pipe: bv8, address: seq<bv8>, numBytes: bv8): (t: State)
    requires Valid(s) && |address| >= ADDRESS_WIDTH
    ensures Valid(t)
  {
    var s1 := RxAddressed(s, pipe, address, ADDRESS_WIDTH);
    var s2 := PipeBitSet(s1, EN_RXADDR, pipe, true);
    var s3 := PipeBitSet(s2, DYNPD, pipe, false);
    PayloadLengthSet(s3, pipe, numBytes)
  }

  /**
   * openRXPipe(pipe, address, numBytes, enAutoAck, enDynAck): the address,
   * the pipe enabled with a static payload length, auto-ACK on or off, and
   * dynamic ACK enabled with auto-ACK when asked, whatever the pipe.
   */
  function RxPipeOpened(s: State, pipe: bv8, address: seq<bv8>, numBytes: bv8, enAutoAck: bool, enDynAck: bool): (t: State)
    requires Valid(s) && |address| >= ADDRESS_WIDTH
    ensures Valid(t)
  {
    var s4 := PipeOpening(s, pipe, address, numBytes);
    if !enAutoAck then PipeBitSet(s4, EN_AA, pipe, false)
    else
      var s5 := PipeBitSet(s4, EN_AA, pipe, true);
      if enDynAck then FeatureSet(s5, EN_DYN_ACK) else s5
  }

  /** RxPipeOpened, step by step. */
  lemma OpenedSteps(s: State, pipe: bv8, address: seq<bv8>, numBytes: bv8, enAutoAck: bool, enDynAck: bool)
    requires Valid(s) && |address| >= ADDRESS_WIDTH
    ensures var s4 := PipeOpening(s, pipe, address, numBytes);
      RxPipeOpened(s, pipe, address, numBytes, enAutoAck, enDynAck)
      == if !enAutoAck then PipeBitSet(s4, EN_AA, pipe, false)
         else if enDynAck then FeatureSet(PipeBitSet(s4, EN_AA, pipe, true), EN_DYN_ACK)
         else PipeBitSet(s4, EN_AA, pipe, true)
  {
  }

  /** openTXPipe: TX_ADDR, then pipe 0 opened on the same address only with auto-ACK. */
  function TxPipeOpened(s: State, address: seq<bv8>, numBytes: bv8, enAutoAck: bool, enDynAck: bool): (t: State)
    requires Valid(s) && |address| >= ADDRESS_WIDTH
    ensures Valid(t)
  {
    var s1 := WriteRegister(s, TX_ADDR, AirAddress(address));
    if enAutoAck then RxPipeOpened(s1, 0, address, numBytes, true, enDynAck) else s1
  }

  /** The first four steps of openDynamicRXPipe: address, pipe enabled, length 32, dynamic length. */
  function DynamicOpening(s: State, pipe: bv8, address: seq<bv8>): (t: State)
    requires Valid(s) && |address| >= ADDRESS_WIDTH
    ensures Valid(t)
  {
    var s1 := RxAddressed(s, pipe, address, ADDRESS_WIDTH);
    var s2 := PipeBitSet(s1, EN_RXADDR, pipe, true);
    var s3 := PayloadLengthSet(s2, pipe, MAX_PAYLOAD as bv8);
    DynamicPipe(s3, pipe)
  }

  /**
   * openDynamicRXPipe: the address, the pipe enabled with 32 as its static
   * length and dynamic payload length on, ACK payloads on or off, and
   * dynamic ACK enabled when asked.
   */
  function DynamicRxPipeOpened(s: State, pipe: bv8, address: seq<bv8>, enAckPayload: bool, enDynAck: bool): (t: State)
    requires Valid(s) && |address| >= ADDRESS_WIDTH
    ensures Valid(t)
  {
    DynamicAckSet(AckPayloadSet(DynamicOpening(s, pipe, address), enAckPayload), enDynAck)
  }

  /** enableAckPayload (EN_DPL and EN_ACK_PAY set) or disableAckPayload (EN_ACK_PAY cleared). */
  function AckPayloadSet(s: State, on: bool): (t: State)
    requires Valid(s)
    ensures Valid(t)
  {
    if on then Poked(s, FEATURE, s.regs[FEATURE] | EN_DPL | EN_ACK_PAY) else FeatureCleared(s, EN_ACK_PAY)
  }

  /** enableDynamicAck when asked, otherwise nothing. */
  function DynamicAckSet(s: State, on: bool): (t: State)
    requires Valid(s)
    ensures Valid(t)
  {
    if on then FeatureSet(s, EN_DYN_ACK) else s
  }

  /** openDynamicTXPipe: TX_ADDR, then pipe 0 opened dynamically on the same address. */
  function DynamicTxPipeOpened(s: State, address: seq<bv8>, enAckPayload: bool, enDynAck: bool): (t: State)
    requires Valid(s) && |address| >= ADDRESS_WIDTH
    ensures Valid(t)
  {
    DynamicRxPipeOpened(WriteRegister(s, TX_ADDR, AirAddress(address)), 0, address, enAckPayload, enDynAck)
  }

  /** powerUp's effect on the chip: PWR_UP set (a no-op when it already is). */
  function PoweredUp(s: State): (t: State)
    requires Valid(s)
    ensures Valid(t)
  {
    Poked(s, CONFIG, s.regs[CONFIG] | PWR_UP)
  }

  /**
   * init(channel, dataRate, addressWidth, CRCLength): power up, channel,
   * rate, full output power, address width, CRC, and 15 retries 500 us apart.
   */
  function Initialized(s: State, channel: bv8, rate: bv8, width: bv8, crc: bv8): (t: State)
    requires Valid(s)
    ensures Valid(t)
  {
    var s1 := PoweredUp(s);
    var s2 := Poked(s1, RF_CH, ClampChannel(channel));
    var s3 := Poked(s2, RF_SETUP, RateBits(s2.regs[RF_SETUP], rate));
    var s4 := Poked(s3, RF_SETUP, PowerBits(s3.regs[RF_SETUP], MAX_POWER));
    var s5 := Poked(s4, SETUP_AW, WidthCode(width));
    var s6 := Poked(s5, CONFIG, CrcBits(s5.regs[CONFIG], crc));
    Poked(s6, SETUP_RETR, RetrValue(INIT_DELAY_US, INIT_RETRIES))
  }

  /** The retry setting init uses. */
  const INIT_DELAY_US: bv16 := 500
  const INIT_RETRIES: bv8 := 15

  /**
   * writeTXData before CE rises: the TX FIFO flushed, the IRQ flags reset,
   * and `payload` queued with W_TX_PAYLOAD, or with W_TX_PAYLOAD_NOACK when
   * no acknowledgement is wanted.
   */
  function Loaded(s: State, payload: seq<bv8>, getAck: bool): (t: State)
    requires Valid(s)
    ensures Valid(t)
  {
    Apply(ClearFlags(s.(txFifo := [], reuse := false)), [if getAck then W_TX_PAYLOAD else W_TX_PAYLOAD_NOACK] + payload)
  }

  /** The bytes a payload command queues: at most the first 32. */
  function Clipped(data: seq<bv8>): (r: seq<bv8>)
    ensures |r| <= MAX_PAYLOAD
    ensures |data| <= MAX_PAYLOAD ==> r == data
    ensures |data| > MAX_PAYLOAD ==> r == data[..MAX_PAYLOAD]
  {
    if |data| > MAX_PAYLOAD then data[..MAX_PAYLOAD] else data
  }

  /**
   * What writeTXData leaves queued: the TX FIFO holds just the payload
   * (clipped to 32 bytes), unless it is empty or NOACK was asked for without
   * EN_DYN_ACK, when it holds nothing; the IRQ flags are all clear.
   */
  lemma LoadedQueue(s: State, payload: seq<bv8>, getAck: bool)
    requires Valid(s)
    ensures var t := Loaded(s, payload, getAck);
      && t.regs == ClearFlags(s).regs && Flags(t) == 0
      && t.rxFifo == s.rxFifo && !t.reuse
      && t.txAddr == s.txAddr && t.rxAddr0 == s.rxAddr0 && t.rxAddr1 == s.rxAddr1
      && t.txFifo == if payload == [] || (!getAck && s.regs[FEATURE] & EN_DYN_ACK == 0) then []
                     else [TxPayload(Clipped(payload), if getAck then WithAck else NoAck)]
  {
    var cmd := if getAck then W_TX_PAYLOAD else W_TX_PAYLOAD_NOACK;
    assert ([cmd] + payload)[1..] == payload;
  }

  /**
   * writeTXData can only finish when the chip is powered up in PTX mode and
   * something was queued: a non-empty payload, and for NOACK the dynamic
   * ACK feature enabled.
   */
  lemma WriteTXDataCanFinish(s: State, payload: seq<bv8>, getAck: bool)
    requires Valid(s)
    ensures CanTransmit(Loaded(s, payload, getAck))
        <==> && s.regs[CONFIG] & PWR_UP != 0 && s.regs[CONFIG] & PRIM_RX == 0
             && payload != [] && (getAck || s.regs[FEATURE] & EN_DYN_ACK != 0)
  {
    LoadedQueue(s, payload, getAck);
  }

  /**
   * writeAckData before the payload command: the TX FIFO flushed; then for
   * pipes 0 to 5 the payload queued with W_ACK_PAYLOAD + pipe.
   */
  function AckLoaded(s: State, pipe: bv8, payload: seq<bv8>): (t: State)
    requires Valid(s)
    ensures Valid(t)
  {
    var flushed := s.(txFifo := [], reuse := false);
    if pipe > 5 then flushed else Apply(flushed, [W_ACK_PAYLOAD + pipe] + payload)
  }

  /**
   * An ACK payload is queued for its pipe exactly when the pipe exists, the
   * payload is not empty and EN_ACK_PAY is set; the FIFO is flushed either way.
   */
  lemma AckPayloadQueued(s: State, pipe: bv8, payload: seq<bv8>)
    requires Valid(s)
    ensures var t := AckLoaded(s, pipe, payload);
      && t.regs == s.regs && t.rxFifo == s.rxFifo && !t.reuse
      && t.txFifo == if pipe > 5 || payload == [] || s.regs[FEATURE] & EN_ACK_PAY == 0 then []
                     else [TxPayload(Clipped(payload), AckPayload(pipe as nat))]
  {
    if pipe <= 5 {
      assert ([W_ACK_PAYLOAD + pipe] + payload)[1..] == payload;
      assert (W_ACK_PAYLOAD + pipe - W_ACK_PAYLOAD) as nat == pipe as nat;
    }
  }

  // ------------------------------------------------ what the composites leave

  /** setRXAddress with five bytes: pipes 0 and 1 hold the address last byte first, pipes 2 to 5 its last byte. */
  lemma RxAddressSettings(s: State, pipe: bv8, address: seq<bv8>)
    requires Valid(s) && |address| >= ADDRESS_WIDTH && pipe <= 5
    ensures var t := RxAddressed(s, pipe, address, ADDRESS_WIDTH);
      && (pipe < 2 ==> Wide(t, RX_ADDR_P0 + pipe as nat) == AirAddress(address))
      && (pipe < 2 ==> Wide(t, RX_ADDR_P0 + pipe as nat)[0] == address[ADDRESS_WIDTH - 1])
      && (pipe >= 2 ==> Reg(t, RX_ADDR_P0 + pipe as nat) == address[ADDRESS_WIDTH - 1])
      && t.regs[RX_ADDR_P0 + pipe as nat := s.regs[RX_ADDR_P0 + pipe as nat]] == s.regs
      && t.txAddr == s.txAddr && t.rxFifo == s.rxFifo && t.txFifo == s.txFifo
  {
    if pipe < 2 {
      WideWrite(s, RX_ADDR_P0 + pipe as nat, AirAddress(address));
    }
  }

  /**
   * openRXPipe on pipes 0 to 5: the pipe's address, the pipe enabled with a
   * static length (dynamic length off), auto-ACK as asked, and EN_DYN_ACK set
   * when both auto-ACK and dynamic ACK were asked (it is never cleared).
   */
  lemma OpenRXPipeSettings(s: State, pipe: bv8, address: seq<bv8>, numBytes: bv8, enAutoAck: bool, enDynAck: bool)
    requires Valid(s) && |address| >= ADDRESS_WIDTH && pipe <= 5
    ensures var t := RxPipeOpened(s, pipe, address, numBytes, enAutoAck, enDynAck);
      && t.regs[EN_RXADDR] & PipeMask(pipe) != 0
      && t.regs[DYNPD] & PipeMask(pipe) == 0
      && t.regs[RX_PW_P0 + pipe as nat] == ClampPayload(numBytes)
      && (t.regs[EN_AA] & PipeMask(pipe) != 0) == enAutoAck
      && (t.regs[FEATURE] & EN_DYN_ACK != 0) == (s.regs[FEATURE] & EN_DYN_ACK != 0 || (enAutoAck && enDynAck))
      && (pipe < 2 ==> Wide(t, RX_ADDR_P0 + pipe as nat) == AirAddress(address))
      && (pipe >= 2 ==> t.regs[RX_ADDR_P0 + pipe as nat] == address[ADDRESS_WIDTH - 1])
      && t.rxFifo == s.rxFifo && t.txFifo == s.txFifo && t.txAddr == s.txAddr
  {
    RxAddressSettings(s, pipe, address);
    var s1 := RxAddressed(s, pipe, address, ADDRESS_WIDTH);
    var s2 := PipeBitSet(s1, EN_RXADDR, pipe, true);
    var s3 := PipeBitSet(s2, DYNPD, pipe, false);
    var s4 := PayloadLengthSet(s3, pipe, numBytes);
    assert s4 == PipeOpening(s, pipe, address, numBytes);
    assert s4.regs[FEATURE] == s.regs[FEATURE];
    OpenedSteps(s, pipe, address, numBytes, enAutoAck, enDynAck);
  }

  /** openRXPipe leaves the other pipes' enable, auto-ACK, dynamic length and static length settings alone. */
  lemma OpenRXPipeKeepsOtherPipes(s: State, pipe: bv8, address: seq<bv8>, numBytes: bv8, enAutoAck: bool, enDynAck: bool, other: bv8)
    requires Valid(s) && |address| >= ADDRESS_WIDTH && pipe <= 5 && other <= 5 && other != pipe
    ensures var t := RxPipeOpened(s, pipe, address, numBytes, enAutoAck, enDynAck);
      && (t.regs[EN_RXADDR] & PipeMask(other) != 0) == (s.regs[EN_RXADDR] & PipeMask(other) != 0)
      && (t.regs[EN_AA] & PipeMask(other) != 0) == (s.regs[EN_AA] & PipeMask(other) != 0)
      && (t.regs[DYNPD] & PipeMask(other) != 0) == (s.regs[DYNPD] & PipeMask(other) != 0)
      && t.regs[RX_PW_P0 + other as nat] == s.regs[RX_PW_P0 + other as nat]
  {
    var s4 := PipeOpening(s, pipe, address, numBytes);
    OpeningKeepsOtherPipes(s, pipe, address, numBytes, other);
    OtherPipesKept(s4.regs[EN_AA], pipe, enAutoAck, other);
    AckStepRegs(s, pipe, address, numBytes, enAutoAck, enDynAck, EN_RXADDR);
    AckStepRegs(s, pipe, address, numBytes, enAutoAck, enDynAck, DYNPD);
    AckStepRegs(s, pipe, address, numBytes, enAutoAck, enDynAck, RX_PW_P0 + other as nat);
    OpenedSteps(s, pipe, address, numBytes, enAutoAck, enDynAck);
  }

  /** The auto-ACK steps of openRXPipe change only EN_AA and FEATURE. */
  lemma AckStepRegs(s: State, pipe: bv8, address: seq<bv8>, numBytes: bv8, enAutoAck: bool, enDynAck: bool, r: nat)
    requires Valid(s) && |address| >= ADDRESS_WIDTH && r < REGISTER_COUNT && r != EN_AA && r != FEATURE
    ensures RxPipeOpened(s, pipe, address, numBytes, enAutoAck, enDynAck).regs[r] == PipeOpening(s, pipe, address, numBytes).regs[r]
  {
    OpenedSteps(s, pipe, address, numBytes, enAutoAck, enDynAck);
  }

  /** The first four steps of openRXPipe leave the other pipes alone. */
  lemma OpeningKeepsOtherPipes(s: State, pipe: bv8, address: seq<bv8>, numBytes: bv8, other: bv8)
    requires Valid(s) && |address| >= ADDRESS_WIDTH && pipe <= 5 && other <= 5 && other != pipe
    ensures var t := PipeOpening(s, pipe, address, numBytes);
      && (t.regs[EN_RXADDR] & PipeMask(other) != 0) == (s.regs[EN_RXADDR] & PipeMask(other) != 0)
      && t.regs[EN_AA] == s.regs[EN_AA]
      && (t.regs[DYNPD] & PipeMask(other) != 0) == (s.regs[DYNPD] & PipeMask(other) != 0)
      && t.regs[RX_PW_P0 + other as nat] == s.regs[RX_PW_P0 + other as nat]
  {
    RxAddressSettings(s, pipe, address);
    var s1 := RxAddressed(s, pipe, address, ADDRESS_WIDTH);
    OtherPipesKept(s1.regs[EN_RXADDR], pipe, true, other);
    var s2 := PipeBitSet(s1, EN_RXADDR, pipe, true);
    OtherPipesKept(s2.regs[DYNPD], pipe, false, other);
  }

  /**
   * openRXPipe on a pipe number above 5 touches no pipe, but still sets
   * EN_DYN_ACK when auto-ACK and dynamic ACK were asked.
   */
  lemma OpenRXPipeOnMissingPipe(s: State, pipe: bv8, address: seq<bv8>, numBytes: bv8, enAutoAck: bool, enDynAck: bool)
    requires Valid(s) && |address| >= ADDRESS_WIDTH && pipe > 5
    ensures RxPipeOpened(s, pipe, address, numBytes, enAutoAck, enDynAck)
         == if enAutoAck && enDynAck then FeatureSet(s, EN_DYN_ACK) else s
  {
    OpenedSteps(s, pipe, address, numBytes, enAutoAck, enDynAck);
  }

  /**
   * openTXPipe: TX_ADDR holds the address; with auto-ACK pipe 0 listens on
   * the same address, which is where the acknowledgements come back, and
   * gets the static length. EN_ACK_PAY and EN_DPL are never touched.
   */
  lemma OpenTXPipeMirrors(s: State, address: seq<bv8>, numBytes: bv8, enAutoAck: bool, enDynAck: bool)
    requires Valid(s) && |address| >= ADDRESS_WIDTH
    ensures var t := TxPipeOpened(s, address, numBytes, enAutoAck, enDynAck);
      && t.txAddr == AirAddress(address)
      && (enAutoAck ==> t.rxAddr0 == t.txAddr)
      && (enAutoAck ==> t.regs[EN_AA] & PipeMask(0) != 0 && t.regs[EN_RXADDR] & PipeMask(0) != 0)
      && (enAutoAck ==> t.regs[DYNPD] & PipeMask(0) == 0 && t.regs[RX_PW_P0] == ClampPayload(numBytes))
      && (!enAutoAck ==> t.regs == s.regs && t.rxAddr0 == s.rxAddr0)
      && t.regs[FEATURE] & (EN_ACK_PAY | EN_DPL) == s.regs[FEATURE] & (EN_ACK_PAY | EN_DPL)
  {
    var s1 := WriteRegister(s, TX_ADDR, AirAddress(address));
    WideWrite(s, TX_ADDR, AirAddress(address));
    if enAutoAck {
      OpenRXPipeSettings(s1, 0, address, numBytes, true, enDynAck);
      var t := RxPipeOpened(s1, 0, address, numBytes, true, enDynAck);
      assert t.regs[FEATURE] == s.regs[FEATURE] || t.regs[FEATURE] == s.regs[FEATURE] | EN_DYN_ACK by {
        OpenedSteps(s1, 0, address, numBytes, true, enDynAck);
      }
    }
  }

  /** The first four steps of openDynamicRXPipe on pipes 0 to 5. */
  lemma DynamicOpeningSettings(s: State, pipe: bv8, address: seq<bv8>)
    requires Valid(s) && |address| >= ADDRESS_WIDTH && pipe <= 5
    ensures var t := DynamicOpening(s, pipe, address);
      && t.regs[EN_RXADDR] & PipeMask(pipe) != 0
      && t.regs[EN_AA] & PipeMask(pipe) != 0
      && t.regs[DYNPD] & PipeMask(pipe) != 0
      && t.regs[RX_PW_P0 + pipe as nat] == MAX_PAYLOAD as bv8
      && t.regs[FEATURE] == s.regs[FEATURE] | EN_DPL
      && t.regs[CONFIG] == s.regs[CONFIG]
      && (pipe < 2 ==> Wide(t, RX_ADDR_P0 + pipe as nat) == AirAddress(address))
      && (pipe >= 2 ==> t.regs[RX_ADDR_P0 + pipe as nat] == address[ADDRESS_WIDTH - 1])
      && t.rxFifo == s.rxFifo && t.txFifo == s.txFifo
  {
    RxAddressSettings(s, pipe, address);
  }

  /**
   * openDynamicRXPipe on pipes 0 to 5: the pipe's address, the pipe enabled
   * with auto-ACK and dynamic payload length (EN_DPL on), EN_ACK_PAY as
   * asked, and EN_DYN_ACK set when asked. An ACK payload is therefore never
   * enabled without dynamic payload length, as the chip requires.
   */
  lemma DynamicRxPipeSettings(s: State, pipe: bv8, address: seq<bv8>, enAckPayload: bool, enDynAck: bool)
    requires Valid(s) && |address| >= ADDRESS_WIDTH && pipe <= 5
    ensures var t := DynamicRxPipeOpened(s, pipe, address, enAckPayload, enDynAck);
      && t.regs[EN_RXADDR] & PipeMask(pipe) != 0
      && t.regs[EN_AA] & PipeMask(pipe) != 0
      && t.regs[DYNPD] & PipeMask(pipe) != 0
      && t.regs[RX_PW_P0 + pipe as nat] == MAX_PAYLOAD as bv8
      && t.regs[FEATURE] & EN_DPL != 0
      && (t.regs[FEATURE] & EN_ACK_PAY != 0) == enAckPayload
      && (t.regs[FEATURE] & EN_DYN_ACK != 0) == (enDynAck || s.regs[FEATURE] & EN_DYN_ACK != 0)
      && t.regs[CONFIG] == s.regs[CONFIG]
      && (pipe < 2 ==> Wide(t, RX_ADDR_P0 + pipe as nat) == AirAddress(address))
      && (pipe >= 2 ==> t.regs[RX_ADDR_P0 + pipe as nat] == address[ADDRESS_WIDTH - 1])
      && t.rxFifo == s.rxFifo && t.txFifo == s.txFifo
  {
    DynamicOpeningSettings(s, pipe, address);
    var d := DynamicOpening(s, pipe, address);
    FeatureTail(d, enAckPayload, enDynAck);
    OrKeepsDynAck(s.regs[FEATURE]);
  }

  /** The FEATURE writes that end openDynamicRXPipe touch FEATURE alone: EN_DPL stays, EN_ACK_PAY is as asked, EN_DYN_ACK is set when asked. */
  lemma FeatureTail(d: State, enAckPayload: bool, enDynAck: bool)
    requires Valid(d) && d.regs[FEATURE] & EN_DPL != 0
    ensures var t := DynamicAckSet(AckPayloadSet(d, enAckPayload), enDynAck);
      && (forall q :: 0 <= q < REGISTER_COUNT && q != FEATURE ==> t.regs[q] == d.regs[q])
      && t.rxFifo == d.rxFifo && t.txFifo == d.txFifo
      && t.rxAddr0 == d.rxAddr0 && t.rxAddr1 == d.rxAddr1 && t.txAddr == d.txAddr
      && t.regs[FEATURE] & EN_DPL != 0
      && (t.regs[FEATURE] & EN_ACK_PAY != 0) == enAckPayload
      && (t.regs[FEATURE] & EN_DYN_ACK != 0) == (enDynAck || d.regs[FEATURE] & EN_DYN_ACK != 0)
  {
    var a := AckPayloadSet(d, enAckPayload);
    var f := d.regs[FEATURE];
    assert a.regs[FEATURE] == if enAckPayload then f | EN_DPL | EN_ACK_PAY else f & !EN_ACK_PAY;
    FeatureBits(f, enAckPayload, enDynAck);
  }

  /** The bit arithmetic of enableAckPayload/disableAckPayload followed by enableDynamicAck. */
  lemma FeatureBits(f: bv8, ack: bool, dyn: bool)
    requires f & EN_DPL != 0
    ensures var a := if ack then f | EN_DPL | EN_ACK_PAY else f & !EN_ACK_PAY;
      var g := if dyn then a | EN_DYN_ACK else a;
      && g & EN_DPL != 0
      && (g & EN_ACK_PAY != 0) == ack
      && (g & EN_DYN_ACK != 0) == (dyn || f & EN_DYN_ACK != 0)
  {
  }

  /** Setting EN_DPL leaves EN_DYN_ACK as it was. */
  lemma OrKeepsDynAck(f: bv8)
    ensures (f | EN_DPL) & EN_DYN_ACK == f & EN_DYN_ACK
  {
  }

  /** openDynamicRXPipe on a pipe number above 5 touches no pipe, but still sets the FEATURE bits asked for. */
  lemma DynamicRxPipeOnMissingPipe(s: State, pipe: bv8, address: seq<bv8>, enAckPayload: bool, enDynAck: bool)
    requires Valid(s) && |address| >= ADDRESS_WIDTH && pipe > 5
    ensures DynamicRxPipeOpened(s, pipe, address, enAckPayload, enDynAck)
         == DynamicAckSet(AckPayloadSet(s, enAckPayload), enDynAck)
  {
  }

  /**
   * A payload that arrives on a dynamically opened pipe of a listening chip
   * with an empty RX FIFO is what readRXData then reports: the pipe, the
   * exact length and the bytes.
   */
  lemma DynamicPipeReadsExactly(s: State, pipe: bv8, address: seq<bv8>, enAckPayload: bool, enDynAck: bool, data: seq<bv8>)
    requires Valid(s) && |address| >= ADDRESS_WIDTH && pipe <= 5 && 1 <= |data| <= MAX_PAYLOAD
    requires Listening(s) && s.rxFifo == []
    ensures var u := Receive(DynamicRxPipeOpened(s, pipe, address, enAckPayload, enDynAck), pipe as nat, data);
      && u.rxFifo == [RxPayload(pipe as nat, data)]
      && RxLength(u) as nat == |data|
      && RxHead(u, |data|) == data
  {
    DynamicRxPipeSettings(s, pipe, address, enAckPayload, enDynAck);
    ReceiveOnDynamicPipe(DynamicRxPipeOpened(s, pipe, address, enAckPayload, enDynAck), pipe, data);
  }

  /** A payload received into an empty RX FIFO on an enabled pipe with dynamic length reads back exactly. */
  lemma ReceiveOnDynamicPipe(t: State, pipe: bv8, data: seq<bv8>)
    requires Valid(t) && pipe <= 5 && 1 <= |data| <= MAX_PAYLOAD
    requires Listening(t) && t.rxFifo == []
    requires t.regs[EN_RXADDR] & PipeMask(pipe) != 0 && t.regs[DYNPD] & PipeMask(pipe) != 0
    requires t.regs[FEATURE] & EN_DPL != 0
    ensures var u := Receive(t, pipe as nat, data);
      && u.rxFifo == [RxPayload(pipe as nat, data)]
      && RxLength(u) as nat == |data|
      && RxHead(u, |data|) == data
  {
    MaskShift(pipe);
    var u := Receive(t, pipe as nat, data);
    assert (pipe as nat) as bv8 == pipe;
    RxLengthMeaning(u);
  }

  /** PipeMask as the chip's shift by a pipe number. */
  lemma MaskShift(pipe: bv8)
    requires pipe <= 5
    ensures (1 as bv8) << pipe as nat == PipeMask(pipe)
  {
    if pipe == 0 {
    } else if pipe == 1 {
    } else if pipe == 2 {
    } else if pipe == 3 {
    } else if pipe == 4 {
    } else {
      assert pipe == 5;
    }
  }

  /** The length readRXData reports is exact for a pipe with dynamic payload length, the static one otherwise. */
  lemma RxLengthMeaning(s: State)
    requires Valid(s) && s.rxFifo != []
    ensures var p := s.rxFifo[0].pipe as bv8;
      && (s.regs[DYNPD] & PipeMask(p) != 0 ==> RxLength(s) as nat == |s.rxFifo[0].data|)
      && (s.regs[DYNPD] & PipeMask(p) != 0 ==> RxHead(s, RxLength(s) as nat) == s.rxFifo[0].data)
      && (s.regs[DYNPD] & PipeMask(p) == 0 ==> RxLength(s) == s.regs[RX_PW_P0 + s.rxFifo[0].pipe])
  {
    var n := |s.rxFifo[0].data|;
    if s.regs[DYNPD] & PipeMask(s.rxFifo[0].pipe as bv8) != 0 {
      ByteRoundTrip(n);
      RxHeadIsPayload(s, n);
    }
  }

  /**
   * init: powered up, the channel (capped at 125), the data rate, full
   * output power, the address width, the CRC length, and 15 retries 500 us
   * apart; the FIFOs and the addresses are untouched.
   */
  lemma InitSettings(s: State, channel: bv8, rate: bv8, width: bv8, crc: bv8)
    requires Valid(s)
    ensures var t := Initialized(s, channel, rate, width, crc);
      && t.regs[CONFIG] & PWR_UP != 0
      && t.regs[RF_CH] == ClampChannel(channel)
      && RateOf(t.regs[RF_SETUP]) == (if rate <= RATE_2_MBPS then rate else RATE_2_MBPS)
      && PowerOf(t.regs[RF_SETUP]) == MAX_POWER
      && WidthOf(t.regs[SETUP_AW]) == ClampWidth(width)
      && CrcLength(t.regs[CONFIG], t.regs[EN_AA])
         == (if crc == 0 then (if s.regs[EN_AA] == 0 then 0 else 1) else if crc == 1 then 1 else 2)
      && RetryBudget(t) == MAX_RETRIES as nat
      && RetransmitDelay(t) == 500
      && t.rxFifo == s.rxFifo && t.txFifo == s.txFifo && t.reuse == s.reuse
      && t.txAddr == s.txAddr && t.rxAddr0 == s.rxAddr0 && t.rxAddr1 == s.rxAddr1
  {
    var s1 := PoweredUp(s);
    var s2 := Poked(s1, RF_CH, ClampChannel(channel));
    var s3 := Poked(s2, RF_SETUP, RateBits(s2.regs[RF_SETUP], rate));
    var s4 := Poked(s3, RF_SETUP, PowerBits(s3.regs[RF_SETUP], MAX_POWER));
    var s5 := Poked(s4, SETUP_AW, WidthCode(width));
    var s6 := Poked(s5, CONFIG, CrcBits(s5.regs[CONFIG], crc));
    RateRoundTrip(s2.regs[RF_SETUP], rate);
    PowerRoundTrip(s3.regs[RF_SETUP], MAX_POWER);
    RateAndPowerIndependent(s3.regs[RF_SETUP], rate, MAX_POWER);
    WidthRoundTrip(width);
    CrcRoundTrip(s5.regs[CONFIG], crc, s.regs[EN_AA]);
    assert CrcBits(s5.regs[CONFIG], crc) & PWR_UP == s5.regs[CONFIG] & PWR_UP;
    RetriesReadBack(s6, INIT_DELAY_US, INIT_RETRIES);
  }

  /**
   * What the wait in writeTXData ends on. A payload sent without an ACK
   * request, or with auto-acknowledgement off on pipe 0, ends at once with
   * TX_DS and no retransmission. Otherwise TX_DS rises when the payload was
   * acknowledged within the retry budget and the chip could see the
   * acknowledgement (RX_ADDR_P0 equal to TX_ADDR); MAX_RT rises otherwise. getRetryCount then
   * reads the retransmissions used, all of the budget on a loss. A sent
   * payload leaves the TX FIFO; a lost one stays queued.
   */
  lemma WriteTXDataOutcome(s: State, payload: seq<bv8>, getAck: bool, air: Air)
    requires Valid(s) && CanTransmit(Loaded(s, payload, getAck))
    ensures var loaded := Loaded(s, payload, getAck);
      var t := Transmit(loaded, air);
      var blind := !getAck || !AutoAckOn(s);
      var ok := blind || (air.Delivered? && air.retries <= RetryBudget(s) && AckMatch(s));
      && (Flags(t) & TX_DS != 0) == ok
      && (Flags(t) & MAX_RT != 0) == !ok
      && (t.regs[OBSERVE_TX] & 0x0F) as nat == (if blind then 0 else if ok then air.retries else RetryBudget(s))
      && t.txFifo == (if ok then [] else loaded.txFifo)
  {
    var loaded := Loaded(s, payload, getAck);
    LoadedQueue(s, payload, getAck);
    assert RetryBudget(loaded) == RetryBudget(s);
    assert loaded.regs[EN_AA] == s.regs[EN_AA];
    assert NoAckHead(loaded) == !getAck;
    TransmitRaisesOneFlag(loaded, air);
    RetriesRecorded(loaded, air);
  }

  class Nrf24l01p {
    /** The SPI port with the CSN and CE lines. */
    const bus: Bus

    /** CSN is high and the bus is consistent: no bracket is open between calls. */
    ghost predicate Idle()
      reads bus
    {
      bus.Valid() && !bus.selected
    }

    /** The constructor and SPI_Init: CSN high, CE low. */
    constructor (s: State)
      requires Nrf24Chip.Valid(s)
      ensures fresh(bus) && Idle() && !bus.ce
      ensures bus.chip == s && bus.trace == []
    {
      bus := new Bus(s);
    }

    // ------------------------------------------------ read-modify-writes

    /** `SPI_Write_Byte(reg, SPI_Read_Byte(reg) | bits)`. */
    method SetBits(reg: nat, bits: bv8)
      requires Idle() && IsPlain(reg)
      modifies bus
      ensures Idle() && bus.ce == old(bus.ce)
      ensures bus.chip == Poked(old(bus.chip), reg, old(bus.chip).regs[reg] | bits)
      ensures bus.trace == WithRmw(old(bus.trace), reg, old(bus.chip).regs[reg] | bits)
    {
      var v := Read(reg);
      Write(reg, v | bits);
    }

    /** `SPI_Write_Byte(reg, SPI_Read_Byte(reg) & ~bits)`. */
    method ClearBits(reg: nat, bits: bv8)
      requires Idle() && IsPlain(reg)
      modifies bus
      ensures Idle() && bus.ce == old(bus.ce)
      ensures bus.chip == Poked(old(bus.chip), reg, old(bus.chip).regs[reg] & !bits)
      ensures bus.trace == WithRmw(old(bus.trace), reg, old(bus.chip).regs[reg] & !bits)
    {
      var v := Read(reg);
      Write(reg, v & !bits);
    }

    /** A plain register read; the chip does not change. */
    method Read(reg: nat) returns (v: bv8)
      requires Idle() && IsPlain(reg)
      modifies bus
      ensures Idle() && bus.ce == old(bus.ce) && bus.chip == old(bus.chip)
      ensures v == old(bus.chip).regs[reg]
      ensures bus.trace == old(bus.trace) + [Peek(reg)]
    {
      PlainRead(bus.chip, reg);
      v := ReadByte(bus, reg);
    }

    /** A plain register write. */
    method Write(reg: nat, v: bv8)
      requires Idle() && IsPlain(reg)
      modifies bus
      ensures Idle() && bus.ce == old(bus.ce)
      ensures bus.chip == Poked(old(bus.chip), reg, v)
      ensures bus.trace == old(bus.trace) + [Poke(reg, v)]
    {
      WriteByte(bus, reg, v);
    }

    // ------------------------------------------------------ power, modes

    /** isPoweredUp: CONFIG's PWR_UP bit. */
    method IsPoweredUp() returns (up: bool)
      requires Idle()
      modifies bus
      ensures Idle() && bus.ce == old(bus.ce) && bus.chip == old(bus.chip)
      ensures up <==> old(bus.chip).regs[CONFIG] & PWR_UP != 0
      ensures bus.trace == old(bus.trace) + [Peek(CONFIG)]
    {
      var c := Read(CONFIG);
      up := c & PWR_UP != 0;
    }

    /**
     * powerUp: when PWR_UP is clear, CE low and PWR_UP set; when it is
     * already set, only the check's read goes out. The start-up delay is
     * not modelled.
     */
    method PowerUp()
      requires Idle()
      modifies bus
      ensures Idle()
      ensures bus.chip == Poked(old(bus.chip), CONFIG, old(bus.chip).regs[CONFIG] | PWR_UP)
      ensures bus.ce == (old(bus.ce) && old(bus.chip).regs[CONFIG] & PWR_UP != 0)
      ensures old(bus.chip).regs[CONFIG] & PWR_UP != 0 ==> bus.trace == old(bus.trace) + [Peek(CONFIG)]
      ensures old(bus.chip).regs[CONFIG] & PWR_UP == 0 ==>
        bus.trace == WithRmw(old(bus.trace) + [Peek(CONFIG)] + [ChipEnable(false)], CONFIG, old(bus.chip).regs[CONFIG] | PWR_UP)
    {
      ghost var s := bus.chip;
      var up := IsPoweredUp();
      if !up {
        bus.SetCE(false);
        SetBits(CONFIG, PWR_UP);
      } else {
        assert s.regs[CONFIG] | PWR_UP == s.regs[CONFIG];
        PokeSame(s, CONFIG);
      }
    }

    /** powerDown: CE low, PWR_UP cleared. */
    method PowerDown()
      requires Idle()
      modifies bus
      ensures Idle() && !bus.ce
      ensures bus.chip == Poked(old(bus.chip), CONFIG, old(bus.chip).regs[CONFIG] & !PWR_UP)
      ensures bus.trace == WithRmw(old(bus.trace) + [ChipEnable(false)], CONFIG, old(bus.chip).regs[CONFIG] & !PWR_UP)
    {
      bus.SetCE(false);
      ClearBits(CONFIG, PWR_UP);
    }

    /**
     * setModeRX: CE low, PRIM_RX set, the IRQ flags reset. CE stays low and
     * PWR_UP is left as it was: the flushes, masks and CE high are commented
     * out in the class.
     */
    method SetModeRX()
      requires Idle()
      modifies bus
      ensures Idle() && !bus.ce
      ensures bus.chip == ClearFlags(Poked(old(bus.chip), CONFIG, old(bus.chip).regs[CONFIG] | PRIM_RX))
      ensures bus.trace
        == WithRmw(old(bus.trace) + [ChipEnable(false)], CONFIG, old(bus.chip).regs[CONFIG] | PRIM_RX) + [Poke(STATUS, IRQ_FLAGS)]
    {
      bus.SetCE(false);
      SetBits(CONFIG, PRIM_RX);
      ResetFlags(bus);
    }

    /** setModeTX: CE low, PRIM_RX cleared, the IRQ flags reset. */
    method SetModeTX()
      requires Idle()
      modifies bus
      ensures Idle() && !bus.ce
      ensures bus.chip == ClearFlags(Poked(old(bus.chip), CONFIG, old(bus.chip).regs[CONFIG] & !PRIM_RX))
      ensures bus.trace
        == WithRmw(old(bus.trace) + [ChipEnable(false)], CONFIG, old(bus.chip).regs[CONFIG] & !PRIM_RX) + [Poke(STATUS, IRQ_FLAGS)]
    {
      bus.SetCE(false);
      ClearBits(CONFIG, PRIM_RX);
      ResetFlags(bus);
    }

    /** startListening: CE high. */
    method StartListening()
      requires Idle()
      modifies bus
      ensures Idle() && bus.ce && bus.chip == old(bus.chip)
      ensures bus.trace == old(bus.trace) + [ChipEnable(true)]
    {
      bus.SetCE(true);
    }

    /** stopListening: CE low. */
    method StopListening()
      requires Idle()
      modifies bus
      ensures Idle() && !bus.ce && bus.chip == old(bus.chip)
      ensures bus.trace == old(bus.trace) + [ChipEnable(false)]
    {
      bus.SetCE(false);
    }

    // --------------------------------------------------------- status

    /** getStatus: a lone NOP; the byte shifted in is STATUS. */
    method GetStatus() returns (status: bv8)
      requires Idle()
      modifies bus
      ensures Idle() && bus.ce == old(bus.ce) && bus.chip == old(bus.chip)
      ensures status == StatusByte(old(bus.chip))
      ensures bus.trace == old(bus.trace) + [Bracket([NOP])]
    {
      status := NodeDriver.GetStatus(bus);
    }

    /** maskIRQ: the three MASK bits of CONFIG rewritten in one read-modify-write. */
    method MaskIRQ(rxReady: bool, txDone: bool, maxRetry: bool)
      requires Idle()
      modifies bus
      ensures Idle() && bus.ce == old(bus.ce)
      ensures bus.chip == Poked(old(bus.chip), CONFIG, MaskBits(old(bus.chip).regs[CONFIG], rxReady, txDone, maxRetry))
      ensures bus.trace == WithRmw(old(bus.trace), CONFIG, MaskBits(old(bus.chip).regs[CONFIG], rxReady, txDone, maxRetry))
    {
      var config := Read(CONFIG);
      Write(CONFIG, MaskBits(config, rxReady, txDone, maxRetry));
    }

    /** getIRQStatus: the three flags, and whether any of them is raised. */
    method GetIRQStatus() returns (any: bool, rxReady: bool, txDone: bool, maxRetry: bool)
      requires Idle()
      modifies bus
      ensures Idle() && bus.ce == old(bus.ce) && bus.chip == old(bus.chip)
      ensures rxReady <==> Flags(old(bus.chip)) & RX_DR != 0
      ensures txDone <==> Flags(old(bus.chip)) & TX_DS != 0
      ensures maxRetry <==> Flags(old(bus.chip)) & MAX_RT != 0
      ensures any <==> Flags(old(bus.chip)) != 0
      ensures any <==> rxReady || txDone || maxRetry
      ensures bus.trace == old(bus.trace) + [Bracket([NOP])]
    {
      var status := GetStatus();
      StatusShowsFlags(bus.chip);
      rxReady := status & RX_DR != 0;
      txDone := status & TX_DS != 0;
      maxRetry := status & MAX_RT != 0;
      any := status & IRQ_FLAGS != 0;
    }

    /** resetIRQFlags: 0x70 to STATUS. */
    method ResetIRQFlags()
      requires Idle()
      modifies bus
      ensures Idle() && bus.ce == old(bus.ce)
      ensures bus.chip == ClearFlags(old(bus.chip))
      ensures bus.trace == old(bus.trace) + [Poke(STATUS, IRQ_FLAGS)]
    {
      ResetFlags(bus);
    }

    /** flushRX. */
    method FlushRX()
      requires Idle()
      modifies bus
      ensures Idle() && bus.ce == old(bus.ce)
      ensures bus.chip == old(bus.chip).(rxFifo := [])
      ensures bus.trace == old(bus.trace) + [Bracket([FLUSH_RX])]
    {
      FlushRx(bus);
    }

    /** flushTX. */
    method FlushTX()
      requires Idle()
      modifies bus
      ensures Idle() && bus.ce == old(bus.ce)
      ensures bus.chip == old(bus.chip).(txFifo := [], reuse := false)
      ensures bus.trace == old(bus.trace) + [Bracket([FLUSH_TX])]
    {
      FlushTx(bus);
    }

    /** reuseTX: REUSE_TX_PL; the last payload is sent again until the next flush or write. */
    method ReuseTX()
      requires Idle()
      modifies bus
      ensures Idle() && bus.ce == old(bus.ce)
      ensures bus.chip == old(bus.chip).(reuse := true)
      ensures bus.trace == old(bus.trace) + [Bracket([REUSE_TX_PL])]
    {
      var _ := bus.Command(REUSE_TX_PL);
    }

    /** isSending: 0 exactly when TX_DS or MAX_RT is raised. */
    method IsSending() returns (r: bv8)
      requires Idle()
      modifies bus
      ensures Idle() && bus.ce == old(bus.ce) && bus.chip == old(bus.chip)
      ensures r == 0 <==> Flags(old(bus.chip)) & (TX_DS | MAX_RT) != 0
      ensures r == 1 <==> Flags(old(bus.chip)) & (TX_DS | MAX_RT) == 0
      ensures bus.trace == old(bus.trace) + [Bracket([NOP])]
    {
      r := NodeDriver.IsSending(bus);
    }

    /** A FIFO_STATUS read; the chip does not change. */
    method FifoStatusByte() returns (v: bv8)
      requires Idle()
      modifies bus
      ensures Idle() && bus.ce == old(bus.ce) && bus.chip == old(bus.chip)
      ensures v == FifoStatus(old(bus.chip))
      ensures bus.trace == old(bus.trace) + [Peek(FIFO_STATUS)]
    {
      v := ReadByte(bus, FIFO_STATUS);
      FifoStatusBits(bus.chip);
    }

    /** RXFifoFull. */
    method RXFifoFull() returns (full: bool)
      requires Idle()
      modifies bus
      ensures Idle() && bus.ce == old(bus.ce) && bus.chip == old(bus.chip)
      ensures full <==> |old(bus.chip).rxFifo| == FIFO_DEPTH
      ensures bus.trace == old(bus.trace) + [Peek(FIFO_STATUS)]
    {
      var v := FifoStatusByte();
      FifoStatusBits(bus.chip);
      full := v & RX_FULL != 0;
    }

    /** RXFifoEmpty. */
    method RXFifoEmpty() returns (empty: bool)
      requires Idle()
      modifies bus
      ensures Idle() && bus.ce == old(bus.ce) && bus.chip == old(bus.chip)
      ensures empty <==> old(bus.chip).rxFifo == []
      ensures bus.trace == old(bus.trace) + [Peek(FIFO_STATUS)]
    {
      var v := FifoStatusByte();
      FifoStatusBits(bus.chip);
      empty := v & RX_EMPTY != 0;
    }

    /** TXFifoFull. */
    method TXFifoFull() returns (full: bool)
      requires Idle()
      modifies bus
      ensures Idle() && bus.ce == old(bus.ce) && bus.chip == old(bus.chip)
      ensures full <==> |old(bus.chip).txFifo| == FIFO_DEPTH
      ensures bus.trace == old(bus.trace) + [Peek(FIFO_STATUS)]
    {
      var v := FifoStatusByte();
      FifoStatusBits(bus.chip);
      full := v & FIFO_FULL != 0;
    }

    /** TXFifoEmpty. */
    method TXFifoEmpty() returns (empty: bool)
      requires Idle()
      modifies bus
      ensures Idle() && bus.ce == old(bus.ce) && bus.chip == old(bus.chip)
      ensures empty <==> old(bus.chip).txFifo == []
      ensures bus.trace == old(bus.trace) + [Peek(FIFO_STATUS)]
    {
      var v := FifoStatusByte();
      FifoStatusBits(bus.chip);
      empty := v & TX_EMPTY != 0;
    }

    /** dataAvailable: RX_EMPTY clear. */
    method DataAvailable() returns (available: bool)
      requires Idle()
      modifies bus
      ensures Idle() && bus.ce == old(bus.ce) && bus.chip == old(bus.chip)
      ensures available <==> old(bus.chip).rxFifo != []
      ensures bus.trace == old(bus.trace) + [Peek(FIFO_STATUS)]
    {
      var v := FifoStatusByte();
      FifoStatusBits(bus.chip);
      available := v & RX_EMPTY == 0;
    }

    /** getRXPipeNumber: RX_P_NO out of STATUS, 7 with the RX FIFO empty. */
    method GetRXPipeNumber() returns (pipe: bv8)
      requires Idle()
      modifies bus
      ensures Idle() && bus.ce == old(bus.ce) && bus.chip == old(bus.chip)
      ensures pipe == RxPipeNumber(old(bus.chip))
      ensures old(bus.chip).rxFifo != [] ==> pipe as nat == old(bus.chip).rxFifo[0].pipe
      ensures bus.trace == old(bus.trace) + [Bracket([NOP])]
    {
      var status := GetStatus();
      PipeNumberField(bus.chip);
      pipe := (status >> 1) & 0x07;
    }

    // ------------------------------------------------------------ setup

    /** setChannel: RF_CH written with the channel clamped to 125. */
    method SetChannel(channel: bv8)
      requires Idle()
      modifies bus
      ensures Idle() && bus.ce == old(bus.ce)
      ensures bus.chip == Poked(old(bus.chip), RF_CH, ClampChannel(channel))
      ensures bus.trace == old(bus.trace) + [Poke(RF_CH, ClampChannel(channel))]
    {
      Write(RF_CH, ClampChannel(channel));
    }

    /** getChannel. */
    method GetChannel() returns (channel: bv8)
      requires Idle()
      modifies bus
      ensures Idle() && bus.ce == old(bus.ce) && bus.chip == old(bus.chip)
      ensures channel == Reg(old(bus.chip), RF_CH)
      ensures bus.trace == old(bus.trace) + [Peek(RF_CH)]
    {
      channel := Read(RF_CH);
    }

    /** setAddressWidth: the width clamped into 3..5, written as width - 2. */
    method SetAddressWidth(width: bv8)
      requires Idle()
      modifies bus
      ensures Idle() && bus.ce == old(bus.ce)
      ensures bus.chip == Poked(old(bus.chip), SETUP_AW, WidthCode(width))
      ensures bus.trace == old(bus.trace) + [Poke(SETUP_AW, WidthCode(width))]
    {
      Write(SETUP_AW, WidthCode(width));
    }

    /** getAddressWidth: SETUP_AW plus two. */
    method GetAddressWidth() returns (width: bv8)
      requires Idle()
      modifies bus
      ensures Idle() && bus.ce == old(bus.ce) && bus.chip == old(bus.chip)
      ensures width == WidthOf(old(bus.chip).regs[SETUP_AW])
      ensures bus.trace == old(bus.trace) + [Peek(SETUP_AW)]
    {
      var code := Read(SETUP_AW);
      width := WidthOf(code);
    }

    /** setCRCLength: EN_CRC and CRCO rewritten in one read-modify-write of CONFIG. */
    method SetCRCLength(length: bv8)
      requires Idle()
      modifies bus
      ensures Idle() && bus.ce == old(bus.ce)
      ensures bus.chip == Poked(old(bus.chip), CONFIG, CrcBits(old(bus.chip).regs[CONFIG], length))
      ensures bus.trace == WithRmw(old(bus.trace), CONFIG, CrcBits(old(bus.chip).regs[CONFIG], length))
    {
      var config := Read(CONFIG);
      Write(CONFIG, CrcBits(config, length));
    }

    /** getCRCLength: CONFIG is read, and EN_AA only when EN_CRC is clear. */
    method GetCRCLength() returns (length: bv8)
      requires Idle()
      modifies bus
      ensures Idle() && bus.ce == old(bus.ce) && bus.chip == old(bus.chip)
      ensures length == CrcLength(old(bus.chip).regs[CONFIG], old(bus.chip).regs[EN_AA])
      ensures old(bus.chip).regs[CONFIG] & EN_CRC != 0 ==> bus.trace == old(bus.trace) + [Peek(CONFIG)]
      ensures old(bus.chip).regs[CONFIG] & EN_CRC == 0 ==> bus.trace == old(bus.trace) + [Peek(CONFIG)] + [Peek(EN_AA)]
    {
      var config := Read(CONFIG);
      var enAA: bv8 := 0;
      if config & EN_CRC == 0 {
        enAA := Read(EN_AA);
      }
      length := CrcLength(config, enAA);
    }

    /** disableCRC: EN_CRC cleared. */
    method DisableCRC()
      requires Idle()
      modifies bus
      ensures Idle() && bus.ce == old(bus.ce)
      ensures bus.chip == Poked(old(bus.chip), CONFIG, old(bus.chip).regs[CONFIG] & !EN_CRC)
      ensures bus.trace == WithRmw(old(bus.trace), CONFIG, old(bus.chip).regs[CONFIG] & !EN_CRC)
    {
      ClearBits(CONFIG, EN_CRC);
    }

    /** setRetries: ARD and ARC packed into SETUP_RETR in one write. */
    method SetRetries(delayUs: bv16, count: bv8)
      requires Idle()
      modifies bus
      ensures Idle() && bus.ce == old(bus.ce)
      ensures bus.chip == Poked(old(bus.chip), SETUP_RETR, RetrValue(delayUs, count))
      ensures bus.trace == old(bus.trace) + [Poke(SETUP_RETR, RetrValue(delayUs, count))]
    {
      Write(SETUP_RETR, RetrValue(delayUs, count));
    }

    /** getRetryCount: ARC_CNT, the retransmissions of the last payload. */
    method GetRetryCount() returns (n: bv8)
      requires Idle()
      modifies bus
      ensures Idle() && bus.ce == old(bus.ce) && bus.chip == old(bus.chip)
      ensures n == old(bus.chip).regs[OBSERVE_TX] & 0x0F
      ensures bus.trace == old(bus.trace) + [Peek(OBSERVE_TX)]
    {
      n := RetryCount(bus);
    }

    /** setPayloadLength: nothing for pipes above 5; otherwise RX_PW_Px written with the size clamped to 32. */
    method SetPayloadLength(pipe: bv8, size: bv8)
      requires Idle()
      modifies bus
      ensures Idle() && bus.ce == old(bus.ce)
      ensures bus.chip == PayloadLengthSet(old(bus.chip), pipe, size)
      ensures pipe > 5 ==> bus.trace == old(bus.trace)
      ensures pipe <= 5 ==> bus.trace == old(bus.trace) + [Poke(RX_PW_P0 + pipe as nat, ClampPayload(size))]
    {
      if pipe > 5 {
        return;
      }
      Write(RX_PW_P0 + pipe as nat, ClampPayload(size));
    }

    /** getPayloadLength: 0 without any SPI traffic for pipes above 5. */
    method GetPayloadLength(pipe: bv8) returns (size: bv8)
      requires Idle()
      modifies bus
      ensures Idle() && bus.ce == old(bus.ce) && bus.chip == old(bus.chip)
      ensures pipe > 5 ==> size == 0 && bus.trace == old(bus.trace)
      ensures pipe <= 5 ==> size == old(bus.chip).regs[RX_PW_P0 + pipe as nat]
      ensures pipe <= 5 ==> bus.trace == old(bus.trace) + [Peek(RX_PW_P0 + pipe as nat)]
    {
      if pipe > 5 {
        return 0;
      }
      size := Read(RX_PW_P0 + pipe as nat);
    }

    /**
     * getDynamicPayloadLength: `SPI_Read_Byte(R_RX_PL_WID)` sends R_REGISTER
     * + 0x60, which is the R_RX_PL_WID command itself; the byte clocked in
     * with the NOP is the width of the head payload (0 with the FIFO empty).
     */
    method GetDynamicPayloadLength() returns (width: bv8)
      requires Idle()
      modifies bus
      ensures Idle() && bus.ce == old(bus.ce) && bus.chip == old(bus.chip)
      ensures old(bus.chip).rxFifo != [] ==> width as nat == |old(bus.chip).rxFifo[0].data|
      ensures old(bus.chip).rxFifo == [] ==> width == 0
      ensures bus.trace == old(bus.trace) + [Bracket([R_RX_PL_WID, NOP])]
    {
      assert R_REGISTER + R_RX_PL_WID == R_RX_PL_WID;
      width := bus.Pair(R_REGISTER + R_RX_PL_WID, NOP);
    }

    /** setDataRate: RF_SETUP's rate bits rewritten in one read-modify-write. */
    method SetDataRate(rate: bv8)
      requires Idle()
      modifies bus
      ensures Idle() && bus.ce == old(bus.ce)
      ensures bus.chip == Poked(old(bus.chip), RF_SETUP, RateBits(old(bus.chip).regs[RF_SETUP], rate))
      ensures bus.trace == WithRmw(old(bus.trace), RF_SETUP, RateBits(old(bus.chip).regs[RF_SETUP], rate))
    {
      var v := Read(RF_SETUP);
      Write(RF_SETUP, RateBits(v, rate));
    }

    /** getDataRate. */
    method GetDataRate() returns (rate: bv8)
      requires Idle()
      modifies bus
      ensures Idle() && bus.ce == old(bus.ce) && bus.chip == old(bus.chip)
      ensures rate == RateOf(old(bus.chip).regs[RF_SETUP])
      ensures bus.trace == old(bus.trace) + [Peek(RF_SETUP)]
    {
      var v := Read(RF_SETUP);
      rate := RateOf(v);
    }

    /** setRFOutPower: RF_PWR rewritten with the level clamped to 3. */
    method SetRFOutPower(power: bv8)
      requires Idle()
      modifies bus
      ensures Idle() && bus.ce == old(bus.ce)
      ensures bus.chip == Poked(old(bus.chip), RF_SETUP, PowerBits(old(bus.chip).regs[RF_SETUP], power))
      ensures bus.trace == WithRmw(old(bus.trace), RF_SETUP, PowerBits(old(bus.chip).regs[RF_SETUP], power))
    {
      var v := Read(RF_SETUP);
      Write(RF_SETUP, PowerBits(v, power));
    }

    /** getRFOutPower. */
    method GetRFOutPower() returns (level: bv8)
      requires Idle()
      modifies bus
      ensures Idle() && bus.ce == old(bus.ce) && bus.chip == old(bus.chip)
      ensures level == PowerOf(old(bus.chip).regs[RF_SETUP])
      ensures bus.trace == old(bus.trace) + [Peek(RF_SETUP)]
    {
      var v := Read(RF_SETUP);
      level := PowerOf(v);
    }

    // --------------------------------------------------------- per pipe

    /** The read-modify-write the per-pipe setters share: bit `pipe` of `reg` set or cleared. */
    method UpdatePipe(reg: nat, pipe: bv8, on: bool)
      requires Idle() && IsPlain(reg) && pipe <= 5
      modifies bus
      ensures Idle() && bus.ce == old(bus.ce)
      ensures bus.chip == Poked(old(bus.chip), reg, WithPipe(old(bus.chip).regs[reg], pipe, on))
      ensures bus.trace == WithRmw(old(bus.trace), reg, WithPipe(old(bus.chip).regs[reg], pipe, on))
    {
      if on {
        SetBits(reg, 1 << pipe);
      } else {
        ClearBits(reg, 1 << pipe);
      }
    }

    /** enableAutoAck: nothing for pipes above 5, otherwise EN_AA's bit for the pipe set. */
    method EnableAutoAck(pipe: bv8)
      requires Idle()
      modifies bus
      ensures Idle() && bus.ce == old(bus.ce)
      ensures bus.chip == PipeBitSet(old(bus.chip), EN_AA, pipe, true)
      ensures pipe > 5 ==> bus.trace == old(bus.trace)
      ensures pipe <= 5 ==> bus.trace == WithRmw(old(bus.trace), EN_AA, WithPipe(old(bus.chip).regs[EN_AA], pipe, true))
    {
      if pipe > 5 {
        return;
      }
      UpdatePipe(EN_AA, pipe, true);
    }

    /** disableAutoAck. */
    method DisableAutoAck(pipe: bv8)
      requires Idle()
      modifies bus
      ensures Idle() && bus.ce == old(bus.ce)
      ensures bus.chip == PipeBitSet(old(bus.chip), EN_AA, pipe, false)
      ensures pipe > 5 ==> bus.trace == old(bus.trace)
      ensures pipe <= 5 ==> bus.trace == WithRmw(old(bus.trace), EN_AA, WithPipe(old(bus.chip).regs[EN_AA], pipe, false))
    {
      if pipe > 5 {
        return;
      }
      UpdatePipe(EN_AA, pipe, false);
    }

    /** enableRXAddress. */
    method EnableRXAddress(pipe: bv8)
      requires Idle()
      modifies bus
      ensures Idle() && bus.ce == old(bus.ce)
      ensures bus.chip == PipeBitSet(old(bus.chip), EN_RXADDR, pipe, true)
      ensures pipe > 5 ==> bus.trace == old(bus.trace)
      ensures pipe <= 5 ==> bus.trace == WithRmw(old(bus.trace), EN_RXADDR, WithPipe(old(bus.chip).regs[EN_RXADDR], pipe, true))
    {
      if pipe > 5 {
        return;
      }
      UpdatePipe(EN_RXADDR, pipe, true);
    }

    /** disableRXAddress. */
    method DisableRXAddress(pipe: bv8)
      requires Idle()
      modifies bus
      ensures Idle() && bus.ce == old(bus.ce)
      ensures bus.chip == PipeBitSet(old(bus.chip), EN_RXADDR, pipe, false)
      ensures pipe > 5 ==> bus.trace == old(bus.trace)
      ensures pipe <= 5 ==> bus.trace == WithRmw(old(bus.trace), EN_RXADDR, WithPipe(old(bus.chip).regs[EN_RXADDR], pipe, false))
    {
      if pipe > 5 {
        return;
      }
      UpdatePipe(EN_RXADDR, pipe, false);
    }

    /** closeRXPipe: disableRXAddress. */
    method CloseRXPipe(pipe: bv8)
      requires Idle()
      modifies bus
      ensures Idle() && bus.ce == old(bus.ce)
      ensures bus.chip == PipeBitSet(old(bus.chip), EN_RXADDR, pipe, false)
      ensures pipe > 5 ==> bus.trace == old(bus.trace)
      ensures pipe <= 5 ==> bus.trace == WithRmw(old(bus.trace), EN_RXADDR, WithPipe(old(bus.chip).regs[EN_RXADDR], pipe, false))
    {
      DisableRXAddress(pipe);
    }

    /**
     * enableDynamicPayloadLength: nothing for pipes above 5; otherwise EN_DPL
     * set in FEATURE, auto-ACK enabled for the pipe, and then its DYNPD bit.
     */
    method EnableDynamicPayloadLength(pipe: bv8)
      requires Idle()
      modifies bus
      ensures Idle() && bus.ce == old(bus.ce)
      ensures bus.chip == DynamicPipe(old(bus.chip), pipe)
      ensures pipe > 5 ==> bus.trace == old(bus.trace)
      ensures pipe <= 5 ==>
        bus.trace == WithRmw(WithRmw(WithRmw(old(bus.trace), FEATURE, old(bus.chip).regs[FEATURE] | EN_DPL),
          EN_AA, WithPipe(old(bus.chip).regs[EN_AA], pipe, true)),
          DYNPD, WithPipe(old(bus.chip).regs[DYNPD], pipe, true))
    {
      if pipe > 5 {
        return;
      }
      EnableDynamicPayloadLengths();
      EnableAutoAck(pipe);
      UpdatePipe(DYNPD, pipe, true);
    }

    /** disableDynamicPayloadLength: the pipe's DYNPD bit cleared; FEATURE and EN_AA are left alone. */
    method DisableDynamicPayloadLength(pipe: bv8)
      requires Idle()
      modifies bus
      ensures Idle() && bus.ce == old(bus.ce)
      ensures bus.chip == PipeBitSet(old(bus.chip), DYNPD, pipe, false)
      ensures pipe > 5 ==> bus.trace == old(bus.trace)
      ensures pipe <= 5 ==> bus.trace == WithRmw(old(bus.trace), DYNPD, WithPipe(old(bus.chip).regs[DYNPD], pipe, false))
    {
      if pipe > 5 {
        return;
      }
      UpdatePipe(DYNPD, pipe, false);
    }

    /** hasDynamicPayloadLength: false without SPI traffic for pipes above 5, else the pipe's DYNPD bit. */
    method HasDynamicPayloadLength(pipe: bv8) returns (on: bool)
      requires Idle()
      modifies bus
      ensures Idle() && bus.ce == old(bus.ce) && bus.chip == old(bus.chip)
      ensures pipe > 5 ==> !on && bus.trace == old(bus.trace)
      ensures pipe <= 5 ==> (on <==> old(bus.chip).regs[DYNPD] & PipeMask(pipe) != 0)
      ensures pipe <= 5 ==> bus.trace == old(bus.trace) + [Peek(DYNPD)]
    {
      if pipe > 5 {
        return false;
      }
      var v := Read(DYNPD);
      on := v & (1 << pipe) != 0;
    }

    // --------------------------------------------------------- features

    /** enableDynamicPayloadLengths: EN_DPL set. */
    method EnableDynamicPayloadLengths()
      requires Idle()
      modifies bus
      ensures Idle() && bus.ce == old(bus.ce)
      ensures bus.chip == Poked(old(bus.chip), FEATURE, old(bus.chip).regs[FEATURE] | EN_DPL)
      ensures bus.trace == WithRmw(old(bus.trace), FEATURE, old(bus.chip).regs[FEATURE] | EN_DPL)
    {
      SetBits(FEATURE, EN_DPL);
    }

    /** disableDynamicPayloadLengths: EN_DPL cleared, then DYNPD zeroed for every pipe. */
    method DisableDynamicPayloadLengths()
      requires Idle()
      modifies bus
      ensures Idle() && bus.ce == old(bus.ce)
      ensures bus.chip == Poked(Poked(old(bus.chip), FEATURE, old(bus.chip).regs[FEATURE] & !EN_DPL), DYNPD, 0)
      ensures bus.trace == WithRmw(old(bus.trace), FEATURE, old(bus.chip).regs[FEATURE] & !EN_DPL) + [Poke(DYNPD, 0)]
    {
      ClearBits(FEATURE, EN_DPL);
      Write(DYNPD, 0);
    }

    /** hasDynamicPayloadLengths: EN_DPL. */
    method HasDynamicPayloadLengths() returns (on: bool)
      requires Idle()
      modifies bus
      ensures Idle() && bus.ce == old(bus.ce) && bus.chip == old(bus.chip)
      ensures on <==> old(bus.chip).regs[FEATURE] & EN_DPL != 0
      ensures bus.trace == old(bus.trace) + [Peek(FEATURE)]
    {
      var v := Read(FEATURE);
      on := v & EN_DPL != 0;
    }

    /** enableAckPayload: EN_DPL set first, then EN_ACK_PAY, in two read-modify-writes. */
    method EnableAckPayload()
      requires Idle()
      modifies bus
      ensures Idle() && bus.ce == old(bus.ce)
      ensures bus.chip == Poked(old(bus.chip), FEATURE, old(bus.chip).regs[FEATURE] | EN_DPL | EN_ACK_PAY)
      ensures bus.trace == WithRmw(WithRmw(old(bus.trace), FEATURE, old(bus.chip).regs[FEATURE] | EN_DPL),
                                   FEATURE, old(bus.chip).regs[FEATURE] | EN_DPL | EN_ACK_PAY)
    {
      ghost var s := bus.chip;
      EnableDynamicPayloadLengths();
      SetBits(FEATURE, EN_ACK_PAY);
      assert s.regs[FEATURE := s.regs[FEATURE] | EN_DPL][FEATURE := s.regs[FEATURE] | EN_DPL | EN_ACK_PAY]
          == s.regs[FEATURE := s.regs[FEATURE] | EN_DPL | EN_ACK_PAY];
    }

    /** disableAckPayload: EN_ACK_PAY cleared; EN_DPL stays. */
    method DisableAckPayload()
      requires Idle()
      modifies bus
      ensures Idle() && bus.ce == old(bus.ce)
      ensures bus.chip == Poked(old(bus.chip), FEATURE, old(bus.chip).regs[FEATURE] & !EN_ACK_PAY)
      ensures bus.trace == WithRmw(old(bus.trace), FEATURE, old(bus.chip).regs[FEATURE] & !EN_ACK_PAY)
    {
      ClearBits(FEATURE, EN_ACK_PAY);
    }

    /** enableDynamicAck: EN_DYN_ACK, which lets W_TX_PAYLOAD_NOACK through. */
    method EnableDynamicAck()
      requires Idle()
      modifies bus
      ensures Idle() && bus.ce == old(bus.ce)
      ensures bus.chip == Poked(old(bus.chip), FEATURE, old(bus.chip).regs[FEATURE] | EN_DYN_ACK)
      ensures bus.trace == WithRmw(old(bus.trace), FEATURE, old(bus.chip).regs[FEATURE] | EN_DYN_ACK)
    {
      SetBits(FEATURE, EN_DYN_ACK);
    }

    /** disableDynamicAck. */
    method DisableDynamicAck()
      requires Idle()
      modifies bus
      ensures Idle() && bus.ce == old(bus.ce)
      ensures bus.chip == Poked(old(bus.chip), FEATURE, old(bus.chip).regs[FEATURE] & !EN_DYN_ACK)
      ensures bus.trace == WithRmw(old(bus.trace), FEATURE, old(bus.chip).regs[FEATURE] & !EN_DYN_ACK)
    {
      ClearBits(FEATURE, EN_DYN_ACK);
    }

    /** hasDynamicAck. */
    method HasDynamicAck() returns (on: bool)
      requires Idle()
      modifies bus
      ensures Idle() && bus.ce == old(bus.ce) && bus.chip == old(bus.chip)
      ensures on <==> old(bus.chip).regs[FEATURE] & EN_DYN_ACK != 0
      ensures bus.trace == old(bus.trace) + [Peek(FEATURE)]
    {
      var v := Read(FEATURE);
      on := v & EN_DYN_ACK != 0;
    }

    // -------------------------------------------------------- addresses

    /** writes `address[n - 1]` down to `address[0]` inside the open bracket. */
    method StreamReversed(address: seq<bv8>, n: nat)
      requires bus.Valid() && bus.selected && |bus.frame| > 0 && n <= |address|
      modifies bus`frame
      ensures bus.Valid() && bus.selected
      ensures bus.frame == old(bus.frame) + Reversed(address[..n])
    {
      var i := n;
      while i > 0
        invariant 0 <= i <= n
        invariant bus.Valid() && bus.selected
        invariant bus.frame == old(bus.frame) + Reversed(address[i..n])
      {
        var _ := bus.Transfer(address[i - 1]);
        ReversedStep(address, i, n);
        i := i - 1;
      }
      assert address[0..n] == address[..n];
    }

    /** The bracket W_REGISTER + reg followed by the address, last byte first. */
    method WriteReversed(reg: nat, address: seq<bv8>, n: nat)
      requires Idle() && reg < REGISTER_COUNT && n <= |address|
      modifies bus
      ensures Idle() && bus.ce == old(bus.ce)
      ensures bus.chip == WriteRegister(old(bus.chip), reg, Reversed(address[..n]))
      ensures bus.trace == old(bus.trace) + [Bracket([W_REGISTER + reg as bv8] + Reversed(address[..n]))]
    {
      bus.Select();
      var _ := bus.Transfer(W_REGISTER + reg as bv8);
      assert bus.frame == [W_REGISTER + reg as bv8];
      StreamReversed(address, n);
      RegisterBracket(bus.chip, reg, Reversed(address[..n]));
      bus.Deselect();
    }

    /** setTXAddress: TX_ADDR written with the first `addrLen` bytes of `address`, last byte first. */
    method SetTXAddress(address: seq<bv8>, addrLen: nat)
      requires Idle() && addrLen <= |address|
      modifies bus
      ensures Idle() && bus.ce == old(bus.ce)
      ensures bus.chip == WriteRegister(old(bus.chip), TX_ADDR, Reversed(address[..addrLen]))
      ensures bus.trace == old(bus.trace) + [Bracket([W_REGISTER + TX_ADDR as bv8] + Reversed(address[..addrLen]))]
    {
      WriteReversed(TX_ADDR, address, addrLen);
    }

    /**
     * setRXAddress: pipes 0 and 1 take the whole address, last byte first;
     * pipes 2 to 5 only its last byte, the least significant one on the air;
     * higher pipes nothing.
     */
    method SetRXAddress(pipe: bv8, address: seq<bv8>, addrLen: nat)
      requires Idle() && addrLen <= |address|
      requires 2 <= pipe <= 5 ==> addrLen >= 1
      modifies bus
      ensures Idle() && bus.ce == old(bus.ce)
      ensures bus.chip == RxAddressed(old(bus.chip), pipe, address, addrLen)
      ensures pipe < 2 ==>
        bus.trace == old(bus.trace) + [Bracket([W_REGISTER + (RX_ADDR_P0 + pipe as nat) as bv8] + Reversed(address[..addrLen]))]
      ensures 2 <= pipe <= 5 ==> bus.trace == old(bus.trace) + [Poke(RX_ADDR_P0 + pipe as nat, address[addrLen - 1])]
      ensures pipe > 5 ==> bus.trace == old(bus.trace)
    {
      if pipe < 2 {
        WriteReversed(RX_ADDR_P0 + pipe as nat, address, addrLen);
      } else if pipe < 6 {
        Write(RX_ADDR_P0 + pipe as nat, address[addrLen - 1]);
      }
    }

    // -------------------------------------------------------- pipes

    /** openRXPipe with the five-byte address. */
    method OpenRXPipe(pipe: bv8, address: seq<bv8>, numBytes: bv8, enAutoAck: bool, enDynAck: bool)
      requires Idle() && |address| >= ADDRESS_WIDTH
      modifies bus
      ensures Idle() && bus.ce == old(bus.ce)
      ensures bus.chip == RxPipeOpened(old(bus.chip), pipe, address, numBytes, enAutoAck, enDynAck)
    {
      ghost var s0 := bus.chip;
      SetRXAddress(pipe, address, ADDRESS_WIDTH);
      EnableRXAddress(pipe);
      DisableDynamicPayloadLength(pipe);
      SetPayloadLength(pipe, numBytes);
      ghost var s4 := bus.chip;
      assert s4 == PipeOpening(s0, pipe, address, numBytes);
      if enAutoAck {
        EnableAutoAck(pipe);
        if enDynAck {
          EnableDynamicAck();
        }
      } else {
        DisableAutoAck(pipe);
      }
      OpenedSteps(s0, pipe, address, numBytes, enAutoAck, enDynAck);
    }

    /** openTXPipe. */
    method OpenTXPipe(address: seq<bv8>, numBytes: bv8, enAutoAck: bool, enDynAck: bool)
      requires Idle() && |address| >= ADDRESS_WIDTH
      modifies bus
      ensures Idle() && bus.ce == old(bus.ce)
      ensures bus.chip == TxPipeOpened(old(bus.chip), address, numBytes, enAutoAck, enDynAck)
    {
      SetTXAddress(address, ADDRESS_WIDTH);
      if enAutoAck {
        OpenRXPipe(0, address, numBytes, enAutoAck, enDynAck);
      }
    }

    /** The first four calls of openDynamicRXPipe. */
    method PrepareDynamicPipe(pipe: bv8, address: seq<bv8>)
      requires Idle() && |address| >= ADDRESS_WIDTH
      modifies bus
      ensures Idle() && bus.ce == old(bus.ce)
      ensures bus.chip == DynamicOpening(old(bus.chip), pipe, address)
    {
      SetRXAddress(pipe, address, ADDRESS_WIDTH);
      EnableRXAddress(pipe);
      SetPayloadLength(pipe, MAX_PAYLOAD as bv8);
      EnableDynamicPayloadLength(pipe);
    }

    /** openDynamicRXPipe with the five-byte address. */
    method OpenDynamicRXPipe(pipe: bv8, address: seq<bv8>, enAckPayload: bool, enDynAck: bool)
      requires Idle() && |address| >= ADDRESS_WIDTH
      modifies bus
      ensures Idle() && bus.ce == old(bus.ce)
      ensures bus.chip == DynamicRxPipeOpened(old(bus.chip), pipe, address, enAckPayload, enDynAck)
    {
      PrepareDynamicPipe(pipe, address);
      SetAckPayload(enAckPayload);
      if enDynAck {
        EnableDynamicAck();
      }
    }

    /** The ACK payload choice of openDynamicRXPipe. */
    method SetAckPayload(on: bool)
      requires Idle()
      modifies bus
      ensures Idle() && bus.ce == old(bus.ce)
      ensures bus.chip == AckPayloadSet(old(bus.chip), on)
    {
      if on {
        EnableAckPayload();
      } else {
        DisableAckPayload();
      }
    }

    /** openDynamicTXPipe. */
    method OpenDynamicTXPipe(address: seq<bv8>, enAckPayload: bool, enDynAck: bool)
      requires Idle() && |address| >= ADDRESS_WIDTH
      modifies bus
      ensures Idle() && bus.ce == old(bus.ce)
      ensures bus.chip == DynamicTxPipeOpened(old(bus.chip), address, enAckPayload, enDynAck)
    {
      SetTXAddress(address, ADDRESS_WIDTH);
      OpenDynamicRXPipe(0, address, enAckPayload, enDynAck);
    }

    /** init. */
    method Init(channel: bv8, rate: bv8, width: bv8, crc: bv8)
      requires Idle()
      modifies bus
      ensures Idle()
      ensures bus.ce == (old(bus.ce) && old(bus.chip).regs[CONFIG] & PWR_UP != 0)
      ensures bus.chip == Initialized(old(bus.chip), channel, rate, width, crc)
    {
      PowerUp();
      SetChannel(channel);
      SetDataRate(rate);
      SetRFOutPower(MAX_POWER);
      SetAddressWidth(width);
      SetCRCLength(crc);
      SetRetries(INIT_DELAY_US, INIT_RETRIES);
    }

    // -------------------------------------------------------- payloads

    /** startSending: a CE pulse, which starts the transmission of the TX FIFO head. */
    method StartSending()
      requires Idle()
      modifies bus
      ensures Idle() && !bus.ce && bus.chip == old(bus.chip)
      ensures bus.trace == old(bus.trace) + [ChipEnable(true)] + [ChipEnable(false)]
    {
      bus.SetCE(true);
      bus.SetCE(false);
    }

    /**
     * writeTXData: flush, reset the flags, queue `data[..len]` (NOACK when
     * `getAck` is false), pulse CE, and `while(isSending());` with `fuel`
     * polls. The transmission completes on the air as `air` says before the
     * first poll. The wait ends exactly when something could be sent.
     */
    method WriteTXData(data: seq<bv8>, len: bv8, getAck: bool, air: Air, fuel: nat) returns (done: bool)
      requires Idle() && len as nat <= |data|
      modifies bus
      ensures Idle() && !bus.ce
      ensures bus.chip == Transmit(Loaded(old(bus.chip), data[..len], getAck), air)
      ensures done <==> fuel > 0 && CanTransmit(Loaded(old(bus.chip), data[..len], getAck))
      ensures bus.trace == old(bus.trace) + [Bracket([FLUSH_TX])] + [Poke(STATUS, IRQ_FLAGS)]
        + [Bracket([if getAck then W_TX_PAYLOAD else W_TX_PAYLOAD_NOACK] + data[..len])]
        + [ChipEnable(true)] + [ChipEnable(false)] + [OnAir(air)] + Polls(if done then 1 else fuel)
    {
      ghost var s := bus.chip;
      Load(data[..len], getAck);
      ghost var loaded := bus.chip;
      StartSending();
      bus.Air(air);
      LoadedQueue(s, data[..len], getAck);
      if CanTransmit(loaded) {
        TransmitRaisesOneFlag(loaded, air);
      }
      var polls;
      done, polls := WaitWhileSending(bus, fuel);
    }

    /** The part of writeTXData before CE rises. */
    method Load(payload: seq<bv8>, getAck: bool)
      requires Idle()
      modifies bus
      ensures Idle() && bus.ce == old(bus.ce)
      ensures bus.chip == Loaded(old(bus.chip), payload, getAck)
      ensures bus.trace == old(bus.trace) + [Bracket([FLUSH_TX])] + [Poke(STATUS, IRQ_FLAGS)]
        + [Bracket([if getAck then W_TX_PAYLOAD else W_TX_PAYLOAD_NOACK] + payload)]
    {
      FlushTX();
      ResetIRQFlags();
      if getAck {
        bus.WriteBytes(W_TX_PAYLOAD, payload);
      } else {
        bus.WriteBytes(W_TX_PAYLOAD_NOACK, payload);
      }
    }

    /** writeAckData: flush TX, then for pipes 0 to 5 the ACK payload `data[..len]`. */
    method WriteAckData(pipe: bv8, data: seq<bv8>, len: bv8)
      requires Idle() && len as nat <= |data|
      modifies bus
      ensures Idle() && bus.ce == old(bus.ce)
      ensures bus.chip == AckLoaded(old(bus.chip), pipe, data[..len])
      ensures pipe > 5 ==> bus.trace == old(bus.trace) + [Bracket([FLUSH_TX])]
      ensures pipe <= 5 ==> bus.trace == old(bus.trace) + [Bracket([FLUSH_TX])] + [Bracket([W_ACK_PAYLOAD + pipe] + data[..len])]
    {
      FlushTX();
      if pipe > 5 {
        return;
      }
      bus.WriteBytes(W_ACK_PAYLOAD + pipe, data[..len]);
    }

    /**
     * The loop of readRXData inside the open R_RX_PAYLOAD bracket: `len`
     * bytes 0x00 clocked out, and the bytes clocked in stored in `data`.
     */
    method ClockPayload(data: array<bv8>, len: nat)
      requires bus.Valid() && bus.selected && bus.frame == [R_RX_PAYLOAD] && len <= data.Length
      modifies bus`frame, data
      ensures bus.Valid() && bus.selected
      ensures bus.frame == [R_RX_PAYLOAD] + Zeros(len)
      ensures data[..len] == RxHead(bus.chip, len)
      ensures data[len..] == old(data[len..])
    {
      ghost var orig := data[..];
      var i := 0;
      while i < len
        invariant 0 <= i <= len
        invariant bus.Valid() && bus.selected
        invariant bus.frame == [R_RX_PAYLOAD] + Zeros(i)
        invariant data[..] == RxHead(bus.chip, i) + orig[i..]
      {
        var b := bus.Transfer(0x00);
        data[i] := b;
        RxHeadSnoc(bus.chip, i);
        Splice(RxHead(bus.chip, i), orig[i..], b);
        assert orig[i..][1..] == orig[i + 1..];
        assert Zeros(i) + [0x00] == Zeros(i + 1);
        i := i + 1;
      }
      assert data[..len] == data[..][..len];
    }

    /**
     * readRXData: with the RX FIFO empty, length and pipe 0 and nothing
     * read; otherwise the head's pipe, its length (the dynamic width when
     * the pipe has dynamic payload length, else the pipe's static length),
     * and that many bytes of the head payload in `data`, which is popped.
     */
    method ReadRXData(data: array<bv8>) returns (len: bv8, pipe: bv8)
      requires Idle() && Fits(bus.chip, data.Length)
      modifies bus, data
      ensures Idle() && bus.ce == old(bus.ce)
      ensures old(bus.chip).rxFifo == [] ==>
        len == 0 && pipe == 0 && bus.chip == old(bus.chip) && data[..] == old(data[..])
      ensures old(bus.chip).rxFifo != [] ==>
        && pipe as nat == old(bus.chip).rxFifo[0].pipe
        && len == RxLength(old(bus.chip))
        && len as nat <= data.Length
        && data[..len] == RxHead(old(bus.chip), len as nat)
        && data[len..] == old(data[len..])
        && bus.chip == PopRx(old(bus.chip))
    {
      var empty := RXFifoEmpty();
      if empty {
        return 0, 0;
      }
      pipe := GetRXPipeNumber();
      len := PayloadLength(pipe);
      assert len as nat <= data.Length;
      ReadPayload(data, len as nat);
    }

    /**
     * The length readRXData reads for the head on `pipe`: getDynamicPayloadLength
     * when the pipe has dynamic payload length, else getPayloadLength(pipe).
     */
    method PayloadLength(pipe: bv8) returns (len: bv8)
      requires Idle() && bus.chip.rxFifo != [] && pipe == RxPipeNumber(bus.chip)
      modifies bus
      ensures Idle() && bus.ce == old(bus.ce) && bus.chip == old(bus.chip)
      ensures len == RxLength(old(bus.chip))
      ensures Fits(old(bus.chip), MAX_PAYLOAD) ==> len as nat <= MAX_PAYLOAD
      ensures bus.trace == old(bus.trace) + [Peek(DYNPD)]
        + [if old(bus.chip).regs[DYNPD] & PipeMask(pipe) != 0 then Bracket([R_RX_PL_WID, NOP]) else Peek(RX_PW_P0 + pipe as nat)]
    {
      ByteRoundTrip(old(bus.chip).rxFifo[0].pipe);
      var dynamic := HasDynamicPayloadLength(pipe);
      if dynamic {
        len := GetDynamicPayloadLength();
      } else {
        len := GetPayloadLength(pipe);
      }
    }

    /** The R_RX_PAYLOAD bracket of readRXData with `len` bytes clocked: the head read into `data` and popped. */
    method ReadPayload(data: array<bv8>, len: nat)
      requires Idle() && len <= data.Length
      modifies bus, data
      ensures Idle() && bus.ce == old(bus.ce)
      ensures data[..len] == RxHead(old(bus.chip), len)
      ensures data[len..] == old(data[len..])
      ensures bus.chip == PopRx(old(bus.chip))
      ensures bus.trace == old(bus.trace) + [Bracket([R_RX_PAYLOAD] + Zeros(len))]
    {
      bus.Select();
      var _ := bus.Transfer(R_RX_PAYLOAD);
      assert bus.frame == [R_RX_PAYLOAD];
      ClockPayload(data, len);
      PayloadBracket(bus.chip, Zeros(len));
      bus.Deselect();
    }
  }
}
