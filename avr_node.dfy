/**
 * What the AVR sensor-node firmwares (N1_MAX_nRF, N1_BNO_MAX_nRF, N2_ACK_INT,
 * Test_MAX17043_N1_TX and EG_Final) share beyond the register driver: the
 * nRF_Init that boots the radio as a receiver with a pipe-0 address, a
 * transmit address, a payload width and a retry setting; the start of
 * listening; and the trigger of the main loop, which replies once the
 * interrupt handler has counted PAYLOAD_LEN request bytes.
 */
module AvrNode {
  import opened Nrf24Chip
  import opened Spi
  import opened NodeDriver

  /** The one-byte registers nRF_Init writes. */
  predicate InitWrites(r: nat)
  {
    r in {EN_AA, EN_RXADDR, SETUP_AW, RF_CH, RF_SETUP, RX_PW_P0, SETUP_RETR}
  }

  /**
   * The radio set-up, the pipe-0 receive address, the transmit address and
   * RX_PW_P0, as the AVR firmwares write them before their retry setting.
   */
  function Addressed(s: State, rfSetup: bv8, rxAddr: seq<bv8>, txAddr: seq<bv8>, width: bv8): (t: State)
    requires Valid(s) && |rxAddr| == ADDRESS_WIDTH && |txAddr| == ADDRESS_WIDTH
    ensures Valid(t)
    ensures t.regs[EN_AA] == 0x01 && t.regs[EN_RXADDR] == 0x01 && t.regs[SETUP_AW] == 0x03
    ensures t.regs[RF_CH] == 0x69 && t.regs[RF_SETUP] == rfSetup && t.regs[RX_PW_P0] == width
    ensures t.rxAddr0 == rxAddr && t.txAddr == txAddr
    ensures forall r :: 0 <= r < REGISTER_COUNT && !InitWrites(r) ==> t.regs[r] == s.regs[r]
    ensures t.regs[SETUP_RETR] == s.regs[SETUP_RETR]
    ensures t.rxFifo == s.rxFifo && t.txFifo == s.txFifo && t.rxAddr1 == s.rxAddr1 && t.reuse == s.reuse
  {
    var radio := s.(regs := s.regs[EN_AA := 0x01][EN_RXADDR := 0x01][SETUP_AW := 0x03][RF_CH := 0x69][RF_SETUP := rfSetup]);
    var addressed := radio.(rxAddr0 := rxAddr, txAddr := txAddr);
    addressed.(regs := addressed.regs[RX_PW_P0 := width])
  }

  /** The registers nRF_Init sets before switching to RX mode. */
  function Configured(s: State, rxAddr: seq<bv8>, txAddr: seq<bv8>, width: bv8, retries: bv8): (t: State)
    requires Valid(s) && |rxAddr| == ADDRESS_WIDTH && |txAddr| == ADDRESS_WIDTH
    ensures Valid(t)
    ensures t.regs[EN_AA] == 0x01 && t.regs[EN_RXADDR] == 0x01 && t.regs[SETUP_AW] == 0x03
    ensures t.regs[RF_CH] == 0x69 && t.regs[RF_SETUP] == 0x26
    ensures t.regs[RX_PW_P0] == width && t.regs[SETUP_RETR] == retries
    ensures t.rxAddr0 == rxAddr && t.txAddr == txAddr
    ensures forall r :: 0 <= r < REGISTER_COUNT && !InitWrites(r) ==> t.regs[r] == s.regs[r]
    ensures t.rxFifo == s.rxFifo && t.txFifo == s.txFifo && t.rxAddr1 == s.rxAddr1
  {
    var sized := Addressed(s, 0x26, rxAddr, txAddr, width);
    sized.(regs := sized.regs[SETUP_RETR := retries])
  }

  /** The pipe-0 receive address and the transmit address, each in its own bracket, in array order. */
  method WriteAddresses(bus: Bus, rxAddr: seq<bv8>, txAddr: seq<bv8>)
    requires bus.Valid() && !bus.selected && |rxAddr| == ADDRESS_WIDTH && |txAddr| == ADDRESS_WIDTH
    modifies bus
    ensures bus.Valid() && !bus.selected && bus.ce == old(bus.ce)
    ensures bus.chip == old(bus.chip).(rxAddr0 := rxAddr, txAddr := txAddr)
    ensures bus.trace == old(bus.trace) + [Bracket([W_REGISTER + RX_ADDR_P0 as bv8] + rxAddr)]
                                        + [Bracket([W_REGISTER + TX_ADDR as bv8] + txAddr)]
  {
    WideWrite(bus.chip, RX_ADDR_P0, rxAddr);
    WriteAddress(bus, RX_ADDR_P0, rxAddr);
    WideWrite(bus.chip, TX_ADDR, txAddr);
    WriteAddress(bus, TX_ADDR, txAddr);
  }

  /**
   * nRF_Init of the nodes: auto-ACK and RX on pipe 0, 5-byte addresses,
   * channel 0x69, RF_SETUP 0x26 (250 kbps, 0 dBm), the two addresses,
   * RX_PW_P0 and SETUP_RETR; then the node boots in RX mode with CE high.
   */
  method Init(bus: Bus, rxAddr: seq<bv8>, txAddr: seq<bv8>, width: bv8, retries: bv8)
    requires bus.Valid() && !bus.selected && |rxAddr| == ADDRESS_WIDTH && |txAddr| == ADDRESS_WIDTH
    modifies bus
    ensures bus.Valid() && !bus.selected && bus.ce
    ensures bus.chip == EnterRx(Configured(old(bus.chip), rxAddr, txAddr, width, retries))
  {
    Setup(bus, rxAddr, txAddr, width, retries);
    RxMode(bus);
  }

  /** The register writes of nRF_Init, before the mode switch. */
  method Setup(bus: Bus, rxAddr: seq<bv8>, txAddr: seq<bv8>, width: bv8, retries: bv8)
    requires bus.Valid() && !bus.selected && |rxAddr| == ADDRESS_WIDTH && |txAddr| == ADDRESS_WIDTH
    modifies bus
    ensures bus.Valid() && !bus.selected && bus.ce == old(bus.ce)
    ensures bus.chip == Configured(old(bus.chip), rxAddr, txAddr, width, retries)
  {
    SetupAddressed(bus, 0x26, rxAddr, txAddr, width);
    WriteByte(bus, SETUP_RETR, retries);
  }

  /** The writes of Addressed: the radio set-up, both addresses and RX_PW_P0. */
  method SetupAddressed(bus: Bus, rfSetup: bv8, rxAddr: seq<bv8>, txAddr: seq<bv8>, width: bv8)
    requires bus.Valid() && !bus.selected && |rxAddr| == ADDRESS_WIDTH && |txAddr| == ADDRESS_WIDTH
    modifies bus
    ensures bus.Valid() && !bus.selected && bus.ce == old(bus.ce)
    ensures bus.chip == Addressed(old(bus.chip), rfSetup, rxAddr, txAddr, width)
  {
    SetupRadio(bus, rfSetup);
    WriteAddresses(bus, rxAddr, txAddr);
    WriteByte(bus, RX_PW_P0, width);
  }

  /** main before its loop: nRF_Flush_RX, nRF_Reset and CE high ("start listening"). */
  method StartListening(bus: Bus)
    requires bus.Valid() && !bus.selected
    modifies bus
    ensures bus.Valid() && !bus.selected && bus.ce
    ensures bus.chip == ClearFlags(old(bus.chip).(rxFifo := []))
    ensures bus.trace == old(bus.trace) + [Bracket([FLUSH_RX])] + [Poke(STATUS, IRQ_FLAGS)] + [ChipEnable(true)]
  {
    FlushRx(bus);
    ResetFlags(bus);
    bus.SetCE(true);
  }

  /** After TX mode the chip is ready for nRF_TX_Data. */
  lemma TxModeIsReady(s: State)
    requires Valid(s)
    ensures ReadyToSend(EnterTx(s))
  {
  }

  /**
   * The reply of N2_ACK_INT, N1_BNO_MAX_nRF and EG_Final once the payload is
   * ready: TX mode, nRF_TX_Data, the wait on the send status, then RX mode,
   * nRF_Flush_RX, nRF_Reset and CE high.
   */
  method Answer(bus: Bus, payload: seq<bv8>, air: Air, fuel: nat) returns (done: bool)
    requires bus.Valid() && !bus.selected && 1 <= |payload| <= MAX_PAYLOAD
    modifies bus
    ensures bus.Valid() && !bus.selected && bus.ce
    ensures bus.chip == EnterRx(Transmit(Queued(EnterTx(old(bus.chip)), payload), air))
    ensures done <==> fuel > 0
  {
    done := TransmitAndWait(bus, payload, air, fuel);
    Listen(bus);
  }

  /**
   * The ending of N1_MAX_nRF and Test_MAX17043_N1_TX's reply: nRF_Reset,
   * RX mode, a second RX flush, CE high.
   */
  method ResetThenListen(bus: Bus)
    requires bus.Valid() && !bus.selected
    modifies bus
    ensures bus.Valid() && !bus.selected && bus.ce
    ensures bus.chip == EnterRx(ClearFlags(old(bus.chip)))
  {
    ResetFlags(bus);
    RxMode(bus);
    FlushRx(bus);
    bus.SetCE(true);
  }

  /**
   * The reply is due after the interrupt handler's read from a zero count
   * exactly when the payload at the head of the RX FIFO starts with `len`
   * request bytes 0xAA (the count is the number of 0xAA bytes among the
   * `len` clocked in, and an empty FIFO reads as zeros).
   */
  lemma TriggerIsRequest(s: State, len: nat)
    requires Valid(s) && 1 <= len < 256
    ensures Tally(0, RxHead(s, len)) == len
      <==> s.rxFifo != [] && len <= |s.rxFifo[0].data|
           && forall i :: 0 <= i < len ==> s.rxFifo[0].data[i] == REQUEST_BYTE
  {
    var head := RxHead(s, len);
    TallyOfRequest(head);
    RxHeadIsPayload(s, len);
    if Tally(0, head) == len {
      assert head == seq(len, _ => REQUEST_BYTE);
      assert head[0] == REQUEST_BYTE;
      forall i | 0 <= i < len
        ensures head[i] == REQUEST_BYTE && s.rxFifo != [] && i < |s.rxFifo[0].data|
      {
        assert head[i] == REQUEST_BYTE;
      }
      assert len - 1 < |s.rxFifo[0].data|;
      assert forall i :: 0 <= i < len ==> s.rxFifo[0].data[i] == head[i];
    } else if s.rxFifo != [] && len <= |s.rxFifo[0].data| {
      assert forall i :: 0 <= i < len ==> s.rxFifo[0].data[i] == REQUEST_BYTE ==> head[i] == REQUEST_BYTE;
    }
  }
}
