/**
 * The battery node of N1_MAX_nRF and of its test version Test_MAX17043_N1_TX:
 * a node that answers each request of PAYLOAD_LEN = 4 bytes 0xAA with the
 * MAX17043 fuel gauge's VCELL and SOC registers. The two firmwares differ in
 * what they tell the chip the request width is: N1_MAX_nRF sets RX_PW_P0 to
 * 4, the test version to 8. With static payload widths the test version
 * never takes the four-byte request in.
 */
module GaugeNode {
  import opened Nrf24Chip
  import opened Spi
  import opened NodeDriver
  import opened AvrNode
  import opened Sensors

  const PAYLOAD_LEN: nat := 4
  const RETRIES: bv8 := 0x2F

  /** RX_PW_P0 as N1_MAX_nRF and as Test_MAX17043_N1_TX write it. */
  const N1_MAX_WIDTH: bv8 := 0x04
  const TEST_WIDTH: bv8 := 0x08

  /** The pipe-0 receive address and the transmit address, written inline by nRF_Init. */
  const RX_ADDRESS: seq<bv8> := [0xAA, 0xBB, 0xCC, 0xDD, 0xEE]
  const TX_ADDRESS: seq<bv8> := [0x11, 0x12, 0x13, 0x14, 0x15]

  /** The request the gauge station sends: PAYLOAD_LEN bytes 0xAA. */
  const REQUEST: seq<bv8> := [0xAA, 0xAA, 0xAA, 0xAA]

  /**
   * Test_MAX17043_N1_TX never answers: pipe 0 is told to expect eight-byte
   * payloads and dynamic payload length is off, so the four-byte request
   * never enters the RX FIFO. RX_DR stays low, no interrupt comes and the
   * count stays where it was.
   */
  lemma TestNodeNeverTriggered(s: State)
    requires Valid(s) && s.regs[RX_PW_P0] == TEST_WIDTH && !DynamicOn(s, 0)
    ensures Receive(s, 0, REQUEST) == s
  {
    WrongWidthDropped(s, 0, REQUEST);
  }

  /**
   * N1_MAX_nRF, with RX_PW_P0 = 4, takes the request: arriving at a
   * listening node with pipe 0 enabled and an empty RX FIFO, it is queued
   * with RX_DR, and the handler's read brings the count from zero to
   * PAYLOAD_LEN, so the reply is due.
   */
  lemma RequestTriggers(s: State)
    requires Valid(s) && Listening(s) && s.regs[EN_RXADDR] & 0x01 != 0 && s.rxFifo == []
    requires s.regs[RX_PW_P0] == N1_MAX_WIDTH
    ensures var t := Receive(s, 0, REQUEST);
      && t.rxFifo == [RxPayload(0, REQUEST)] && Flags(t) & RX_DR != 0
      && Tally(0, RxHead(t, PAYLOAD_LEN)) == PAYLOAD_LEN
  {
    var t := Receive(s, 0, REQUEST);
    assert t.rxFifo == [RxPayload(0, REQUEST)];
    TriggerIsRequest(t, PAYLOAD_LEN);
  }

  /** Configuring the node sets the request width it was given and leaves dynamic payload length as it was. */
  lemma ConfiguredWidth(s: State, width: bv8)
    requires Valid(s)
    ensures var t := ClearFlags(EnterRx(Configured(s, RX_ADDRESS, TX_ADDRESS, width, RETRIES)));
      && t.regs[RX_PW_P0] == width && (DynamicOn(t, 0) <==> DynamicOn(s, 0)) && Listening(t)
  {
  }

  class Node {
    const bus: Bus
    /** N1_payload_TX. */
    const tx: array<bv8>
    /** N1_payload_RX. */
    const rx: array<bv8>
    /** RX_Payload_cnt, a uint8_t. */
    var count: nat

    ghost predicate Valid()
      reads this, bus
    {
      bus.Valid() && !bus.selected && tx.Length == PAYLOAD_LEN && rx.Length == PAYLOAD_LEN && tx != rx && count < 256
    }

    /**
     * main up to its loop: nRF_Init with RX_PW_P0 = `width` (ending in RX
     * mode), the counter cleared, then nRF_Flush_RX, nRF_Reset and CE high.
     */
    constructor (bus: Bus, width: bv8)
      requires bus.Valid() && !bus.selected
      modifies bus
      ensures Valid() && this.bus == bus && fresh(tx) && fresh(rx) && count == 0
      ensures bus.chip == ClearFlags(EnterRx(Configured(old(bus.chip), RX_ADDRESS, TX_ADDRESS, width, RETRIES)))
      ensures bus.ce && Listening(bus.chip)
    {
      this.bus := bus;
      tx := new bv8[PAYLOAD_LEN](_ => 0);
      rx := new bv8[PAYLOAD_LEN](_ => 0);
      count := 0;
      new;
      Init(bus, RX_ADDRESS, TX_ADDRESS, width, RETRIES);
      StartListening(bus);
    }

    /** ISR(INT6_vect): CE low, four bytes read with one count per 0xAA byte, RX_DR cleared. */
    method Isr()
      requires Valid()
      modifies this`count, bus, rx
      ensures Valid()
      ensures rx[..] == RxHead(old(bus.chip), PAYLOAD_LEN)
      ensures count == Tally(old(count), rx[..])
      ensures bus.chip == AfterRead(old(bus.chip)) && !bus.ce
    {
      var aa := IrqRead(bus, rx, PAYLOAD_LEN);
      count := (count + aa) % 256;
    }

    /**
     * One pass of the main loop. Only when the count is exactly 4: the count
     * cleared, TX mode, the gauge reading `g` stored in the reply, the reply
     * sent and waited for, nRF_Reset, RX mode, a second RX flush and CE high.
     */
    method Step(g: Gauge, air: Air, fuel: nat) returns (replied: bool, done: bool)
      requires Valid()
      modifies this`count, bus, tx
      ensures Valid()
      ensures replied <==> old(count) == PAYLOAD_LEN
      ensures !replied ==>
        count == old(count) && bus.chip == old(bus.chip) && tx[..] == old(tx[..]) && !done
      ensures replied ==>
        && count == 0
        && tx[..] == GaugePayload(g)
        && bus.chip == EnterRx(ClearFlags(Transmit(Queued(EnterTx(old(bus.chip)), GaugePayload(g)), air)))
        && bus.ce && (done <==> fuel > 0)
    {
      replied, done := false, false;
      if count != PAYLOAD_LEN {
        return;
      }
      replied := true;
      count := 0;
      TxMode(bus);
      StoreGauge(tx, g);
      TxModeIsReady(old(bus.chip));
      done := SendAndWait(bus, tx[..], air, fuel);
      ResetThenListen(bus);
    }
  }
}
