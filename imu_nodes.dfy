/**
 * N2_ACK_INT: a node that answers each 10-byte request with a fixed 10-byte
 * payload. Its addresses are both 0x21..0x25, and nRF_Set_Addr_RX/TX write
 * those arrays whatever they are passed.
 */
module N2AckInt {
  import opened Nrf24Chip
  import opened Spi
  import opened NodeDriver
  import opened AvrNode

  const PAYLOAD_LEN: nat := 10
  const RX_WIDTH: bv8 := 0x0A
  const RETRIES: bv8 := 0xFF

  const N2_ADDRESS: seq<bv8> := [0x21, 0x22, 0x23, 0x24, 0x25]
  const BS_ADDRESS: seq<bv8> := [0x21, 0x22, 0x23, 0x24, 0x25]

  /** N2_payload_TX, as initialised (the last byte is 0x30, not 0x2A). */
  const N2_PAYLOAD_TX: seq<bv8> := [0x21, 0x22, 0x23, 0x24, 0x25, 0x26, 0x27, 0x28, 0x29, 0x30]

  /**
   * SETUP_RETR = 0xFF is the longest delay with the most retries: 4000 us
   * and 15 retransmissions (not the 750 us its comment states).
   */
  lemma RetrySetting(s: State)
    requires Valid(s)
    ensures var t := Configured(s, N2_ADDRESS, BS_ADDRESS, RX_WIDTH, RETRIES);
      RetransmitDelay(t) == 4000 && RetryBudget(t) == 15
  {
    var t := Configured(s, N2_ADDRESS, BS_ADDRESS, RX_WIDTH, RETRIES);
    assert t.regs[SETUP_RETR] == 0xFF;
  }

  class Node {
    const bus: Bus
    /** N2_payload_RX. */
    const rx: array<bv8>
    /** RX_Payload_cnt, a uint8_t. */
    var count: nat

    ghost predicate Valid()
      reads this, bus
    {
      bus.Valid() && !bus.selected && rx.Length == PAYLOAD_LEN && count < 256
    }

    /** main up to its loop: nRF_Init (ending in RX mode), the counter cleared, flush, reset, CE high. */
    constructor (bus: Bus)
      requires bus.Valid() && !bus.selected
      modifies bus
      ensures Valid() && this.bus == bus && fresh(rx) && count == 0
      ensures bus.chip == ClearFlags(EnterRx(Configured(old(bus.chip), N2_ADDRESS, BS_ADDRESS, RX_WIDTH, RETRIES)))
      ensures bus.ce && Listening(bus.chip)
    {
      this.bus := bus;
      rx := new bv8[PAYLOAD_LEN](_ => 0);
      count := 0;
      new;
      Init(bus, N2_ADDRESS, BS_ADDRESS, RX_WIDTH, RETRIES);
      StartListening(bus);
    }

    /** ISR(INT6_vect): CE low, ten bytes read with one count per 0xAA byte, RX_DR cleared. */
    method Isr()
      requires Valid()
      modifies this`count, bus, rx
      ensures Valid()
      ensures rx[..] == RxHead(old(bus.chip), PAYLOAD_LEN)
      ensures count == Tally(old(count), rx[..])
      ensures bus.chip == AfterRead(old(bus.chip)) && !bus.ce
    {
      var aa := IrqRead(bus, rx, PAYLOAD_LEN);
      count := (count + aa) % 256;
    }

    /**
     * One pass of the main loop. Only when the count is exactly 10: the
     * count cleared, TX mode, the fixed payload sent and waited for, RX mode,
     * flush, reset and CE high.
     */
    method Step(air: Air, fuel: nat) returns (replied: bool, done: bool)
      requires Valid()
      modifies this`count, bus
      ensures Valid()
      ensures replied <==> old(count) == PAYLOAD_LEN
      ensures !replied ==> count == old(count) && bus.chip == old(bus.chip) && !done
      ensures replied ==>
        && count == 0
        && bus.chip == EnterRx(Transmit(Queued(EnterTx(old(bus.chip)), N2_PAYLOAD_TX), air))
        && bus.ce && (done <==> fuel > 0)
    {
      replied, done := false, false;
      if count != PAYLOAD_LEN {
        return;
      }
      replied := true;
      count := 0;
      done := Answer(bus, N2_PAYLOAD_TX, air, fuel);
    }
  }
}

/**
 * N1_BNO_MAX_nRF: node 0x01 with one BNO055. Each 10-byte request is answered
 * with [NODE_ID, IMU_ID, quaternion]. The header this firmware includes
 * (nRF24L01.h) is not part of this model, so its PAYLOAD_LEN is taken to be
 * the 10 bytes RX_PW_P0 and the payload layout use, and its two addresses are
 * parameters.
 */
module N1BnoMax {
  import opened Nrf24Chip
  import opened Spi
  import opened NodeDriver
  import opened AvrNode
  import opened Sensors

  const NODE_ID: bv8 := 0x01
  const IMU_ID: bv8 := 0x01
  const PAYLOAD_LEN: nat := 10
  const RX_WIDTH: bv8 := 0x0A
  const RETRIES: bv8 := 0xFF

  /** The reply: node number, IMU number, the eight quaternion bytes. */
  function Reply(quat: seq<bv8>): seq<bv8>
    requires |quat| == 8
  {
    [NODE_ID, IMU_ID] + quat
  }

  class Node {
    const bus: Bus
    /** N1_payload_TX. */
    const tx: array<bv8>
    /** N1_payload_RX. */
    const rx: array<bv8>
    /** RX_Payload_cnt, a uint8_t. */
    var count: nat

    ghost predicate Valid()
      reads this, bus, tx
    {
      && bus.Valid() && !bus.selected
      && tx.Length == PAYLOAD_LEN && rx.Length == PAYLOAD_LEN && tx != rx && count < 256
      && tx[0] == NODE_ID && tx[1] == IMU_ID
    }

    /**
     * main up to its loop: nRF_Init with N1_address and BS_address (ending
     * in RX mode), NODE_ID and IMU_ID in bytes 0 and 1 of the reply, then
     * flush, reset and CE high. The counter starts at 0, as a C global does.
     */
    constructor (bus: Bus, n1Address: seq<bv8>, bsAddress: seq<bv8>)
      requires bus.Valid() && !bus.selected && |n1Address| == ADDRESS_WIDTH && |bsAddress| == ADDRESS_WIDTH
      modifies bus
      ensures Valid() && this.bus == bus && fresh(tx) && fresh(rx) && count == 0
      ensures bus.chip == ClearFlags(EnterRx(Configured(old(bus.chip), n1Address, bsAddress, RX_WIDTH, RETRIES)))
      ensures bus.ce && Listening(bus.chip)
    {
      this.bus := bus;
      tx := new bv8[PAYLOAD_LEN](_ => 0);
      rx := new bv8[PAYLOAD_LEN](_ => 0);
      count := 0;
      new;
      Init(bus, n1Address, bsAddress, RX_WIDTH, RETRIES);
      tx[0] := NODE_ID;
      tx[1] := IMU_ID;
      StartListening(bus);
    }

    /** ISR(INT6_vect): CE low, ten bytes read with one count per 0xAA byte, RX_DR cleared. */
    method Isr()
      requires Valid()
      modifies this`count, bus, rx
      ensures Valid()
      ensures rx[..] == RxHead(old(bus.chip), PAYLOAD_LEN)
      ensures count == Tally(old(count), rx[..])
      ensures bus.chip == AfterRead(old(bus.chip)) && !bus.ce
    {
      var aa := IrqRead(bus, rx, PAYLOAD_LEN);
      count := (count + aa) % 256;
    }

    /**
     * One pass of the main loop. Only when the count is exactly 10: the
     * count cleared, the quaternion `quat` stored in bytes 2 to 9 (bytes 0
     * and 1 keep the node and IMU numbers), TX mode, the reply sent and
     * waited for, RX mode, flush, reset and CE high.
     */
    method Step(quat: seq<bv8>, air: Air, fuel: nat) returns (replied: bool, done: bool)
      requires Valid() && |quat| == 8
      modifies this`count, bus, tx
      ensures Valid()
      ensures replied <==> old(count) == PAYLOAD_LEN
      ensures !replied ==>
        count == old(count) && bus.chip == old(bus.chip) && tx[..] == old(tx[..]) && !done
      ensures replied ==>
        && count == 0
        && tx[..] == Reply(quat)
        && bus.chip == EnterRx(Transmit(Queued(EnterTx(old(bus.chip)), Reply(quat)), air))
        && bus.ce && (done <==> fuel > 0)
    {
      replied, done := false, false;
      if count != PAYLOAD_LEN {
        return;
      }
      replied := true;
      count := 0;
      Prepare(quat);
      done := Answer(bus, tx[..], air, fuel);
    }

    /** BNO_Read_Quaternions into bytes 2 to 9 of the reply. */
    method Prepare(quat: seq<bv8>)
      requires Valid() && |quat| == 8
      modifies tx
      ensures Valid() && tx[..] == Reply(quat)
    {
      assert tx[..2] == [NODE_ID, IMU_ID];
      StoreQuaternion(tx, quat);
    }
  }
}
