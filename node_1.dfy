/**
 * Node_1: an AVR node with one BNO055 that polls the radio instead of taking
 * its interrupt. It counts the 0xAA bytes it receives and, when the count
 * reaches exactly eight, answers with the eight quaternion bytes, sent with
 * CE held high and waited for, before going back to receiving.
 */
module Node1 {
  import opened Nrf24Chip
  import opened Spi
  import opened NodeDriver
  import opened AvrNode
  import opened AvrPolled

  const PAYLOAD_LEN: nat := 8
  const RX_WIDTH: bv8 := 0x08
  /** RF_SETUP = 0x0E: 2 Mbps, 0 dBm. */
  const RF_SETUP_VALUE: bv8 := 0x0E
  const RX_ADDRESS: seq<bv8> := [0xAA, 0xBB, 0xCC, 0xDD, 0xEE]
  const TX_ADDRESS: seq<bv8> := [0x11, 0x12, 0x13, 0x14, 0x15]

  /** The chip after Init_nrf: the common register set (SETUP_RETR left at its value), then RX mode. */
  function Initialised(s: State): (t: State)
    requires Valid(s)
    ensures Valid(t) && Listening(t) && TxIdle(t) && t.rxFifo == []
    ensures t.rxAddr0 == RX_ADDRESS && t.txAddr == TX_ADDRESS && t.regs[RX_PW_P0] == RX_WIDTH
    ensures t.regs[RF_SETUP] == RF_SETUP_VALUE && t.regs[SETUP_RETR] == s.regs[SETUP_RETR] && AutoAckOn(t)
  {
    FixedRx(Addressed(s, RF_SETUP_VALUE, RX_ADDRESS, TX_ADDRESS, RX_WIDTH))
  }

  /** The flush, reset and CE high in main repeat what nRF_RX_mode has just done. */
  lemma ListenAgainIsIdle(s: State)
    requires Valid(s)
    ensures ClearFlags(FixedRx(s).(rxFifo := [])) == FixedRx(s)
  {
  }

  /**
   * Once the counter has passed eight it can only come back to eight by
   * wrapping around: at least 264 - c more 0xAA bytes must arrive first.
   */
  lemma OvershootNeedsWrap(c: nat, received: seq<bv8>)
    requires PAYLOAD_LEN < c < 256 && Tally(c, received) == PAYLOAD_LEN
    ensures CountAA(received) >= 256 + PAYLOAD_LEN - c
  {
  }

  /**
   * Node_1 never sees the station's acknowledgement of its answer: its pipe 0
   * listens on RX_ADDRESS, not on TX_ADDRESS where the answer goes. Every
   * answer from an idle transmitter (the node keeps it so) ends with MAX_RT,
   * whatever the air does, and RX mode again keeps
   * both addresses. ENAA_P0 is set, as Init_nrf leaves it (Initialised).
   */
  lemma NeverAcknowledged(s: State, quat: seq<bv8>, air: Air)
    requires Valid(s) && AutoAckOn(s) && TxIdle(s) && |quat| == PAYLOAD_LEN && s.txAddr == TX_ADDRESS && s.rxAddr0 == RX_ADDRESS
    ensures var t := Transmit(Queued(FixedTx(s), quat), air);
      Flags(t) & TX_DS == 0 && Flags(t) & MAX_RT != 0
    ensures var u := FixedRx(Transmit(Queued(FixedTx(s), quat), air));
      u.txAddr == TX_ADDRESS && u.rxAddr0 == RX_ADDRESS
  {
    var q := Queued(FixedTx(s), quat);
    assert RX_ADDRESS[0] != TX_ADDRESS[0];
    assert CanTransmit(q);
    UnmatchedNeverAcked(q, air);
  }

  class Node {
    const bus: Bus
    /** N1_payload_TX. */
    const tx: array<bv8>
    /** N1_payload_RX. */
    const rx: array<bv8>
    /** RX_Payload_cnt, a uint8_t. */
    var count: nat

    ghost predicate Valid()
      reads this, bus
    {
      && bus.Valid() && !bus.selected
      && tx.Length == PAYLOAD_LEN && rx.Length == PAYLOAD_LEN && tx != rx && count < 256
      && TxIdle(bus.chip)
    }

    /** main up to its loop: Init_nrf, then flush, reset, CE high, and the counter cleared. */
    constructor (bus: Bus)
      requires bus.Valid() && !bus.selected
      modifies bus
      ensures Valid() && this.bus == bus && fresh(tx) && fresh(rx) && count == 0
      ensures bus.chip == Initialised(old(bus.chip)) && bus.ce
    {
      this.bus := bus;
      tx := new bv8[PAYLOAD_LEN](_ => 0);
      rx := new bv8[PAYLOAD_LEN](_ => 0);
      count := 0;
      new;
      SetupAddressed(bus, RF_SETUP_VALUE, RX_ADDRESS, TX_ADDRESS, RX_WIDTH);
      FixedRxMode(bus);
      ghost var listening := bus.chip;
      StartListening(bus);
      ListenAgainIsIdle(Addressed(old(bus.chip), RF_SETUP_VALUE, RX_ADDRESS, TX_ADDRESS, RX_WIDTH));
    }

    /**
     * The head of the main loop: when nrf24_dataReady reports data,
     * nrf24_getData reads eight bytes (CE stays high), counting each 0xAA,
     * and clears RX_DR; otherwise nothing changes.
     */
    method Poll() returns (got: bool)
      requires Valid()
      modifies this`count, bus, rx
      ensures Valid() && bus.ce == old(bus.ce)
      ensures got <==> DataPending(old(bus.chip))
      ensures got ==>
        && rx[..] == RxHead(old(bus.chip), PAYLOAD_LEN)
        && count == Tally(old(count), rx[..])
        && bus.chip == AfterRead(old(bus.chip))
      ensures !got ==> count == old(count) && bus.chip == old(bus.chip) && rx[..] == old(rx[..])
    {
      var ready := DataReady(bus);
      got := ready != 0;
      if got {
        ghost var before := bus.chip;
        var aa := ReadPayload(bus, rx, PAYLOAD_LEN);
        RxKeepsTxIdle(before, 0, [0]);
        count := (count + aa) % 256;
      }
    }

    /**
     * The rest of the main loop. Only when the count is exactly eight: the
     * count cleared, the quaternion read into the payload, TX mode, the
     * payload sent with CE left high and waited for, the flags reset, RX mode.
     */
    method Step(quat: seq<bv8>, air: Air, fuel: nat) returns (replied: bool, done: bool)
      requires Valid() && |quat| == PAYLOAD_LEN
      modifies this`count, bus, tx
      ensures Valid()
      ensures replied <==> old(count) == PAYLOAD_LEN
      ensures !replied ==>
        count == old(count) && bus.chip == old(bus.chip) && tx[..] == old(tx[..]) && !done
      ensures replied ==>
        && count == 0 && tx[..] == quat
        && bus.chip == FixedRx(Transmit(Queued(FixedTx(old(bus.chip)), quat), air))
        && bus.ce && (done <==> fuel > 0)
    {
      replied, done := false, false;
      if count != PAYLOAD_LEN {
        return;
      }
      replied := true;
      count := 0;
      ReadQuaternions(quat);
      done := Reply(air, fuel);
    }

    /** BNO_Read_Quaternions: the eight quaternion bytes, W to Z, LSB first, into the payload. */
    method ReadQuaternions(quat: seq<bv8>)
      requires Valid() && |quat| == PAYLOAD_LEN
      modifies tx
      ensures Valid() && tx[..] == quat
    {
      tx[0] := quat[0];
      tx[1] := quat[1];
      tx[2] := quat[2];
      tx[3] := quat[3];
      tx[4] := quat[4];
      tx[5] := quat[5];
      tx[6] := quat[6];
      tx[7] := quat[7];
    }

    /** nRF_TX_mode, transmit_data, the wait, reset and nRF_RX_mode. */
    method Reply(air: Air, fuel: nat) returns (done: bool)
      requires Valid()
      modifies bus
      ensures Valid() && bus.ce && (done <==> fuel > 0)
      ensures bus.chip == FixedRx(Transmit(Queued(FixedTx(old(bus.chip)), tx[..]), air))
    {
      FixedTxMode(bus);
      done := SendHeld(bus, tx[..], air, fuel);
      RxModeClears(bus.chip);
      ResetFlags(bus);
      FixedRxMode(bus);
    }
  }
}
