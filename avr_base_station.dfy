/**
 * Base_Station (AVR): sends the request, eight 0xAA bytes, to the node and
 * listens for its answer, which the INT6 interrupt handler reads; the
 * handler's `mode = 0` sends the next request.
 */
module AvrBaseStation {
  import opened Nrf24Chip
  import opened Spi
  import opened NodeDriver
  import opened AvrNode
  import Node1

  const PAYLOAD_LEN: nat := 8
  const RX_WIDTH: bv8 := 0x08
  /** RF_SETUP = 0x0E: 2 Mbps, 0 dBm. */
  const RF_SETUP_VALUE: bv8 := 0x0E
  /** SETUP_RETR = 0x2F: 750 us between retransmissions, at most 15 of them. */
  const RETRIES: bv8 := 0x2F
  const RX_ADDRESS: seq<bv8> := [0x11, 0x12, 0x13, 0x14, 0x15]
  const TX_ADDRESS: seq<bv8> := [0xAA, 0xBB, 0xCC, 0xDD, 0xEE]

  /** BS_payload_TX: the request. */
  const REQUEST: seq<bv8> := [0xAA, 0xAA, 0xAA, 0xAA, 0xAA, 0xAA, 0xAA, 0xAA]

  /** The chip after nRF_Init: the common register set, SETUP_RETR = 0x2F, then TX mode. */
  function Initialised(s: State): (t: State)
    requires Valid(s)
    ensures Valid(t) && Flags(t) == 0 && t.txFifo == []
    ensures t.regs[CONFIG] & PWR_UP != 0 && t.regs[CONFIG] & PRIM_RX == 0
    ensures t.rxAddr0 == RX_ADDRESS && t.txAddr == TX_ADDRESS && t.regs[RX_PW_P0] == RX_WIDTH
    ensures RetryBudget(t) == 15 && t.regs[RF_SETUP] == RF_SETUP_VALUE && AutoAckOn(t)
  {
    var sized := Addressed(s, RF_SETUP_VALUE, RX_ADDRESS, TX_ADDRESS, RX_WIDTH);
    EnterTx(sized.(regs := sized.regs[SETUP_RETR := RETRIES]))
  }

  /**
   * The station and Node_1 address each other: each one's TX address is
   * the other's pipe 0 address, and both listen for eight-byte payloads.
   */
  lemma AddressedToNode1(s: State, n: State)
    requires Valid(s) && Valid(n)
    ensures Initialised(s).txAddr == Node1.Initialised(n).rxAddr0
    ensures Node1.Initialised(n).txAddr == Initialised(s).rxAddr0
    ensures Initialised(s).regs[RX_PW_P0] == Node1.Initialised(n).regs[RX_PW_P0] == |REQUEST| as bv8
  {
  }

  /**
   * The request is exactly what Node_1 waits for: read from a zero count it
   * brings the counter to eight, and no other eight bytes do.
   */
  lemma RequestTriggersNode1(p: seq<bv8>)
    requires |p| == Node1.PAYLOAD_LEN
    ensures Tally(0, p) == Node1.PAYLOAD_LEN <==> p == REQUEST
  {
    TallyOfRequest(p);
    assert REQUEST == seq(8, _ => REQUEST_BYTE);
  }

  /**
   * The station never sees Node_1's acknowledgement: its pipe 0 listens on
   * RX_ADDRESS, not on TX_ADDRESS where the request goes. Every request ends
   * with MAX_RT after the whole retry budget, whatever the air does, and the
   * pass leaves both addresses as they were, so the next request fares the same.
   * ENAA_P0 is set, as nRF_Init leaves it (Initialised).
   */
  lemma NeverAcknowledged(s: State, air: Air)
    requires Valid(s) && AutoAckOn(s) && s.txAddr == TX_ADDRESS && s.rxAddr0 == RX_ADDRESS
    ensures var t := Transmit(Queued(EnterTx(s), REQUEST), air);
      && Flags(t) & TX_DS == 0 && Flags(t) & MAX_RT != 0
      && (t.regs[OBSERVE_TX] & 0x0F) as nat == RetryBudget(s)
    ensures var u := EnterRx(ClearFlags(Transmit(Queued(EnterTx(s), REQUEST), air)));
      u.txAddr == TX_ADDRESS && u.rxAddr0 == RX_ADDRESS
  {
    var q := Queued(EnterTx(s), REQUEST);
    assert RX_ADDRESS[0] != TX_ADDRESS[0];
    assert q.regs[SETUP_RETR] == s.regs[SETUP_RETR];
    UnmatchedNeverAcked(q, air);
    RetriesRecorded(q, air);
  }

  /** The radio work of a mode-0 pass: the request sent and waited for, the flags reset, RX mode and CE high. */
  method Request(bus: Bus, air: Air, fuel: nat) returns (done: bool)
    requires bus.Valid() && !bus.selected
    modifies bus
    ensures bus.Valid() && !bus.selected && bus.ce
    ensures bus.chip == EnterRx(ClearFlags(Transmit(Queued(EnterTx(old(bus.chip)), REQUEST), air)))
    ensures done <==> fuel > 0
  {
    done := TransmitAndWait(bus, REQUEST, air, fuel);
    ResetFlags(bus);
    RxMode(bus);
    bus.SetCE(true);
  }

  class Station {
    const bus: Bus
    /** BS_payload_RX. */
    const rx: array<bv8>
    /**
     * The `mode` flag main and the interrupt handler share: 0 sends the next
     * request, 1 waits for the answer. main.c declares only `volatile uint8_t
     * nRF_mode` (main.c:39) and never uses it; `mode` itself is not declared
     * in main.c, so it can only come from "nrf.h". The model takes `mode` to
     * be one shared flag that main sees the handler write.
     */
    var mode: bv8
    /** The global interrupt enable (cli / sei). */
    var irqEnabled: bool
    /** Every byte nRF_Payload_RX has echoed to the UART, in order. */
    var echoed: seq<bv8>

    ghost predicate Valid()
      reads this, bus
    {
      bus.Valid() && !bus.selected && rx.Length == PAYLOAD_LEN
    }

    /** main up to its loop: nRF_Init (ending in TX mode), mode = 0, interrupts disabled. */
    constructor (bus: Bus)
      requires bus.Valid() && !bus.selected
      modifies bus
      ensures Valid() && this.bus == bus && fresh(rx)
      ensures mode == 0 && !irqEnabled && !bus.ce && echoed == []
      ensures bus.chip == Initialised(old(bus.chip))
    {
      this.bus := bus;
      rx := new bv8[PAYLOAD_LEN](_ => 0);
      mode := 0;
      irqEnabled := false;
      echoed := [];
      new;
      SetupAddressed(bus, RF_SETUP_VALUE, RX_ADDRESS, TX_ADDRESS, RX_WIDTH);
      WriteByte(bus, SETUP_RETR, RETRIES);
      TxMode(bus);
    }

    /**
     * ISR(INT6_vect): CE low, the eight bytes read into BS_payload_RX and
     * each echoed to the UART as it is clocked in, RX_DR cleared, and
     * mode = 0 so that main sends the next request.
     */
    method Isr()
      requires Valid() && irqEnabled
      modifies this`mode, this`echoed, bus, rx
      ensures Valid() && mode == 0 && !bus.ce
      ensures rx[..] == RxHead(old(bus.chip), PAYLOAD_LEN)
      ensures echoed == old(echoed) + rx[..]
      ensures bus.chip == AfterRead(old(bus.chip))
    {
      var _ := IrqRead(bus, rx, PAYLOAD_LEN);
      echoed := echoed + rx[..];
      mode := 0;
    }

    /**
     * One pass of the main loop. In mode 0: TX mode, the request sent
     * (transmit_data sends BS_payload_TX whatever it is passed) and waited
     * for, the flags reset, mode 1, RX mode, CE high and interrupts enabled.
     * In mode 1 nothing happens.
     */
    method Step(air: Air, fuel: nat) returns (sent: bool, done: bool)
      requires Valid()
      modifies this`mode, this`irqEnabled, bus
      ensures Valid()
      ensures sent <==> old(mode) == 0
      ensures !sent ==> mode == old(mode) && irqEnabled == old(irqEnabled) && bus.chip == old(bus.chip) && !done
      ensures sent ==>
        && mode == 1 && irqEnabled && bus.ce
        && bus.chip == EnterRx(ClearFlags(Transmit(Queued(EnterTx(old(bus.chip)), REQUEST), air)))
        && Listening(bus.chip) && (done <==> fuel > 0)
    {
      sent, done := false, false;
      if mode != 0 {
        return;
      }
      sent := true;
      done := Request(bus, air, fuel);
      mode := 1;
      irqEnabled := true;
    }
  }
}
