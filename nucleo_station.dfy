/**
 * What the Nucleo base-station firmwares (Nucleo_BS_Multi_ACK, Nucleo_BS_Final,
 * Nucleo_BNO_MAX_Nex_nRF and the older Nucleo_BNO_MAX_nRF) share beyond the
 * register driver: the two node addresses, the node-select functions, the
 * register setup of nRF_Init, the request they transmit, and the two halves of
 * a polling round (transmit and wait; back to listening).
 */
module NucleoStation {
  import opened Nrf24Chip
  import opened Spi
  import opened NodeDriver

  const NRF_ADDR_LEN: nat := 5
  const PAYLOAD_LEN: nat := 10

  const NODE_1_ID: bv8 := 0x01
  const NODE_2_ID: bv8 := 0x02

  const N1_ADDRESS: seq<bv8> := [0x11, 0x12, 0x13, 0x14, 0x15]
  const N2_ADDRESS: seq<bv8> := [0x21, 0x22, 0x23, 0x24, 0x25]

  /** BS_payload_TX: PAYLOAD_LEN request bytes. */
  const BS_PAYLOAD_TX: seq<bv8> := seq(PAYLOAD_LEN, _ => REQUEST_BYTE)

  /** A node id that nRF_Node_Select knows. */
  predicate KnownNode(id: bv8)
  {
    id == NODE_1_ID || id == NODE_2_ID
  }

  /**
   * The bytes nRF_Set_Addr_TX / nRF_Set_Addr_RX clock out after the command:
   * the node's address for ids 0x01 and 0x02 and nothing otherwise. Their
   * `addrData` and `addrLen` arguments are not used.
   */
  function AddressBytes(id: bv8): (a: seq<bv8>)
    ensures KnownNode(id) <==> |a| == NRF_ADDR_LEN
    ensures !KnownNode(id) ==> a == []
  {
    if id == NODE_1_ID then N1_ADDRESS else if id == NODE_2_ID then N2_ADDRESS else []
  }

  /** The two nodes have different addresses, so selecting one never reaches the other. */
  lemma AddressesDistinct()
    ensures AddressBytes(NODE_1_ID) != AddressBytes(NODE_2_ID)
  {
    assert AddressBytes(NODE_1_ID)[0] != AddressBytes(NODE_2_ID)[0];
  }

  /** The chip after nRF_Node_Select for node `id`. */
  function Selected(s: State, id: bv8): (t: State)
    requires Valid(s)
    ensures Valid(t)
    ensures KnownNode(id) ==> t.txAddr == AddressBytes(id) && t.rxAddr0 == AddressBytes(id)
    ensures !KnownNode(id) ==> t == s
    ensures t.regs == s.regs && t.rxFifo == s.rxFifo && t.txFifo == s.txFifo && t.reuse == s.reuse
  {
    if KnownNode(id) then s.(txAddr := AddressBytes(id), rxAddr0 := AddressBytes(id)) else s
  }

  /** nRF_Set_Addr_TX (reg = TX_ADDR) and nRF_Set_Addr_RX (reg = RX_ADDR_P0): one bracket. */
  method SetAddress(bus: Bus, reg: nat, id: bv8)
    requires bus.Valid() && !bus.selected && (reg == TX_ADDR || reg == RX_ADDR_P0)
    modifies bus
    ensures bus.Valid() && !bus.selected && bus.ce == old(bus.ce)
    ensures KnownNode(id) && reg == TX_ADDR ==> bus.chip == old(bus.chip).(txAddr := AddressBytes(id))
    ensures KnownNode(id) && reg == RX_ADDR_P0 ==> bus.chip == old(bus.chip).(rxAddr0 := AddressBytes(id))
    ensures !KnownNode(id) ==> bus.chip == old(bus.chip)
    ensures bus.trace == old(bus.trace) + [Bracket([W_REGISTER + reg as bv8] + AddressBytes(id))]
  {
    if KnownNode(id) {
      WideWrite(bus.chip, reg, AddressBytes(id));
    }
    assert ([W_REGISTER + reg as bv8] + AddressBytes(id))[1..] == AddressBytes(id);
    assert ((W_REGISTER + reg as bv8) & REGISTER_MASK) as nat == reg;
    bus.WriteBytes(W_REGISTER + reg as bv8, AddressBytes(id));
  }

  /**
   * nRF_Node_Select, applied to the table entry `id`: for ids 0x01 and 0x02 the
   * same address goes to TX_ADDR and then RX_ADDR_P0 (so the ACK comes back on
   * pipe 0); any other id writes nothing.
   */
  method NodeSelect(bus: Bus, id: bv8)
    requires bus.Valid() && !bus.selected
    modifies bus
    ensures bus.Valid() && !bus.selected && bus.ce == old(bus.ce)
    ensures bus.chip == Selected(old(bus.chip), id)
    ensures KnownNode(id) ==>
      bus.trace == old(bus.trace)
        + [Bracket([W_REGISTER + TX_ADDR as bv8] + AddressBytes(id))]
        + [Bracket([W_REGISTER + RX_ADDR_P0 as bv8] + AddressBytes(id))]
    ensures !KnownNode(id) ==> bus.trace == old(bus.trace)
  {
    if KnownNode(id) {
      SetAddress(bus, TX_ADDR, id);
      SetAddress(bus, RX_ADDR_P0, id);
    }
  }

  /**
   * nRF_Init: auto-ACK and RX on pipe 0 only, 5-byte addresses, channel 0x69,
   * RF_SETUP 0x26, RX_PW_P0 = `width`, SETUP_RETR 0xFF (4000 us, 15 retries),
   * then TX mode.
   */
  method Init(bus: Bus, width: bv8)
    requires bus.Valid() && !bus.selected
    modifies bus
    ensures bus.Valid() && !bus.selected && !bus.ce
    ensures var r := bus.chip.regs;
      r[EN_AA] == 0x01 && r[EN_RXADDR] == 0x01 && r[SETUP_AW] == 0x03 && r[RF_CH] == 0x69
      && r[RF_SETUP] == 0x26 && r[RX_PW_P0] == width && r[SETUP_RETR] == 0xFF
    ensures bus.chip.regs[CONFIG] == TxConfig(old(bus.chip).regs[CONFIG]) && Flags(bus.chip) == 0
    ensures bus.chip.txFifo == [] && bus.chip.rxFifo == old(bus.chip).rxFifo
    ensures bus.chip.txAddr == old(bus.chip).txAddr && bus.chip.rxAddr0 == old(bus.chip).rxAddr0
  {
    Setup(bus, width);
    TxMode(bus);
  }

  /** The seven register writes of nRF_Init, before the mode switch. */
  method Setup(bus: Bus, width: bv8)
    requires bus.Valid() && !bus.selected
    modifies bus
    ensures bus.Valid() && !bus.selected && bus.ce == old(bus.ce)
    ensures bus.chip == old(bus.chip).(regs := old(bus.chip).regs[EN_AA := 0x01][EN_RXADDR := 0x01][SETUP_AW := 0x03]
      [RF_CH := 0x69][RF_SETUP := 0x26][RX_PW_P0 := width][SETUP_RETR := 0xFF])
  {
    SetupRadio(bus, 0x26);
    WriteByte(bus, RX_PW_P0, width);
    WriteByte(bus, SETUP_RETR, 0xFF);
  }

  /**
   * A request to `id` completes as the station sees it: at once with ENAA_P0
   * clear, otherwise when acknowledged within the retry budget with pipe 0
   * listening, after nRF_Node_Select, on the address the request goes to.
   */
  predicate NodeAnswered(s: State, id: bv8, air: Air)
    requires Valid(s)
  {
    !AutoAckOn(s) || (air.Delivered? && air.retries <= RetryBudget(s) && AckMatch(Selected(s, id)))
  }

  /** Selecting a known node points both addresses at it, so the station can see its acknowledgement. */
  lemma SelectedMatches(s: State, id: bv8)
    requires Valid(s) && KnownNode(id)
    ensures AckMatch(Selected(s, id))
  {
  }

  /**
   * What nRF_send_Status reports after a request sent to node `id`: OK exactly
   * when the node acknowledged within the retry budget set by SETUP_RETR and
   * the station could see the acknowledgement.
   */
  lemma RequestOutcome(s: State, id: bv8, payload: seq<bv8>, air: Air)
    requires Valid(s) && 1 <= |payload| <= MAX_PAYLOAD
    ensures var t := Transmit(Queued(EnterTx(Selected(s, id)), payload), air);
      && Sending(StatusByte(t)) == 0
      && (Outcome(StatusByte(t)) == TRANSMISSON_OK <==> NodeAnswered(s, id, air))
      && (Outcome(StatusByte(t)) == MESSAGE_LOST <==> !NodeAnswered(s, id, air))
  {
    var q := Queued(EnterTx(Selected(s, id)), payload);
    assert q.regs[SETUP_RETR] == s.regs[SETUP_RETR] && q.regs[EN_AA] == s.regs[EN_AA];
    TransmissionOutcome(q, air);
  }

  /** The transmit half of a round: nRF_Node_Select for `id`, then the request. */
  method PollNode(bus: Bus, id: bv8, payload: seq<bv8>, air: Air, fuel: nat) returns (done: bool)
    requires bus.Valid() && !bus.selected && 1 <= |payload| <= MAX_PAYLOAD
    modifies bus
    ensures bus.Valid() && !bus.selected && !bus.ce
    ensures bus.chip == Transmit(Queued(EnterTx(Selected(old(bus.chip), id)), payload), air)
    ensures done <==> fuel > 0
  {
    NodeSelect(bus, id);
    done := TransmitAndWait(bus, payload, air, fuel);
  }

  /** A poll of node `id`, then the radio back to listening, still addressed to the node. */
  method PollAndListen(bus: Bus, id: bv8, payload: seq<bv8>, air: Air, fuel: nat) returns (done: bool)
    requires bus.Valid() && !bus.selected && 1 <= |payload| <= MAX_PAYLOAD
    modifies bus
    ensures bus.Valid() && !bus.selected && bus.ce && Listening(bus.chip)
    ensures bus.chip == EnterRx(Transmit(Queued(EnterTx(Selected(old(bus.chip), id)), payload), air))
    ensures KnownNode(id) ==> bus.chip.txAddr == AddressBytes(id) && bus.chip.rxAddr0 == AddressBytes(id)
    ensures done <==> fuel > 0
  {
    done := PollNode(bus, id, payload, air, fuel);
    Listen(bus);
  }

}
