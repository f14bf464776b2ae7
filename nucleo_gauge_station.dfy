/**
 * Nucleo_MAX17043_BS_RX: a base station that asks one battery node for its
 * fuel-gauge reading, over and over. Each round it transmits four 0xAA
 * request bytes, waits, clears the flags and listens; the IRQ handler reads
 * the reply and decodes the cell voltage and state of charge.
 *
 * The chip is told to expect 8-byte payloads on pipe 0 (RX_PW_P0 = 8) while
 * the node's reply is PAYLOAD_LEN = 4 bytes: with static payload widths the
 * reply never enters the RX FIFO.
 */
module NucleoGaugeStation {
  import opened Nrf24Chip
  import opened Spi
  import opened NodeDriver
  import opened Sensors

  const PAYLOAD_LEN: nat := 4
  const RX_WIDTH: bv8 := 0x08
  const RETRIES: bv8 := 0x2F
  const BS_PAYLOAD_TX: seq<bv8> := [0xAA, 0xAA, 0xAA, 0xAA]

  /** The addresses nRF_Init writes inline: the receive address of pipe 0 and the transmit address. */
  const RX_ADDRESS: seq<bv8> := [0x11, 0x12, 0x13, 0x14, 0x15]
  const TX_ADDRESS: seq<bv8> := [0xAA, 0xBB, 0xCC, 0xDD, 0xEE]

  /** The one-byte registers nRF_Init writes. */
  predicate InitWrites(r: nat)
  {
    r in {EN_AA, EN_RXADDR, SETUP_AW, RF_CH, RF_SETUP, RX_PW_P0, SETUP_RETR}
  }

  /** The registers nRF_Init sets before switching to TX mode. */
  function Configured(s: State): (t: State)
    requires Valid(s)
    ensures Valid(t)
    ensures t.regs[EN_AA] == 0x01 && t.regs[EN_RXADDR] == 0x01 && t.regs[SETUP_AW] == 0x03
    ensures t.regs[RF_CH] == 0x69 && t.regs[RF_SETUP] == 0x26
    ensures t.regs[RX_PW_P0] == RX_WIDTH && t.regs[SETUP_RETR] == RETRIES
    ensures t.rxAddr0 == RX_ADDRESS && t.txAddr == TX_ADDRESS
    ensures forall r :: 0 <= r < REGISTER_COUNT && !InitWrites(r) ==> t.regs[r] == s.regs[r]
    ensures t.rxFifo == s.rxFifo && t.txFifo == s.txFifo && t.rxAddr1 == s.rxAddr1
  {
    var radio := s.(regs := s.regs[EN_AA := 0x01][EN_RXADDR := 0x01][SETUP_AW := 0x03][RF_CH := 0x69][RF_SETUP := 0x26]);
    var addressed := radio.(rxAddr0 := RX_ADDRESS, txAddr := TX_ADDRESS);
    var sized := addressed.(regs := addressed.regs[RX_PW_P0 := RX_WIDTH]);
    sized.(regs := sized.regs[SETUP_RETR := RETRIES])
  }

  /**
   * nRF_Init: the radio set-up, the two addresses written byte by byte in
   * array order inside their own brackets, RX_PW_P0 and SETUP_RETR, then TX
   * mode.
   */
  method Init(bus: Bus)
    requires bus.Valid() && !bus.selected
    modifies bus
    ensures bus.Valid() && !bus.selected && !bus.ce
    ensures bus.chip == EnterTx(Configured(old(bus.chip)))
  {
    SetupRadio(bus, 0x26);
    WriteAddresses(bus);
    WriteByte(bus, RX_PW_P0, RX_WIDTH);
    WriteByte(bus, SETUP_RETR, RETRIES);
    TxMode(bus);
  }

  /** The receive address of pipe 0 and the transmit address, each in its own bracket. */
  method WriteAddresses(bus: Bus)
    requires bus.Valid() && !bus.selected
    modifies bus
    ensures bus.Valid() && !bus.selected && bus.ce == old(bus.ce)
    ensures bus.chip == old(bus.chip).(rxAddr0 := RX_ADDRESS, txAddr := TX_ADDRESS)
  {
    WideWrite(bus.chip, RX_ADDR_P0, RX_ADDRESS);
    WriteAddress(bus, RX_ADDR_P0, RX_ADDRESS);
    WideWrite(bus.chip, TX_ADDR, TX_ADDRESS);
    WriteAddress(bus, TX_ADDR, TX_ADDRESS);
  }

  /**
   * The node's four-byte reply never reaches the handler: pipe 0 is told to
   * expect RX_WIDTH = 8 bytes and dynamic payload length is off, so the
   * reply never enters the RX FIFO. No RX_DR, no interrupt, and the station
   * stays in mode 1.
   */
  lemma ReplyNeverArrives(s: State, g: Gauge)
    requires Valid(s) && s.regs[RX_PW_P0] == RX_WIDTH && !DynamicOn(s, 0)
    ensures Receive(s, 0, GaugePayload(g)) == s
  {
    WrongWidthDropped(s, 0, GaugePayload(g));
  }

  /** nRF_Init sets pipe 0 eight bytes wide and leaves dynamic payload length as it was. */
  lemma InitWidth(s: State)
    requires Valid(s)
    ensures var t := EnterTx(Configured(s));
      t.regs[RX_PW_P0] == RX_WIDTH && (DynamicOn(t, 0) <==> DynamicOn(s, 0))
  {
    var c := Configured(s);
    assert !InitWrites(DYNPD) && !InitWrites(FEATURE);
    assert c.regs[DYNPD] == s.regs[DYNPD] && c.regs[FEATURE] == s.regs[FEATURE];
  }

  /** A round rewrites only CONFIG, STATUS and OBSERVE_TX: pipe 0 keeps its width and its dynamic length setting. */
  lemma RoundKeepsWidth(s: State, air: Air)
    requires Valid(s)
    ensures var t := EnterRx(ClearFlags(Transmit(Queued(EnterTx(s), BS_PAYLOAD_TX), air)));
      t.regs[RX_PW_P0] == s.regs[RX_PW_P0] && (DynamicOn(t, 0) <==> DynamicOn(s, 0))
  {
    var q := Queued(EnterTx(s), BS_PAYLOAD_TX);
    assert q.regs[RX_PW_P0] == s.regs[RX_PW_P0] && q.regs[DYNPD] == s.regs[DYNPD] && q.regs[FEATURE] == s.regs[FEATURE];
    TransmitKeepsSettings(q, air, RX_PW_P0);
    TransmitKeepsSettings(q, air, DYNPD);
    TransmitKeepsSettings(q, air, FEATURE);
  }

  /**
   * The handler's decoding, for a gauge payload at the head of the RX FIFO
   * (which needs a pipe width of four): the 12-bit cell reading and the
   * whole percentage the node sent.
   */
  lemma GaugeReachesStation(s: State, g: Gauge)
    requires Valid(s) && s.rxFifo != [] && s.rxFifo[0].data == GaugePayload(g)
    ensures var rx := RxHead(s, PAYLOAD_LEN);
      && CellReading(rx[0], rx[1]) == g.vcell >> 4
      && SocPercent(rx[2], rx[3]) == (g.soc >> 8) as nat
  {
    var rx := RxHead(s, PAYLOAD_LEN);
    assert rx == GaugePayload(g);
    GaugeRoundTrip(g);
  }

  class BaseStation {
    const bus: Bus
    /** BS_payload_RX. */
    const rx: array<bv8>
    /** 0 - TX; 1 - RX. */
    var mode: bv8

    ghost predicate Valid()
      reads this, bus
    {
      bus.Valid() && !bus.selected && rx.Length == PAYLOAD_LEN
    }

    /** main up to its loop: nRF_Init and mode 0. */
    constructor (bus: Bus)
      requires bus.Valid() && !bus.selected
      modifies bus
      ensures Valid() && this.bus == bus && fresh(rx) && mode == 0
      ensures bus.chip == EnterTx(Configured(old(bus.chip)))
    {
      this.bus := bus;
      rx := new bv8[PAYLOAD_LEN];
      mode := 0;
      new;
      Init(bus);
    }

    /**
     * One pass of the main loop: with mode 0, TX mode, the four request
     * bytes with a CE pulse, the wait, the flags reset, mode 1, RX mode and
     * CE high once more. There is no RX flush beyond RX mode's own.
     */
    method Round(air: Air, fuel: nat) returns (done: bool)
      requires Valid()
      modifies this`mode, bus
      ensures Valid()
      ensures old(mode) != 0 ==> mode == old(mode) && bus.chip == old(bus.chip) && !done
      ensures old(mode) == 0 ==>
        && mode == 1
        && bus.chip == EnterRx(ClearFlags(Transmit(Queued(EnterTx(old(bus.chip)), BS_PAYLOAD_TX), air)))
        && Listening(bus.chip) && bus.ce
        && (done <==> fuel > 0)
    {
      done := false;
      if mode != 0 {
        return;
      }
      done := TransmitAndWait(bus, BS_PAYLOAD_TX, air, fuel);
      ResetFlags(bus);
      mode := 1;
      RxMode(bus);
      bus.SetCE(true);
    }

    /**
     * nRF_IRQ_vect: CE low, R_RX_PAYLOAD and four exchanged bytes into
     * BS_payload_RX, RX_DR cleared, mode 0. The decoded readings are
     * `CellReading(rx[0], rx[1])` and `SocPercent(rx[2], rx[3])`.
     */
    method Irq()
      requires Valid()
      modifies this`mode, bus, rx
      ensures Valid()
      ensures mode == 0
      ensures rx[..] == RxHead(old(bus.chip), PAYLOAD_LEN)
      ensures bus.chip == AfterRead(old(bus.chip)) && !bus.ce
    {
      var _ := IrqRead(bus, rx, PAYLOAD_LEN);
      mode := 0;
    }
  }
}
