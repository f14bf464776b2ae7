/**
 * Rbkyo_RX: a receiver that polls the radio and reads each 32-byte payload
 * from 0xAA 0xBB 0xCC 0xDD 0xEE.
 */
module RbkyoRx {
  import opened Nrf24Chip
  import opened Spi
  import opened NodeDriver
  import opened AvrNode
  import opened AvrPolled

  const PAYLOAD_LEN: nat := 32
  const RX_WIDTH: bv8 := 0x20
  const RX_ADDRESS: seq<bv8> := [0xAA, 0xBB, 0xCC, 0xDD, 0xEE]
  const TX_ADDRESS: seq<bv8> := [0x01, 0x02, 0x03, 0x04, 0x05]

  /** The chip after Init_nrf and main's flush, reset and CE high: listening on pipe 0 for 32-byte payloads. */
  function Initialised(s: State): (t: State)
    requires Valid(s)
    ensures Valid(t) && Listening(t) && Flags(t) == 0 && t.rxFifo == []
    ensures t.rxAddr0 == RX_ADDRESS && t.txAddr == TX_ADDRESS && t.regs[RX_PW_P0] == RX_WIDTH
    ensures t.regs[EN_RXADDR] == 0x01 && t.regs[CONFIG] == RX_CONFIG
  {
    var sized := Addressed(s, 0x0E, RX_ADDRESS, TX_ADDRESS, RX_WIDTH);
    ClearFlags(sized.(regs := sized.regs[CONFIG := RX_CONFIG], rxFifo := []))
  }

  class Receiver {
    const bus: Bus
    /** payload[32]. */
    const payload: array<bv8>

    ghost predicate Valid()
      reads this, bus
    {
      bus.Valid() && !bus.selected && payload.Length == PAYLOAD_LEN
    }

    /** main up to its loop: Init_nrf (CONFIG written as 0x1F), flush RX, reset, CE high. */
    constructor (bus: Bus)
      requires bus.Valid() && !bus.selected
      modifies bus
      ensures Valid() && this.bus == bus && fresh(payload)
      ensures bus.chip == Initialised(old(bus.chip)) && bus.ce
    {
      this.bus := bus;
      payload := new bv8[PAYLOAD_LEN](_ => 0);
      new;
      SetupAddressed(bus, 0x0E, RX_ADDRESS, TX_ADDRESS, RX_WIDTH);
      WriteByte(bus, CONFIG, RX_CONFIG);
      StartListening(bus);
    }

    /** One pass of the main loop: when nrf24_dataReady reports data, nrf24_getData reads 32 bytes and clears RX_DR. */
    method Poll() returns (got: bool)
      requires Valid()
      modifies bus, payload
      ensures Valid() && bus.ce == old(bus.ce)
      ensures got <==> DataPending(old(bus.chip))
      ensures got ==> payload[..] == RxHead(old(bus.chip), PAYLOAD_LEN) && bus.chip == AfterRead(old(bus.chip))
      ensures !got ==> bus.chip == old(bus.chip) && payload[..] == old(payload[..])
    {
      var ready := DataReady(bus);
      got := ready != 0;
      if got {
        var _ := ReadPayload(bus, payload, PAYLOAD_LEN);
      }
    }
  }
}

/**
 * Rbkyo_TX: sends "Hmmmmmm...\n" one character per packet to 01 02 03 04 05,
 * resetting the flags only after each whole string.
 */
module RbkyoTx {
  import opened Nrf24Chip
  import opened Spi
  import opened NodeDriver
  import opened AvrNode
  import opened AvrPolled

  const ADDRESS: seq<bv8> := [0x01, 0x02, 0x03, 0x04, 0x05]
  const RX_WIDTH: bv8 := 0x01

  /** The string main sends, "Hmmmmmm...\n", as C stores it: its ASCII bytes and a NUL. */
  const MESSAGE: seq<bv8> := [0x48, 0x6D, 0x6D, 0x6D, 0x6D, 0x6D, 0x6D, 0x2E, 0x2E, 0x2E, 0x0A, 0x00]

  /** The message is eleven characters: eleven packets per pass. */
  lemma MessageLength()
    ensures 0 in MESSAGE && Strlen(MESSAGE) == 11
  {
    StrlenOf(MESSAGE, 11);
  }

  /**
   * The chip after Init_nrf, which leaves EN_AA at its value (its write is
   * commented out) and writes CONFIG = 0x1E.
   */
  function Initialised(s: State): (t: State)
    requires Valid(s)
    ensures Valid(t) && t.regs[EN_AA] == s.regs[EN_AA] && t.regs[CONFIG] == TX_CONFIG
    ensures t.rxAddr0 == ADDRESS && t.txAddr == ADDRESS && t.regs[RX_PW_P0] == RX_WIDTH
    ensures Flags(t) == Flags(s) && t.txFifo == s.txFifo
  {
    var sized := Addressed(s, 0x0E, ADDRESS, ADDRESS, RX_WIDTH);
    sized.(regs := sized.regs[EN_AA := s.regs[EN_AA]][CONFIG := TX_CONFIG])
  }

  /** Init_nrf. */
  method Init(bus: Bus)
    requires bus.Valid() && !bus.selected
    modifies bus
    ensures bus.Valid() && !bus.selected && bus.ce == old(bus.ce)
    ensures bus.chip == Initialised(old(bus.chip))
  {
    Radio(bus);
    Addressing(bus);
  }

  /** The rest of Init_nrf: both addresses 01 02 03 04 05, one-byte payloads, CONFIG = 0x1E. */
  method Addressing(bus: Bus)
    requires bus.Valid() && !bus.selected
    modifies bus
    ensures bus.Valid() && !bus.selected && bus.ce == old(bus.ce)
    ensures bus.chip == old(bus.chip).(rxAddr0 := ADDRESS, txAddr := ADDRESS,
      regs := old(bus.chip).regs[RX_PW_P0 := RX_WIDTH][CONFIG := TX_CONFIG])
  {
    WriteAddresses(bus, ADDRESS, ADDRESS);
    WriteByte(bus, RX_PW_P0, RX_WIDTH);
    WriteByte(bus, CONFIG, TX_CONFIG);
  }

  /** The first four writes of Init_nrf: pipe 0 enabled, 5-byte addresses, channel 0x69, 2 Mbps at 0 dBm. */
  method Radio(bus: Bus)
    requires bus.Valid() && !bus.selected
    modifies bus
    ensures bus.Valid() && !bus.selected && bus.ce == old(bus.ce)
    ensures bus.chip == old(bus.chip).(regs := old(bus.chip).regs[EN_RXADDR := 0x01]
      [SETUP_AW := 0x03][RF_CH := 0x69][RF_SETUP := 0x0E])
  {
    WriteByte(bus, EN_RXADDR, 0x01);
    WriteByte(bus, SETUP_AW, 0x03);
    WriteByte(bus, RF_CH, 0x69);
    WriteByte(bus, RF_SETUP, 0x0E);
  }

  /**
   * One pass of the main loop: the message sent one character per packet,
   * then the flags reset twice. Packet `i` meets `airs[i]` on the air.
   */
  method Step(bus: Bus, airs: seq<Air>)
    requires bus.Valid() && !bus.selected && |airs| >= 11
    modifies bus
    ensures bus.Valid() && !bus.selected && !bus.ce
    ensures bus.chip == ClearFlags(Sent(old(bus.chip), MESSAGE[..11], airs))
    ensures bus.trace == old(bus.trace) + Packets(MESSAGE[..11], airs) + [Poke(STATUS, IRQ_FLAGS)] + [Poke(STATUS, IRQ_FLAGS)]
  {
    SendMessage(bus, airs);
    ResetFlags(bus);
    ResetFlags(bus);
  }

  /** nRF_Put_String("Hmmmmmm...\n"): its eleven characters, one packet each. */
  method SendMessage(bus: Bus, airs: seq<Air>)
    requires bus.Valid() && !bus.selected && |airs| >= 11
    modifies bus
    ensures bus.Valid() && !bus.selected && !bus.ce
    ensures bus.chip == Sent(old(bus.chip), MESSAGE[..11], airs)
    ensures bus.trace == old(bus.trace) + Packets(MESSAGE[..11], airs)
  {
    MessageLength();
    var _ := PutString(bus, MESSAGE, airs);
  }

}

/**
 * The earlier Rbkyo_TX: sends its fixed 32-byte payload to 0xAA..0xEE with
 * CE left high, waits for the outcome and resets the flags, forever.
 */
module OldRbkyoTx {
  import opened Nrf24Chip
  import opened Spi
  import opened NodeDriver
  import opened AvrNode
  import opened AvrPolled
  import RbkyoRx

  const PAYLOAD_LEN: nat := 32
  const RX_WIDTH: bv8 := 0x20
  const RX_ADDRESS: seq<bv8> := [0x01, 0x02, 0x03, 0x04, 0x05]
  const TX_ADDRESS: seq<bv8> := [0xAA, 0xBB, 0xCC, 0xDD, 0xEE]

  /** payload[32]: 0x01 to 0x32 written as decimal digit pairs. */
  const PAYLOAD: seq<bv8> := [
    0x01, 0x02, 0x03, 0x04, 0x05, 0x06, 0x07, 0x08,
    0x09, 0x10, 0x11, 0x12, 0x13, 0x14, 0x15, 0x16,
    0x17, 0x18, 0x19, 0x20, 0x21, 0x22, 0x23, 0x24,
    0x25, 0x26, 0x27, 0x28, 0x29, 0x30, 0x31, 0x32]

  /** The chip after Init_nrf: the common register set, CONFIG = 0x1E. */
  function Initialised(s: State): (t: State)
    requires Valid(s)
    ensures Valid(t) && t.regs[CONFIG] == TX_CONFIG && Flags(t) == Flags(s)
    ensures t.rxAddr0 == RX_ADDRESS && t.txAddr == TX_ADDRESS && t.regs[RX_PW_P0] == RX_WIDTH
  {
    var sized := Addressed(s, 0x0E, RX_ADDRESS, TX_ADDRESS, RX_WIDTH);
    sized.(regs := sized.regs[CONFIG := TX_CONFIG])
  }

  /** The payload fills Rbkyo_RX's 32-byte pipe at the address Rbkyo_RX listens on. */
  lemma AddressedToRbkyoRx(s: State, r: State)
    requires Valid(s) && Valid(r)
    ensures Initialised(s).txAddr == RbkyoRx.Initialised(r).rxAddr0
    ensures |PAYLOAD| == RbkyoRx.PAYLOAD_LEN == RbkyoRx.Initialised(r).regs[RX_PW_P0] as nat
  {
  }

  class Sender {
    const bus: Bus

    ghost predicate Valid()
      reads this, bus
    {
      bus.Valid() && !bus.selected && TxIdle(bus.chip)
    }

    /** Init_nrf, from a chip with no transmit flag raised (as after power-on). */
    constructor (bus: Bus)
      requires bus.Valid() && !bus.selected && TxIdle(bus.chip)
      modifies bus
      ensures Valid() && this.bus == bus
      ensures bus.chip == Initialised(old(bus.chip)) && bus.ce == old(bus.ce)
    {
      this.bus := bus;
      new;
      SetupAddressed(bus, 0x0E, RX_ADDRESS, TX_ADDRESS, RX_WIDTH);
      WriteByte(bus, CONFIG, TX_CONFIG);
    }

    /** One pass of the main loop: transmit_data (CE left high), the wait, reset. */
    method Step(air: Air, fuel: nat) returns (done: bool)
      requires Valid() && bus.chip.regs[CONFIG] == TX_CONFIG
      modifies bus
      ensures Valid() && bus.ce && bus.chip.regs[CONFIG] == TX_CONFIG
      ensures bus.chip == ClearFlags(Transmit(Queued(old(bus.chip), PAYLOAD), air))
      ensures done <==> fuel > 0
    {
      ghost var q := Queued(bus.chip, PAYLOAD);
      TransmitKeepsSettings(q, air, CONFIG);
      done := SendHeld(bus, PAYLOAD, air, fuel);
      ResetFlags(bus);
    }
  }
}
