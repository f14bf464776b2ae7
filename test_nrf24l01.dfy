/**
 * The register-level driver the Test_nRF24L01 programs share. The TX program,
 * the older RX program and the RX draft each write it out with the same
 * bodies: register access through the 0x1F register mask, multi-byte
 * register streams, the data-rate and output-power read-modify-writes of
 * RF_SETUP, the operating modes, and the common first part of
 * nRF24L01_Config. Selectors and constants are those of Test_nRF24L01_TX.h;
 * the RX directory's header defines no mode selectors, no payload count and
 * no DEFAULT_CONFIG, so the RX programs take those from the TX header too.
 */
module Nrf24Test {
  import opened Nrf24Chip
  import opened Spi
  import opened NodeDriver

  /** RF channel 105, 2.505 GHz. */
  const CHANNEL: bv8 := 105

  // DR_Setup selectors
  const DR_250_KBPS: bv8 := 0
  const DR_1_MBPS: bv8 := 1
  const DR_2_MBPS: bv8 := 2
  /** Not a selector: what RateOf answers for the reserved setting (both rate bits set). */
  const DR_RESERVED: bv8 := 0xFF

  // OP_Power selectors
  const POWER_NEG_18_DBM: bv8 := 0
  const POWER_NEG_12_DBM: bv8 := 1
  const POWER_NEG_6_DBM: bv8 := 2
  const POWER_POS_0_DBM: bv8 := 3

  /** RF_PWR_0 and RF_PWR_1: bits 1 and 2 of RF_SETUP. */
  const RF_PWR_0: bv8 := 0x02
  const RF_PWR_1: bv8 := 0x04

  const PAYLOAD_LEN: bv8 := 0x01
  /** How many payload bytes Payload_TX and Payload_RX clock. */
  const PAYLOAD_CNT: nat := 1
  /** SETUP_AW code 3: five-byte addresses. */
  const ADDRESS_WIDTH_CODE: bv8 := 0x03
  /** SETUP_RETR 0: no retransmission. */
  const RETRY_COUNT: bv8 := 0x00

  // nRF24L01_Mode selectors
  const POWER_DOWN: bv8 := 0
  const TX_MODE: bv8 := 1
  const RX_MODE: bv8 := 2

  /** CRC enabled, one CRC byte, powered down, PTX. */
  const DEFAULT_CONFIG: bv8 := EN_CRC
  const TX_CONFIG: bv8 := DEFAULT_CONFIG | PWR_UP
  const RX_CONFIG: bv8 := DEFAULT_CONFIG | PWR_UP | PRIM_RX

  // ------------------------------------------------------ register commands

  /** The register a command for `reg` reaches once `reg` is masked with 0x1F. */
  function Masked(reg: bv8): (r: nat)
    ensures r < REGISTER_COUNT
  {
    (REGISTER_MASK & reg) as nat
  }

  /** Every address of the register map, up to FEATURE (0x1D), is kept by the mask. */
  lemma MaskKeepsRegister(r: nat)
    requires r < REGISTER_COUNT
    ensures Masked(r as bv8) == r
  {
  }

  /** A register number past the map aliases the register 32 below it. */
  lemma MaskAliases(reg: bv8)
    requires reg >= 0x20
    ensures Masked(reg) == Masked(reg - 0x20)
  {
  }

  /** `W_REGISTER | (0x1F & reg)` is a register write and addresses Masked(reg). */
  lemma WriteCommand(reg: bv8)
    ensures W_REGISTER <= W_REGISTER | (REGISTER_MASK & reg) < 0x40
    ensures ((W_REGISTER | (REGISTER_MASK & reg)) & REGISTER_MASK) as nat == Masked(reg)
  {
  }

  /** `R_REGISTER | (0x1F & reg)` is a register read and addresses Masked(reg). */
  lemma ReadCommand(reg: bv8)
    ensures R_REGISTER | (REGISTER_MASK & reg) < W_REGISTER
    ensures ((R_REGISTER | (REGISTER_MASK & reg)) & REGISTER_MASK) as nat == Masked(reg)
  {
  }

  /** The bracket of nRF24L01_Read_Reg. */
  function ReadFrame(reg: bv8): Event
  {
    Bracket([R_REGISTER | (REGISTER_MASK & reg), NOP])
  }

  /** The bracket of nRF24L01_Write_Reg. */
  function WriteFrame(reg: bv8, v: bv8): Event
  {
    Bracket([W_REGISTER | (REGISTER_MASK & reg), v])
  }

  /** `n` NOP bytes. */
  function Nops(n: nat): (r: seq<bv8>)
    ensures |r| == n
  {
    seq(n, _ => NOP)
  }

  /** What the chip shifts out with bytes 1 to `n` of a bracket that started with `cmd`. */
  function Echoes(s: State, cmd: bv8, n: nat): (r: seq<bv8>)
    requires Valid(s)
    ensures |r| == n
  {
    seq(n, i requires 0 <= i < n => Echo(s, cmd, i + 1))
  }

  /** The echoes of an R_RX_PAYLOAD bracket are the head payload, zero-padded. */
  lemma PayloadEchoes(s: State, n: nat)
    requires Valid(s)
    ensures Echoes(s, R_RX_PAYLOAD, n) == RxHead(s, n)
  {
    assert forall i :: 0 <= i < n ==> Echoes(s, R_RX_PAYLOAD, n)[i] == RxHead(s, n)[i];
  }

  /** The echoes of a W_TX_PAYLOAD bracket are all 0x00. */
  lemma PayloadWriteEchoes(s: State, n: nat)
    requires Valid(s)
    ensures Echoes(s, W_TX_PAYLOAD, n) == seq(n, _ => 0)
  {
    assert forall i :: 0 <= i < n ==> Echoes(s, W_TX_PAYLOAD, n)[i] == 0;
  }

  /** nRF24L01_Write_Reg: W_REGISTER | (0x1F & reg), then `data`, in one bracket. */
  method WriteReg(bus: Bus, reg: bv8, data: bv8)
    requires bus.Valid() && !bus.selected
    modifies bus
    ensures bus.Valid() && !bus.selected && bus.ce == old(bus.ce)
    ensures bus.chip == WriteRegister(old(bus.chip), Masked(reg), [data])
    ensures bus.trace == old(bus.trace) + [WriteFrame(reg, data)]
  {
    WriteCommand(reg);
    assert [W_REGISTER | (REGISTER_MASK & reg), data][1..] == [data];
    var _ := bus.Pair(W_REGISTER | (REGISTER_MASK & reg), data);
  }

  /** nRF24L01_Read_Reg: R_REGISTER | (0x1F & reg), then a NOP whose echo is returned. */
  method ReadReg(bus: Bus, reg: bv8) returns (v: bv8)
    requires bus.Valid() && !bus.selected
    modifies bus
    ensures bus.Valid() && !bus.selected && bus.ce == old(bus.ce)
    ensures v == Reg(old(bus.chip), Masked(reg))
    ensures bus.chip == old(bus.chip)
    ensures bus.trace == old(bus.trace) + [ReadFrame(reg)]
  {
    ReadCommand(reg);
    v := bus.Pair(R_REGISTER | (REGISTER_MASK & reg), NOP);
  }

  /** Write_Reg on a plain register of the map: that register takes `v`, nothing else changes. */
  method SetReg(bus: Bus, r: nat, v: bv8)
    requires bus.Valid() && !bus.selected && IsPlain(r)
    modifies bus
    ensures bus.Valid() && !bus.selected && bus.ce == old(bus.ce)
    ensures bus.chip == old(bus.chip).(regs := old(bus.chip).regs[r := v])
    ensures bus.trace == old(bus.trace) + [WriteFrame(r as bv8, v)]
  {
    MaskKeepsRegister(r);
    WriteReg(bus, r as bv8, v);
  }

  /** Write_Reg on STATUS: each interrupt flag set in `v` is cleared, nothing else changes. */
  method ClearStatus(bus: Bus, v: bv8)
    requires bus.Valid() && !bus.selected
    modifies bus
    ensures bus.Valid() && !bus.selected && bus.ce == old(bus.ce)
    ensures bus.chip == old(bus.chip).(regs := old(bus.chip).regs[STATUS := old(bus.chip).regs[STATUS] & !(v & IRQ_FLAGS)])
    ensures bus.trace == old(bus.trace) + [WriteFrame(STATUS as bv8, v)]
  {
    MaskKeepsRegister(STATUS);
    WriteReg(bus, STATUS as bv8, v);
  }

  /** Write_Regs of a whole address to RX_ADDR_P0, RX_ADDR_P1 or TX_ADDR replaces that address. */
  method SetAddress(bus: Bus, r: nat, addr: seq<bv8>)
    requires bus.Valid() && !bus.selected && IsWide(r) && |addr| == ADDRESS_WIDTH
    modifies bus
    ensures bus.Valid() && !bus.selected && bus.ce == old(bus.ce)
    ensures bus.chip == WriteRegister(old(bus.chip), r, addr)
    ensures r == RX_ADDR_P0 ==> bus.chip == old(bus.chip).(rxAddr0 := addr)
    ensures r == TX_ADDR ==> bus.chip == old(bus.chip).(txAddr := addr)
    ensures bus.trace == old(bus.trace) + [Bracket([W_REGISTER | (REGISTER_MASK & r as bv8)] + addr)]
  {
    MaskKeepsRegister(r);
    assert addr[..ADDRESS_WIDTH] == addr;
    WriteRegs(bus, r as bv8, addr, ADDRESS_WIDTH);
    WideWrite(old(bus.chip), r, addr);
  }

  /** A byte written to a plain register with Write_Reg reads back with Read_Reg. */
  lemma WriteThenRead(s: State, reg: bv8, v: bv8)
    requires Valid(s) && IsPlain(Masked(reg))
    ensures Reg(WriteRegister(s, Masked(reg), [v]), Masked(reg)) == v
  {
  }

  /**
   * nRF24L01_Write_Regs: the masked write command, then `data[..len]` in
   * index order, in one bracket. The counter is an `int8_t` compared with a
   * `uint8_t` length, so only lengths below 128 are streamed as intended.
   */
  method WriteRegs(bus: Bus, reg: bv8, data: seq<bv8>, len: nat)
    requires bus.Valid() && !bus.selected && len <= |data| && len < 128
    modifies bus
    ensures bus.Valid() && !bus.selected && bus.ce == old(bus.ce)
    ensures bus.chip == WriteRegister(old(bus.chip), Masked(reg), data[..len])
    ensures bus.trace == old(bus.trace) + [Bracket([W_REGISTER | (REGISTER_MASK & reg)] + data[..len])]
  {
    WriteCommand(reg);
    assert ([W_REGISTER | (REGISTER_MASK & reg)] + data[..len])[1..] == data[..len];
    bus.WriteBytes(W_REGISTER | (REGISTER_MASK & reg), data[..len]);
  }

  /**
   * The loop Read_Regs, Payload_TX and Payload_RX share: inside a bracket
   * whose command byte `cmd` has gone out, `n` NOPs are clocked and
   * `buf[i]` receives the byte shifted in with the i-th.
   */
  method ClockNops(bus: Bus, buf: array<bv8>, n: nat, ghost cmd: bv8)
    requires bus.Valid() && bus.selected && bus.frame == [cmd] && n <= buf.Length
    modifies bus`frame, buf
    ensures bus.Valid() && bus.selected
    ensures bus.frame == [cmd] + Nops(n)
    ensures buf[..n] == Echoes(bus.chip, cmd, n)
    ensures buf[n..] == old(buf[n..])
  {
    ghost var orig := buf[..];
    var i := 0;
    while i < n
      invariant 0 <= i <= n
      invariant bus.Valid() && bus.selected
      invariant bus.frame == [cmd] + Nops(i)
      invariant buf[..] == Echoes(bus.chip, cmd, i) + orig[i..]
    {
      ClockNop(bus, buf, i, cmd, orig);
      i := i + 1;
    }
    assert buf[..n] == buf[..][..n];
  }

  /** One NOP of the loop: `buf[i]` receives echo byte i + 1. */
  method ClockNop(bus: Bus, buf: array<bv8>, i: nat, ghost cmd: bv8, ghost orig: seq<bv8>)
    requires bus.Valid() && bus.selected && i < buf.Length == |orig|
    requires bus.frame == [cmd] + Nops(i)
    requires buf[..] == Echoes(bus.chip, cmd, i) + orig[i..]
    modifies bus`frame, buf
    ensures bus.Valid() && bus.selected
    ensures bus.frame == [cmd] + Nops(i + 1)
    ensures buf[..] == Echoes(bus.chip, cmd, i + 1) + orig[i + 1..]
  {
    var b := bus.Transfer(NOP);
    assert b == Echo(bus.chip, cmd, i + 1);
    buf[i] := b;
    assert Nops(i + 1) == Nops(i) + [NOP];
    assert Echoes(bus.chip, cmd, i + 1) == Echoes(bus.chip, cmd, i) + [b];
    assert orig[i..][1..] == orig[i + 1..];
  }

  /**
   * nRF24L01_Read_Regs: the masked read command, then `len` NOPs; byte i of
   * `data` receives what the chip shifts out with the i-th. Nothing on the
   * chip changes.
   */
  method ReadRegs(bus: Bus, reg: bv8, data: array<bv8>, len: nat)
    requires bus.Valid() && !bus.selected && len <= data.Length && len < 256
    modifies bus, data
    ensures bus.Valid() && !bus.selected && bus.ce == old(bus.ce)
    ensures data[..len] == Echoes(old(bus.chip), R_REGISTER | (REGISTER_MASK & reg), len)
    ensures data[len..] == old(data[len..])
    ensures bus.chip == old(bus.chip)
    ensures bus.trace == old(bus.trace) + [Bracket([R_REGISTER | (REGISTER_MASK & reg)] + Nops(len))]
  {
    ReadCommand(reg);
    bus.Select();
    var _ := bus.Transfer(R_REGISTER | (REGISTER_MASK & reg));
    ClockNops(bus, data, len, R_REGISTER | (REGISTER_MASK & reg));
    bus.Deselect();
  }

  /** Write_Regs of a whole address, then Read_Regs of five bytes, reads the address back. */
  lemma AddressReadsBack(s: State, reg: bv8, addr: seq<bv8>)
    requires Valid(s) && IsWide(Masked(reg)) && |addr| == ADDRESS_WIDTH
    ensures Echoes(WriteRegister(s, Masked(reg), addr), R_REGISTER | (REGISTER_MASK & reg), ADDRESS_WIDTH) == addr
  {
    ReadCommand(reg);
    var t := WriteRegister(s, Masked(reg), addr);
    WideWrite(s, Masked(reg), addr);
    assert Wide(t, Masked(reg)) == addr;
    assert forall i :: 0 <= i < ADDRESS_WIDTH ==>
      Echoes(t, R_REGISTER | (REGISTER_MASK & reg), ADDRESS_WIDTH)[i] == Wide(t, Masked(reg))[i];
  }

  /** A one-byte Read_Regs returns what Read_Reg returns. */
  lemma OneByteRead(s: State, reg: bv8)
    requires Valid(s)
    ensures Echoes(s, R_REGISTER | (REGISTER_MASK & reg), 1) == [Reg(s, Masked(reg))]
  {
    ReadCommand(reg);
  }

  // ------------------------------------------------------ RF_SETUP fields

  /**
   * The DR_Setup selector RF_SETUP's rate bits stand for: RF_DR_LOW means
   * 250 kbps, RF_DR_HIGH alone 2 Mbps, neither 1 Mbps; both is reserved.
   */
  function RateOf(rfSetup: bv8): (rate: bv8)
    ensures rate <= DR_2_MBPS || rate == DR_RESERVED
    ensures rate == DR_RESERVED <==> rfSetup & (RF_DR_LOW | RF_DR_HIGH) == RF_DR_LOW | RF_DR_HIGH
  {
    if rfSetup & RF_DR_LOW != 0 && rfSetup & RF_DR_HIGH != 0 then DR_RESERVED
    else if rfSetup & RF_DR_LOW != 0 then DR_250_KBPS
    else if rfSetup & RF_DR_HIGH != 0 then DR_2_MBPS
    else DR_1_MBPS
  }

  /**
   * The value DR_Setup writes back: the rate bits set for the selector, every
   * other bit kept; an unknown selector writes the value back unchanged.
   */
  function DataRate(v: bv8, rate: bv8): (r: bv8)
    ensures rate <= DR_2_MBPS ==> RateOf(r) == rate
    ensures r & !(RF_DR_LOW | RF_DR_HIGH) == v & !(RF_DR_LOW | RF_DR_HIGH)
    ensures rate > DR_2_MBPS ==> r == v
  {
    if rate == DR_250_KBPS then (v & !RF_DR_HIGH) | RF_DR_LOW
    else if rate == DR_1_MBPS then (v & !RF_DR_HIGH) & !RF_DR_LOW
    else if rate == DR_2_MBPS then (v | RF_DR_HIGH) & !RF_DR_LOW
    else v
  }

  /** The OP_Power selector RF_SETUP's power bits stand for: (RF_PWR_1, RF_PWR_0) as a number. */
  function PowerLevel(rfSetup: bv8): (level: bv8)
    ensures level <= POWER_POS_0_DBM
  {
    (rfSetup & RF_PWR) >> 1
  }

  /**
   * The value OP_Power writes back: (RF_PWR_1, RF_PWR_0) = 00, 01, 10, 11 for
   * the four levels, every other bit kept; an unknown selector writes the
   * value back unchanged.
   */
  function PowerBits(v: bv8, level: bv8): (r: bv8)
    ensures level <= POWER_POS_0_DBM ==> PowerLevel(r) == level
    ensures r & !RF_PWR == v & !RF_PWR
    ensures level > POWER_POS_0_DBM ==> r == v
  {
    if level == POWER_NEG_18_DBM then (v & !RF_PWR_0) & !RF_PWR_1
    else if level == POWER_NEG_12_DBM then (v | RF_PWR_0) & !RF_PWR_1
    else if level == POWER_NEG_6_DBM then (v & !RF_PWR_0) | RF_PWR_1
    else if level == POWER_POS_0_DBM then (v | RF_PWR_0) | RF_PWR_1
    else v
  }

  /** Setting the power keeps the data rate, and setting the rate keeps the power. */
  lemma FieldsIndependent(v: bv8, rate: bv8, level: bv8)
    ensures RateOf(PowerBits(v, level)) == RateOf(v)
    ensures PowerLevel(DataRate(v, rate)) == PowerLevel(v)
  {
  }

  /** nRF24L01_DR_Setup: RF_SETUP read, its rate bits set for `rate`, written back. */
  method DrSetup(bus: Bus, rate: bv8)
    requires bus.Valid() && !bus.selected
    modifies bus
    ensures bus.Valid() && !bus.selected && bus.ce == old(bus.ce)
    ensures bus.chip == old(bus.chip).(regs := old(bus.chip).regs[RF_SETUP := DataRate(old(bus.chip).regs[RF_SETUP], rate)])
    ensures bus.trace == old(bus.trace) + [ReadFrame(RF_SETUP as bv8)]
                         + [WriteFrame(RF_SETUP as bv8, DataRate(old(bus.chip).regs[RF_SETUP], rate))]
  {
    PlainRead(bus.chip, RF_SETUP);
    MaskKeepsRegister(RF_SETUP);
    var v := ReadReg(bus, RF_SETUP as bv8);
    SetReg(bus, RF_SETUP, DataRate(v, rate));
  }

  /** nRF24L01_OP_Power: RF_SETUP read, its power bits set for `level`, written back. */
  method OpPower(bus: Bus, level: bv8)
    requires bus.Valid() && !bus.selected
    modifies bus
    ensures bus.Valid() && !bus.selected && bus.ce == old(bus.ce)
    ensures bus.chip == old(bus.chip).(regs := old(bus.chip).regs[RF_SETUP := PowerBits(old(bus.chip).regs[RF_SETUP], level)])
    ensures bus.trace == old(bus.trace) + [ReadFrame(RF_SETUP as bv8)]
                         + [WriteFrame(RF_SETUP as bv8, PowerBits(old(bus.chip).regs[RF_SETUP], level))]
  {
    PlainRead(bus.chip, RF_SETUP);
    MaskKeepsRegister(RF_SETUP);
    var v := ReadReg(bus, RF_SETUP as bv8);
    SetReg(bus, RF_SETUP, PowerBits(v, level));
  }

  // ----------------------------------------------------------------- modes

  /**
   * The chip after nRF24L01_Mode: power-down writes DEFAULT_CONFIG; TX mode
   * clears the three flags and powers up as PTX; RX mode flushes the RX FIFO,
   * clears the flags and powers up as PRX; any other selector does nothing.
   */
  function Moded(s: State, mode: bv8): (t: State)
    requires Valid(s)
    ensures Valid(t)
    ensures mode > RX_MODE ==> t == s
    ensures t.txFifo == s.txFifo && t.reuse == s.reuse
    ensures t.txAddr == s.txAddr && t.rxAddr0 == s.rxAddr0 && t.rxAddr1 == s.rxAddr1
    ensures forall r :: 0 <= r < REGISTER_COUNT && r != CONFIG && r != STATUS ==> t.regs[r] == s.regs[r]
  {
    if mode == POWER_DOWN then s.(regs := s.regs[CONFIG := DEFAULT_CONFIG])
    else if mode == TX_MODE then
      var c := ClearFlags(s);
      c.(regs := c.regs[CONFIG := TX_CONFIG])
    else if mode == RX_MODE then
      var c := ClearFlags(s.(rxFifo := []));
      c.(regs := c.regs[CONFIG := RX_CONFIG])
    else s
  }

  /**
   * What each mode leaves: power-down cannot send or receive and keeps the
   * flags; TX mode is ready to send with no flag raised; RX mode listens with
   * no flag raised and an empty RX FIFO; all three enable a one-byte CRC.
   */
  lemma ModeEffects(s: State, mode: bv8)
    requires Valid(s)
    ensures var t := Moded(s, mode);
      mode == POWER_DOWN ==> t.regs[CONFIG] & PWR_UP == 0 && !Listening(t) && !CanTransmit(t) && Flags(t) == Flags(s)
    ensures var t := Moded(s, mode);
      mode == TX_MODE ==> ReadyToSend(t) && Flags(t) == 0 && t.rxFifo == s.rxFifo
    ensures var t := Moded(s, mode);
      mode == RX_MODE ==> Listening(t) && Flags(t) == 0 && t.rxFifo == []
    ensures var t := Moded(s, mode);
      mode <= RX_MODE ==> t.regs[CONFIG] & EN_CRC != 0 && t.regs[CONFIG] & CRCO == 0
  {
  }

  /** `trace` followed by what nRF24L01_Mode puts on the wires. */
  function WithMode(trace: seq<Event>, mode: bv8): seq<Event>
  {
    if mode == POWER_DOWN then
      trace + [ChipEnable(false)] + [WriteFrame(CONFIG as bv8, DEFAULT_CONFIG)]
    else if mode == TX_MODE then
      trace + [WriteFrame(STATUS as bv8, IRQ_FLAGS)] + [WriteFrame(CONFIG as bv8, TX_CONFIG)]
    else if mode == RX_MODE then
      trace + [Bracket([FLUSH_RX])] + [WriteFrame(STATUS as bv8, IRQ_FLAGS)]
        + [ChipEnable(false)] + [WriteFrame(CONFIG as bv8, RX_CONFIG)] + [ChipEnable(true)]
    else trace
  }

  /** nRF24L01_Mode. CE goes low for power-down, ends high for RX mode, and is left alone otherwise. */
  method Mode(bus: Bus, mode: bv8)
    requires bus.Valid() && !bus.selected
    modifies bus
    ensures bus.Valid() && !bus.selected
    ensures bus.chip == Moded(old(bus.chip), mode)
    ensures bus.ce == if mode == POWER_DOWN then false else if mode == RX_MODE then true else old(bus.ce)
    ensures bus.trace == WithMode(old(bus.trace), mode)
  {
    if mode == POWER_DOWN {
      bus.SetCE(false);
      SetReg(bus, CONFIG, DEFAULT_CONFIG);
    } else if mode == TX_MODE {
      ClearStatus(bus, IRQ_FLAGS);
      SetReg(bus, CONFIG, TX_CONFIG);
    } else if mode == RX_MODE {
      ReceiveMode(bus);
    }
  }

  /** The RX branch of nRF24L01_Mode. */
  method ReceiveMode(bus: Bus)
    requires bus.Valid() && !bus.selected
    modifies bus
    ensures bus.Valid() && !bus.selected && bus.ce
    ensures bus.chip == Moded(old(bus.chip), RX_MODE)
    ensures bus.trace == WithMode(old(bus.trace), RX_MODE)
  {
    var _ := bus.Command(FLUSH_RX);
    ClearStatus(bus, IRQ_FLAGS);
    bus.SetCE(false);
    SetReg(bus, CONFIG, RX_CONFIG);
    bus.SetCE(true);
  }

  // --------------------------------------------------------- configuration

  /** The RF part of nRF24L01_Config: channel 105, then the 2 Mbps and 0 dBm read-modify-writes. */
  function RfSet(s: State): (t: State)
    requires Valid(s)
    ensures Valid(t)
  {
    var a := s.(regs := s.regs[RF_CH := CHANNEL]);
    var b := a.(regs := a.regs[RF_SETUP := DataRate(a.regs[RF_SETUP], DR_2_MBPS)]);
    b.(regs := b.regs[RF_SETUP := PowerBits(b.regs[RF_SETUP], POWER_POS_0_DBM)])
  }

  /** The payload and address part: RX_PW_P0 = 1, DYNPD = 0, five-byte addresses, pipe 0 and TX addresses. */
  function AddressSet(s: State, rxAddress: seq<bv8>, txAddress: seq<bv8>): (t: State)
    requires Valid(s) && |rxAddress| == ADDRESS_WIDTH && |txAddress| == ADDRESS_WIDTH
    ensures Valid(t)
  {
    var a := s.(regs := s.regs[RX_PW_P0 := PAYLOAD_LEN][DYNPD := 0x00][SETUP_AW := ADDRESS_WIDTH_CODE]);
    a.(rxAddr0 := rxAddress, txAddr := txAddress)
  }

  /** The verification part: auto-acknowledgement on pipe 0, no retransmission. */
  function VerificationSet(s: State): (t: State)
    requires Valid(s)
    ensures Valid(t)
  {
    s.(regs := s.regs[EN_AA := 0x01][SETUP_RETR := RETRY_COUNT])
  }

  /**
   * What every variant of nRF24L01_Config does before CONFIG: channel 105 at
   * 2 Mbps and 0 dBm (the other RF_SETUP bits kept), one-byte payloads on
   * pipe 0 without dynamic length, five-byte addresses, auto-ACK on pipe 0
   * and no retransmission. CONFIG, the flags and the FIFOs are untouched.
   */
  function Setup(s: State, rxAddress: seq<bv8>, txAddress: seq<bv8>): (t: State)
    requires Valid(s) && |rxAddress| == ADDRESS_WIDTH && |txAddress| == ADDRESS_WIDTH
    ensures Valid(t)
  {
    VerificationSet(AddressSet(RfSet(s), rxAddress, txAddress))
  }

  /** The settings Setup promises, and what it leaves alone. */
  lemma SetupSettings(s: State, rxAddress: seq<bv8>, txAddress: seq<bv8>)
    requires Valid(s) && |rxAddress| == ADDRESS_WIDTH && |txAddress| == ADDRESS_WIDTH
    ensures var t := Setup(s, rxAddress, txAddress);
      && t.regs[RF_CH] == CHANNEL
      && RateOf(t.regs[RF_SETUP]) == DR_2_MBPS && PowerLevel(t.regs[RF_SETUP]) == POWER_POS_0_DBM
      && t.regs[RF_SETUP] & !(RF_DR_LOW | RF_DR_HIGH | RF_PWR) == s.regs[RF_SETUP] & !(RF_DR_LOW | RF_DR_HIGH | RF_PWR)
      && t.regs[RX_PW_P0] == PAYLOAD_LEN && t.regs[DYNPD] == 0 && t.regs[SETUP_AW] == ADDRESS_WIDTH_CODE
      && t.rxAddr0 == rxAddress && t.txAddr == txAddress
      && t.regs[EN_AA] == 0x01 && RetryBudget(t) == 0
      && t.regs[CONFIG] == s.regs[CONFIG] && Flags(t) == Flags(s)
      && t.rxFifo == s.rxFifo && t.txFifo == s.txFifo
  {
    var rate := DataRate(s.regs[RF_SETUP], DR_2_MBPS);
    var v := PowerBits(rate, POWER_POS_0_DBM);
    FieldsIndependent(rate, DR_2_MBPS, POWER_POS_0_DBM);
    assert Setup(s, rxAddress, txAddress).regs[RF_SETUP] == v;
  }

  /** The channel and RF part of nRF24L01_Config. */
  method ConfigureRf(bus: Bus)
    requires bus.Valid() && !bus.selected
    modifies bus
    ensures bus.Valid() && !bus.selected && bus.ce == old(bus.ce)
    ensures bus.chip == RfSet(old(bus.chip))
  {
    SetReg(bus, RF_CH, CHANNEL);
    DrSetup(bus, DR_2_MBPS);
    OpPower(bus, POWER_POS_0_DBM);
  }

  /** The payload and address part of nRF24L01_Config. */
  method ConfigureAddresses(bus: Bus, rxAddress: seq<bv8>, txAddress: seq<bv8>)
    requires bus.Valid() && !bus.selected && |rxAddress| == ADDRESS_WIDTH && |txAddress| == ADDRESS_WIDTH
    modifies bus
    ensures bus.Valid() && !bus.selected && bus.ce == old(bus.ce)
    ensures bus.chip == AddressSet(old(bus.chip), rxAddress, txAddress)
  {
    SetReg(bus, RX_PW_P0, PAYLOAD_LEN);
    SetReg(bus, DYNPD, 0x00);
    SetReg(bus, SETUP_AW, ADDRESS_WIDTH_CODE);
    SetAddress(bus, RX_ADDR_P0, rxAddress);
    SetAddress(bus, TX_ADDR, txAddress);
  }

  /**
   * nRF24L01_Config up to CONFIG, as all three programs write it: the RF,
   * payload, address and verification settings of Setup.
   */
  method Configure(bus: Bus, rxAddress: seq<bv8>, txAddress: seq<bv8>)
    requires bus.Valid() && !bus.selected && |rxAddress| == ADDRESS_WIDTH && |txAddress| == ADDRESS_WIDTH
    modifies bus
    ensures bus.Valid() && !bus.selected && bus.ce == old(bus.ce)
    ensures bus.chip == Setup(old(bus.chip), rxAddress, txAddress)
  {
    ConfigureRf(bus);
    ConfigureAddresses(bus, rxAddress, txAddress);
    SetReg(bus, EN_AA, 0x01);
    SetReg(bus, SETUP_RETR, RETRY_COUNT);
  }

  /** Setup, then DEFAULT_CONFIG written to CONFIG, then the mode selected. */
  function ConfiguredFor(s: State, rxAddress: seq<bv8>, txAddress: seq<bv8>, mode: bv8): (t: State)
    requires Valid(s) && |rxAddress| == ADDRESS_WIDTH && |txAddress| == ADDRESS_WIDTH
    ensures Valid(t)
  {
    var u := Setup(s, rxAddress, txAddress);
    Moded(u.(regs := u.regs[CONFIG := DEFAULT_CONFIG]), mode)
  }

  /** nRF24L01_Config of the TX and older RX programs: Setup, CONFIG = DEFAULT_CONFIG, then the mode. */
  method ConfigureFor(bus: Bus, rxAddress: seq<bv8>, txAddress: seq<bv8>, mode: bv8)
    requires bus.Valid() && !bus.selected && |rxAddress| == ADDRESS_WIDTH && |txAddress| == ADDRESS_WIDTH
    modifies bus
    ensures bus.Valid() && !bus.selected
    ensures bus.chip == ConfiguredFor(old(bus.chip), rxAddress, txAddress, mode)
    ensures bus.ce == if mode == POWER_DOWN then false else if mode == RX_MODE then true else old(bus.ce)
  {
    Configure(bus, rxAddress, txAddress);
    SetReg(bus, CONFIG, DEFAULT_CONFIG);
    Mode(bus, mode);
  }
}

/**
 * Test_nRF24L01_TX: every 10 ms an ADC reading is stored in TX_payload[0]
 * and a one-byte payload is sent to 0xAA..AA, with pipe 0 on 0x55..55 and no
 * retransmission.
 */
module Nrf24TestTx {
  import opened Nrf24Chip
  import opened Spi
  import opened NodeDriver
  import opened Nrf24Test

  const TX_ADDRESS: seq<bv8> := [0xAA, 0xAA, 0xAA, 0xAA, 0xAA]
  const RX_ADDRESS: seq<bv8> := [0x55, 0x55, 0x55, 0x55, 0x55]
  /** TX_payload[32]. */
  const BUFFER_SIZE: nat := 32

  /**
   * The chip after nRF24L01_Config: ready to send, without retransmission,
   * addressed to TX_ADDRESS while pipe 0 (where an ACK would have to arrive)
   * listens on a different address.
   */
  function Configured(s: State): (t: State)
    requires Valid(s)
    ensures Valid(t) && ReadyToSend(t) && RetryBudget(t) == 0
    ensures t.txAddr == TX_ADDRESS && t.rxAddr0 == RX_ADDRESS && t.rxAddr0 != t.txAddr
  {
    var u := Setup(s, RX_ADDRESS, TX_ADDRESS);
    SetupSettings(s, RX_ADDRESS, TX_ADDRESS);
    ModeEffects(u.(regs := u.regs[CONFIG := DEFAULT_CONFIG]), TX_MODE);
    assert RX_ADDRESS[0] != TX_ADDRESS[0];
    ConfiguredFor(s, RX_ADDRESS, TX_ADDRESS, TX_MODE)
  }

  /** nRF24L01_Config. */
  method Config(bus: Bus)
    requires bus.Valid() && !bus.selected
    modifies bus
    ensures bus.Valid() && !bus.selected && bus.ce == old(bus.ce)
    ensures bus.chip == Configured(old(bus.chip))
  {
    ConfigureFor(bus, RX_ADDRESS, TX_ADDRESS, TX_MODE);
  }

  /**
   * The chip after nRF24L01_Payload_TX: TX mode again (flags cleared), and a
   * single payload of PAYLOAD_CNT NOP bytes queued. Nothing of the caller's
   * buffer reaches the FIFO.
   */
  function Loaded(s: State): (t: State)
    requires Valid(s)
    ensures Valid(t) && CanTransmit(t) && Flags(t) == 0
    ensures t.txFifo == [TxPayload(Nops(PAYLOAD_CNT), WithAck)]
    ensures RetryBudget(t) == RetryBudget(s)
  {
    ModeEffects(s, TX_MODE);
    Queued(Moded(s, TX_MODE), Nops(PAYLOAD_CNT))
  }

  /**
   * nRF24L01_Payload_TX: CE low, TX mode, FLUSH_TX, then W_TX_PAYLOAD with
   * PAYLOAD_CNT NOPs clocked after it (each echo stored back into the
   * buffer), and CE left high to start the transmission.
   */
  method PayloadTx(bus: Bus, buf: array<bv8>)
    requires bus.Valid() && !bus.selected && PAYLOAD_CNT <= buf.Length
    modifies bus, buf
    ensures bus.Valid() && !bus.selected && bus.ce
    ensures bus.chip == Loaded(old(bus.chip))
    ensures buf[..PAYLOAD_CNT] == seq(PAYLOAD_CNT, _ => 0)
    ensures buf[PAYLOAD_CNT..] == old(buf[PAYLOAD_CNT..])
    ensures bus.trace == WithMode(old(bus.trace) + [ChipEnable(false)], TX_MODE) + [Bracket([FLUSH_TX])]
                         + [Bracket([W_TX_PAYLOAD] + Nops(PAYLOAD_CNT))] + [ChipEnable(true)]
  {
    bus.SetCE(false);
    Mode(bus, TX_MODE);
    QueueNops(bus, buf);
    bus.SetCE(true);
  }

  /** The FLUSH_TX bracket and the W_TX_PAYLOAD bracket of Payload_TX. */
  method QueueNops(bus: Bus, buf: array<bv8>)
    requires bus.Valid() && !bus.selected && PAYLOAD_CNT <= buf.Length
    modifies bus, buf
    ensures bus.Valid() && !bus.selected && bus.ce == old(bus.ce)
    ensures bus.chip == Queued(old(bus.chip), Nops(PAYLOAD_CNT))
    ensures buf[..PAYLOAD_CNT] == seq(PAYLOAD_CNT, _ => 0)
    ensures buf[PAYLOAD_CNT..] == old(buf[PAYLOAD_CNT..])
    ensures bus.trace == old(bus.trace) + [Bracket([FLUSH_TX])] + [Bracket([W_TX_PAYLOAD] + Nops(PAYLOAD_CNT))]
  {
    TxPayloadBracket(bus.chip, Nops(PAYLOAD_CNT));
    var _ := bus.Command(FLUSH_TX);
    bus.Select();
    var _ := bus.Transfer(W_TX_PAYLOAD);
    ClockNops(bus, buf, PAYLOAD_CNT, W_TX_PAYLOAD);
    PayloadWriteEchoes(bus.chip, PAYLOAD_CNT);
    bus.Deselect();
  }

  /** nRF24L01_TX_DS_Flag: STATUS read with Read_Reg; 0 once TX_DS or MAX_RT is up, else 1. */
  method TxDsFlag(bus: Bus) returns (r: bv8)
    requires bus.Valid() && !bus.selected
    modifies bus
    ensures bus.Valid() && !bus.selected && bus.ce == old(bus.ce)
    ensures r == Sending(StatusByte(old(bus.chip)))
    ensures r == 0 <==> Flags(old(bus.chip)) & (TX_DS | MAX_RT) != 0
    ensures bus.chip == old(bus.chip)
    ensures bus.trace == old(bus.trace) + [ReadFrame(STATUS as bv8)]
  {
    MaskKeepsRegister(STATUS);
    var status := ReadReg(bus, STATUS as bv8);
    StatusShowsFlags(bus.chip);
    if status & (TX_DS | MAX_RT) != 0 {
      r := 0;
    } else {
      r := 1;
    }
  }

  /** `n` STATUS reads. */
  function StatusPolls(n: nat): (r: seq<Event>)
    ensures |r| == n && forall i :: 0 <= i < n ==> r[i] == ReadFrame(STATUS as bv8)
  {
    seq(n, _ => ReadFrame(STATUS as bv8))
  }

  /**
   * `while(nRF24L01_TX_DS_Flag());` with at most `fuel` polls: `done` after
   * one poll when TX_DS or MAX_RT is already up, otherwise all the fuel is
   * spent.
   */
  method WaitSent(bus: Bus, fuel: nat) returns (done: bool, polls: nat)
    requires bus.Valid() && !bus.selected
    modifies bus
    ensures bus.Valid() && !bus.selected && bus.ce == old(bus.ce)
    ensures bus.chip == old(bus.chip)
    ensures done <==> fuel > 0 && Flags(old(bus.chip)) & (TX_DS | MAX_RT) != 0
    ensures polls == if done then 1 else fuel
    ensures bus.trace == old(bus.trace) + StatusPolls(polls)
  {
    done := false;
    polls := 0;
    while polls < fuel && !done
      invariant bus.Valid() && !bus.selected && bus.ce == old(bus.ce)
      invariant bus.chip == old(bus.chip)
      invariant polls <= fuel
      invariant done ==> polls == 1 && Flags(bus.chip) & (TX_DS | MAX_RT) != 0
      invariant !done && polls > 0 ==> Flags(bus.chip) & (TX_DS | MAX_RT) == 0
      invariant bus.trace == old(bus.trace) + StatusPolls(polls)
      decreases fuel - polls
    {
      var sending := TxDsFlag(bus);
      assert StatusPolls(polls) + [ReadFrame(STATUS as bv8)] == StatusPolls(polls + 1);
      polls := polls + 1;
      done := sending == 0;
    }
  }

  /**
   * A transmission from Payload_TX always ends with exactly one of TX_DS and
   * MAX_RT, whatever was raised before (TX mode clears the flags first), and
   * TX_DS at once with ENAA_P0 clear, otherwise only when the payload was
   * acknowledged within the retry budget and the chip could see the
   * acknowledgement.
   */
  lemma NeverBlocks(s: State, air: Air)
    requires Valid(s)
    ensures var t := Transmit(Loaded(s), air);
      && (Flags(t) & TX_DS != 0) != (Flags(t) & MAX_RT != 0)
      && (Flags(t) & TX_DS != 0 <==> !AutoAckOn(s) || (air.Delivered? && air.retries <= RetryBudget(s) && AckMatch(s)))
  {
    var l := Loaded(s);
    ModeEffects(s, TX_MODE);
    assert l.regs[EN_AA] == s.regs[EN_AA] && l.rxAddr0 == s.rxAddr0 && l.txAddr == s.txAddr;
    TransmitRaisesOneFlag(l, air);
  }

  /**
   * As configured, the transmitter never sees an acknowledgement: pipe 0
   * listens on RX_ADDRESS, not on TX_ADDRESS where the payload goes. Every
   * transmission ends with MAX_RT whatever the air does, and the payload
   * stays queued.
   */
  lemma NeverAcknowledged(s: State, air: Air)
    requires Valid(s)
    ensures var l := Loaded(Configured(s));
      var t := Transmit(l, air);
      && Flags(t) & TX_DS == 0 && Flags(t) & MAX_RT != 0
      && t.txFifo == l.txFifo
  {
    var c := Configured(s);
    NeverBlocks(c, air);
    var l := Loaded(c);
    ModeEffects(c, TX_MODE);
    assert l.rxAddr0 == c.rxAddr0 && l.txAddr == c.txAddr;
    UnmatchedNeverAcked(l, air);
  }

  /**
   * One pass of main's loop: the ADC reading stored in TX_payload[0],
   * Payload_TX, the transmission on the air, then `while(TX_DS_Flag());`
   * with at most `fuel` polls. The reading is overwritten by the echo and
   * never sent.
   */
  method Step(bus: Bus, buf: array<bv8>, adc: bv8, air: Air, fuel: nat) returns (done: bool)
    requires bus.Valid() && !bus.selected && buf.Length == BUFFER_SIZE
    modifies bus, buf
    ensures bus.Valid() && !bus.selected && bus.ce
    ensures bus.chip == Transmit(Loaded(old(bus.chip)), air)
    ensures buf[0] == 0x00 && buf[1..] == old(buf[1..])
    ensures done <==> fuel > 0
  {
    buf[0] := adc;
    PayloadTx(bus, buf);
    assert buf[0] == buf[..PAYLOAD_CNT][0];
    bus.Air(air);
    NeverBlocks(old(bus.chip), air);
    var polls;
    done, polls := WaitSent(bus, fuel);
  }
}

/**
 * The older Test_nRF24L01_RX: configured like the transmitter with the two
 * addresses swapped and ending in RX mode, it polls for a payload and
 * forwards its one byte to the UART.
 */
module Nrf24TestRx {
  import opened Nrf24Chip
  import opened Spi
  import opened NodeDriver
  import opened Nrf24Test
  import Nrf24TestTx

  const TX_ADDRESS: seq<bv8> := [0x55, 0x55, 0x55, 0x55, 0x55]
  const RX_ADDRESS: seq<bv8> := [0xAA, 0xAA, 0xAA, 0xAA, 0xAA]
  /** RX_payload[32]. */
  const BUFFER_SIZE: nat := 32

  /** The chip after nRF24L01_Config: listening on pipe 0 at RX_ADDRESS, flags clear, RX FIFO empty. */
  function Configured(s: State): (t: State)
    requires Valid(s)
    ensures Valid(t) && Listening(t) && Flags(t) == 0 && t.rxFifo == []
    ensures t.rxAddr0 == RX_ADDRESS && t.txAddr == TX_ADDRESS && t.regs[RX_PW_P0] == PAYLOAD_LEN
    ensures t.regs[EN_RXADDR] == s.regs[EN_RXADDR]
  {
    var u := Setup(s, RX_ADDRESS, TX_ADDRESS);
    SetupSettings(s, RX_ADDRESS, TX_ADDRESS);
    ModeEffects(u.(regs := u.regs[CONFIG := DEFAULT_CONFIG]), RX_MODE);
    ConfiguredFor(s, RX_ADDRESS, TX_ADDRESS, RX_MODE)
  }

  /** nRF24L01_Config, ending in RX mode with CE high. */
  method Config(bus: Bus)
    requires bus.Valid() && !bus.selected
    modifies bus
    ensures bus.Valid() && !bus.selected && bus.ce
    ensures bus.chip == Configured(old(bus.chip))
  {
    ConfigureFor(bus, RX_ADDRESS, TX_ADDRESS, RX_MODE);
  }

  /**
   * The two test programs are addressed to each other: the receiver's pipe 0
   * is the transmitter's destination, both expect one-byte payloads, and the
   * transmitter's payload is one byte long.
   */
  lemma AddressedToEachOther(s: State, u: State)
    requires Valid(s) && Valid(u)
    ensures Configured(u).rxAddr0 == Nrf24TestTx.Configured(s).txAddr
    ensures Configured(u).txAddr == Nrf24TestTx.Configured(s).rxAddr0
    ensures |Nops(PAYLOAD_CNT)| == Configured(u).regs[RX_PW_P0] as nat
  {
  }

  /** nRF24L01_RX_FIFO_Empty: FIFO_STATUS read with Read_Reg, masked to RX_EMPTY. */
  method RxFifoEmpty(bus: Bus) returns (r: bv8)
    requires bus.Valid() && !bus.selected
    modifies bus
    ensures bus.Valid() && !bus.selected && bus.ce == old(bus.ce)
    ensures r == if old(bus.chip).rxFifo == [] then 1 else 0
    ensures bus.chip == old(bus.chip)
    ensures bus.trace == old(bus.trace) + [ReadFrame(FIFO_STATUS as bv8)]
  {
    MaskKeepsRegister(FIFO_STATUS);
    var fifo := ReadReg(bus, FIFO_STATUS as bv8);
    r := fifo & RX_EMPTY;
  }

  /**
   * nRF24L01_RX_DR_Flag: 1 when STATUS shows RX_DR (one read); otherwise
   * FIFO_STATUS is read too, and the answer is 1 exactly when the RX FIFO is
   * not empty.
   */
  method RxDrFlag(bus: Bus) returns (r: bv8)
    requires bus.Valid() && !bus.selected
    modifies bus
    ensures bus.Valid() && !bus.selected && bus.ce == old(bus.ce)
    ensures r == if Flags(old(bus.chip)) & RX_DR != 0 || old(bus.chip).rxFifo != [] then 1 else 0
    ensures bus.chip == old(bus.chip)
    ensures bus.trace == old(bus.trace) + [ReadFrame(STATUS as bv8)]
                         + if Flags(old(bus.chip)) & RX_DR != 0 then [] else [ReadFrame(FIFO_STATUS as bv8)]
  {
    MaskKeepsRegister(STATUS);
    var status := ReadReg(bus, STATUS as bv8);
    StatusShowsFlags(bus.chip);
    if status & RX_DR != 0 {
      r := 1;
    } else {
      var empty := RxFifoEmpty(bus);
      r := if empty == 0 then 1 else 0;
    }
  }

  /**
   * nRF24L01_Payload_RX: R_RX_PAYLOAD with PAYLOAD_CNT NOPs clocked after it,
   * each byte shifted in stored in the buffer and sent to the UART (`uart`,
   * in order), then RX_DR (only) written to STATUS.
   */
  method PayloadRx(bus: Bus, buf: array<bv8>) returns (uart: seq<bv8>)
    requires bus.Valid() && !bus.selected && PAYLOAD_CNT <= buf.Length
    modifies bus, buf
    ensures bus.Valid() && !bus.selected && bus.ce == old(bus.ce)
    ensures buf[..PAYLOAD_CNT] == RxHead(old(bus.chip), PAYLOAD_CNT)
    ensures buf[PAYLOAD_CNT..] == old(buf[PAYLOAD_CNT..])
    ensures uart == buf[..PAYLOAD_CNT]
    ensures bus.chip == AfterRead(old(bus.chip))
    ensures bus.trace == old(bus.trace) + [Bracket([R_RX_PAYLOAD] + Nops(PAYLOAD_CNT))]
                         + [WriteFrame(STATUS as bv8, RX_DR)]
  {
    ghost var s := bus.chip;
    bus.Select();
    var _ := bus.Transfer(R_RX_PAYLOAD);
    ClockNops(bus, buf, PAYLOAD_CNT, R_RX_PAYLOAD);
    PayloadEchoes(bus.chip, PAYLOAD_CNT);
    uart := buf[..PAYLOAD_CNT];
    PayloadBracket(bus.chip, Nops(PAYLOAD_CNT));
    bus.Deselect();
    ClearStatus(bus, RX_DR);
    assert RX_DR & IRQ_FLAGS == RX_DR;
  }

  /**
   * One pass of main's loop: when RX_DR_Flag answers 1, Payload_RX. A
   * queued payload is always read, even after RX_DR was cleared; with RX_DR
   * raised over an empty FIFO a 0x00 byte is forwarded.
   */
  method Step(bus: Bus, buf: array<bv8>) returns (uart: seq<bv8>)
    requires bus.Valid() && !bus.selected && buf.Length == BUFFER_SIZE
    modifies bus, buf
    ensures bus.Valid() && !bus.selected && bus.ce == old(bus.ce)
    ensures Flags(old(bus.chip)) & RX_DR != 0 || old(bus.chip).rxFifo != [] ==>
      uart == RxHead(old(bus.chip), PAYLOAD_CNT) && bus.chip == AfterRead(old(bus.chip))
    ensures !(Flags(old(bus.chip)) & RX_DR != 0 || old(bus.chip).rxFifo != []) ==>
      uart == [] && bus.chip == old(bus.chip)
  {
    uart := [];
    var ready := RxDrFlag(bus);
    if ready != 0 {
      uart := PayloadRx(bus, buf);
    }
  }

  /**
   * A one-byte payload arriving on pipe 0 of the configured receiver raises
   * RX_DR and is the byte the next pass forwards; the read leaves the
   * receiver listening with nothing queued and no flag raised.
   */
  lemma ReceivedByteForwarded(s: State, b: bv8)
    requires Valid(s) && s.regs[EN_RXADDR] & 0x01 != 0
    ensures var t := Receive(Configured(s), 0, [b]);
      && Flags(t) & RX_DR != 0 && RxHead(t, PAYLOAD_CNT) == [b]
      && Listening(AfterRead(t)) && AfterRead(t).rxFifo == [] && Flags(AfterRead(t)) == 0
  {
    var c := Configured(s);
    var t := Receive(c, 0, [b]);
    assert c.regs[EN_RXADDR] & (1 << 0) != 0;
    assert t.rxFifo == [RxPayload(0, [b])];
    assert RxHead(t, PAYLOAD_CNT)[0] == b;
  }
}

/**
 * The Test_nRF24L01_RX draft. It does not compile (no header include, CSN_LOW
 * used without its parentheses, an array declared where Read_Regs should
 * store), so what is modelled is its evident meaning: nRF24L01_Config with
 * the receiver's addresses and nothing after the retry setting. Its
 * Payload_RX is an empty bracket and its main loop is empty.
 */
module Nrf24TestRxDraft {
  import opened Nrf24Chip
  import opened Spi
  import opened NodeDriver
  import opened Nrf24Test

  const TX_ADDRESS: seq<bv8> := [0x55, 0x55, 0x55, 0x55, 0x55]
  const RX_ADDRESS: seq<bv8> := [0xAA, 0xAA, 0xAA, 0xAA, 0xAA]

  /** NRF24L01_RETR of the RX header: delay code 4 in ARD, count 7 in ARC. */
  const RETR: bv8 := (0x04 << 4) | (0x07 << 0)

  /** The draft's nRF24L01_Config: Setup alone, CONFIG never written and no mode selected. */
  function Configured(s: State): (t: State)
    requires Valid(s)
    ensures Valid(t)
  {
    Setup(s, RX_ADDRESS, TX_ADDRESS)
  }

  /** The draft's nRF24L01_Config. */
  method Config(bus: Bus)
    requires bus.Valid() && !bus.selected
    modifies bus
    ensures bus.Valid() && !bus.selected && bus.ce == old(bus.ce)
    ensures bus.chip == Configured(old(bus.chip))
  {
    Configure(bus, RX_ADDRESS, TX_ADDRESS);
  }

  /**
   * The draft never powers the radio up: CONFIG keeps its value, so from
   * power-on reset (CONFIG = 0x08) it neither listens nor transmits.
   */
  lemma NeverPowersUp(s: State)
    requires Valid(s)
    ensures Configured(s).regs[CONFIG] == s.regs[CONFIG]
    ensures Configured(PowerOnReset()).regs[CONFIG] == DEFAULT_CONFIG
    ensures !Listening(Configured(PowerOnReset())) && !CanTransmit(Configured(PowerOnReset()))
  {
    SetupSettings(s, RX_ADDRESS, TX_ADDRESS);
    SetupSettings(PowerOnReset(), RX_ADDRESS, TX_ADDRESS);
  }

  /**
   * NRF24L01_RETR is 0x47: a 1250 us retransmit delay and 7 retransmissions,
   * not the 1500 us and 15 times its comment gives.
   */
  lemma RetrSetting(s: State)
    requires Valid(s)
    ensures RETR == 0x47
    ensures var t := s.(regs := s.regs[SETUP_RETR := RETR]);
      RetransmitDelay(t) == 1250 && RetryBudget(t) == 7
  {
    var t := s.(regs := s.regs[SETUP_RETR := RETR]);
    assert t.regs[SETUP_RETR] == 0x47;
  }
}
