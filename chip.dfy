/**
 * The nRF24L01+ 2.4 GHz transceiver as the firmware sees it over SPI.
 *
 * Every driver in the firmware talks to the same chip, so the chip is modelled
 * once, as a value: a 32-entry register file, the three 5-byte address
 * registers, the RX and TX FIFOs (three payloads each) and the TX_REUSE flag.
 * One SPI transaction (CSN low, bytes, CSN high) is one "bracket": the chip
 * answers each byte as `Miso` says and takes the bracket's effect, `Apply`,
 * when CSN rises. Register addresses, bit positions and command opcodes are
 * those of section 8.3.1 and section 9 of the nRF24L01+ Product Specification
 * v1.0.
 *
 * What happens on the air is not seen by the firmware; it enters the model as
 * two environment steps: `Transmit` (the head of the TX FIFO is sent and is
 * either acknowledged after some retries or lost) and `Receive` (a payload
 * arrives on a pipe).
 */
module Nrf24Chip {

  // ---------------------------------------------------------------- registers

  const CONFIG: nat := 0x00
  const EN_AA: nat := 0x01
  const EN_RXADDR: nat := 0x02
  const SETUP_AW: nat := 0x03
  const SETUP_RETR: nat := 0x04
  const RF_CH: nat := 0x05
  const RF_SETUP: nat := 0x06
  const STATUS: nat := 0x07
  const OBSERVE_TX: nat := 0x08
  const CD: nat := 0x09
  const RX_ADDR_P0: nat := 0x0A
  const RX_ADDR_P1: nat := 0x0B
  const RX_ADDR_P2: nat := 0x0C
  const TX_ADDR: nat := 0x10
  const RX_PW_P0: nat := 0x11
  const FIFO_STATUS: nat := 0x17
  const DYNPD: nat := 0x1C
  const FEATURE: nat := 0x1D

  const REGISTER_COUNT: nat := 32
  const ADDRESS_WIDTH: nat := 5
  const FIFO_DEPTH: nat := 3
  const MAX_PAYLOAD: nat := 32
  const PIPES: nat := 6

  // ---------------------------------------------------------------- commands

  const R_REGISTER: bv8 := 0x00
  const W_REGISTER: bv8 := 0x20
  const REGISTER_MASK: bv8 := 0x1F
  const R_RX_PL_WID: bv8 := 0x60
  const R_RX_PAYLOAD: bv8 := 0x61
  const W_TX_PAYLOAD: bv8 := 0xA0
  const W_ACK_PAYLOAD: bv8 := 0xA8
  const W_TX_PAYLOAD_NOACK: bv8 := 0xB0
  const FLUSH_TX: bv8 := 0xE1
  const FLUSH_RX: bv8 := 0xE2
  const REUSE_TX_PL: bv8 := 0xE3
  const NOP: bv8 := 0xFF

  // ------------------------------------------------- register bits, as masks

  // CONFIG
  const MASK_RX_DR: bv8 := 0x40
  const MASK_TX_DS: bv8 := 0x20
  const MASK_MAX_RT: bv8 := 0x10
  const EN_CRC: bv8 := 0x08
  const CRCO: bv8 := 0x04
  const PWR_UP: bv8 := 0x02
  const PRIM_RX: bv8 := 0x01

  // STATUS
  const RX_DR: bv8 := 0x40
  const TX_DS: bv8 := 0x20
  const MAX_RT: bv8 := 0x10
  const TX_FULL: bv8 := 0x01
  /** The three interrupt flags; writing a 1 to one of them clears it. */
  const IRQ_FLAGS: bv8 := 0x70

  // FIFO_STATUS
  const TX_REUSE: bv8 := 0x40
  const FIFO_FULL: bv8 := 0x20
  const TX_EMPTY: bv8 := 0x10
  const RX_FULL: bv8 := 0x02
  const RX_EMPTY: bv8 := 0x01

  // RF_SETUP
  const RF_DR_LOW: bv8 := 0x20
  const RF_DR_HIGH: bv8 := 0x08
  const RF_PWR: bv8 := 0x06

  // FEATURE
  const EN_DPL: bv8 := 0x04
  const EN_ACK_PAY: bv8 := 0x02
  const EN_DYN_ACK: bv8 := 0x01

  // ------------------------------------------------------------------- state

  /** How a queued TX payload is to be sent. */
  datatype TxKind = WithAck | NoAck | AckPayload(pipe: nat)

  datatype TxPayload = TxPayload(data: seq<bv8>, kind: TxKind)

  datatype RxPayload = RxPayload(pipe: nat, data: seq<bv8>)

  datatype State = State(
    regs: seq<bv8>,
    rxAddr0: seq<bv8>,
    rxAddr1: seq<bv8>,
    txAddr: seq<bv8>,
    rxFifo: seq<RxPayload>,
    txFifo: seq<TxPayload>,
    reuse: bool)

  predicate Valid(s: State)
  {
    && |s.regs| == REGISTER_COUNT
    && |s.rxAddr0| == ADDRESS_WIDTH && |s.rxAddr1| == ADDRESS_WIDTH && |s.txAddr| == ADDRESS_WIDTH
    && |s.rxFifo| <= FIFO_DEPTH && |s.txFifo| <= FIFO_DEPTH
    && (forall i :: 0 <= i < |s.rxFifo| ==> s.rxFifo[i].pipe < PIPES && 1 <= |s.rxFifo[i].data| <= MAX_PAYLOAD)
    && (forall i :: 0 <= i < |s.txFifo| ==> 1 <= |s.txFifo[i].data| <= MAX_PAYLOAD)
  }

  /** The register values after power-on reset (section 9.1 of the product specification). */
  function PowerOnReset(): (s: State)
    ensures Valid(s)
    ensures s.rxFifo == [] && s.txFifo == [] && !s.reuse
  {
    var regs := seq(REGISTER_COUNT, i requires 0 <= i < REGISTER_COUNT =>
      if i == CONFIG then 0x08
      else if i == EN_AA then 0x3F
      else if i == EN_RXADDR then 0x03
      else if i == SETUP_AW then 0x03
      else if i == SETUP_RETR then 0x03
      else if i == RF_CH then 0x02
      else if i == RF_SETUP then 0x0E
      else if i == STATUS then 0x0E
      else if i == 0x0C then 0xC3
      else if i == 0x0D then 0xC4
      else if i == 0x0E then 0xC5
      else if i == 0x0F then 0xC6
      else 0x00);
    State(regs, [0xE7, 0xE7, 0xE7, 0xE7, 0xE7], [0xC2, 0xC2, 0xC2, 0xC2, 0xC2],
          [0xE7, 0xE7, 0xE7, 0xE7, 0xE7], [], [], false)
  }

  /** The registers that are five bytes wide. */
  predicate IsWide(r: nat)
  {
    r == RX_ADDR_P0 || r == RX_ADDR_P1 || r == TX_ADDR
  }

  /** Registers the firmware cannot write: writes to them are ignored. */
  predicate IsReadOnly(r: nat)
  {
    r == OBSERVE_TX || r == CD || r == FIFO_STATUS
  }

  /** A register that holds exactly the byte last written to it. */
  predicate IsPlain(r: nat)
  {
    r < REGISTER_COUNT && r != STATUS && !IsReadOnly(r) && !IsWide(r)
  }

  function Wide(s: State, r: nat): seq<bv8>
    requires IsWide(r)
  {
    if r == RX_ADDR_P0 then s.rxAddr0 else if r == RX_ADDR_P1 then s.rxAddr1 else s.txAddr
  }

  /** RX_P_NO: the pipe of the payload at the head of the RX FIFO, 7 when it is empty. */
  function RxPipeNumber(s: State): bv8
    requires Valid(s)
  {
    if s.rxFifo == [] then 7 else s.rxFifo[0].pipe as bv8
  }

  /** The STATUS register, as shifted out with the first byte of every bracket. */
  function StatusByte(s: State): bv8
    requires Valid(s)
  {
    (s.regs[STATUS] & IRQ_FLAGS) | (RxPipeNumber(s) << 1) | (if |s.txFifo| == FIFO_DEPTH then TX_FULL else 0)
  }

  /** FIFO_STATUS, computed from the two FIFOs and the reuse flag. */
  function FifoStatus(s: State): bv8
    requires Valid(s)
  {
    (if s.reuse then TX_REUSE else 0)
    | (if |s.txFifo| == FIFO_DEPTH then FIFO_FULL else 0)
    | (if s.txFifo == [] then TX_EMPTY else 0)
    | (if |s.rxFifo| == FIFO_DEPTH then RX_FULL else 0)
    | (if s.rxFifo == [] then RX_EMPTY else 0)
  }

  /** The value a one-byte register read returns (the low byte of a wide register). */
  function Reg(s: State, r: nat): bv8
    requires Valid(s) && r < REGISTER_COUNT
  {
    if r == STATUS then StatusByte(s)
    else if r == FIFO_STATUS then FifoStatus(s)
    else if IsWide(r) then Wide(s, r)[0]
    else s.regs[r]
  }

  /** A plain register reads back as stored. */
  lemma PlainRead(s: State, r: nat)
    requires Valid(s) && IsPlain(r)
    ensures Reg(s, r) == s.regs[r]
  {
  }

  /** Interrupt flags currently raised. */
  function Flags(s: State): bv8
    requires Valid(s)
  {
    s.regs[STATUS] & IRQ_FLAGS
  }

  // ------------------------------------------------------------ SPI brackets

  /**
   * The byte the chip shifts out while receiving byte `k >= 1` of a bracket
   * that started with `cmd`. Bytes of commands that read nothing are 0x00 in
   * this model.
   */
  function Echo(s: State, cmd: bv8, k: nat): bv8
    requires Valid(s) && k >= 1
  {
    if cmd < W_REGISTER then
      var r := (cmd & REGISTER_MASK) as nat;
      if IsWide(r) then (if k <= ADDRESS_WIDTH then Wide(s, r)[k - 1] else 0)
      else if k == 1 then Reg(s, r)
      else 0
    else if cmd == R_RX_PAYLOAD then PayloadByte(s, k)
    else if cmd == R_RX_PL_WID then
      if s.rxFifo != [] && k == 1 then |s.rxFifo[0].data| as bv8 else 0
    else 0
  }

  /** Byte `k` (from 1) of the head payload, 0x00 past its end or with the RX FIFO empty. */
  function PayloadByte(s: State, k: nat): bv8
    requires Valid(s) && k >= 1
  {
    if s.rxFifo != [] && k <= |s.rxFifo[0].data| then s.rxFifo[0].data[k - 1] else 0
  }

  /** Byte `k` of MISO during the bracket `frame`: STATUS first, then the echoes. */
  function Miso(s: State, frame: seq<bv8>, k: nat): bv8
    requires Valid(s) && k < |frame|
  {
    if k == 0 then StatusByte(s) else Echo(s, frame[0], k)
  }

  /** `data` written over the low bytes of `w`; bytes past the width are dropped. */
  function Overwrite(w: seq<bv8>, data: seq<bv8>): (r: seq<bv8>)
    ensures |r| == |w|
    ensures forall i :: 0 <= i < |w| ==> r[i] == if i < |data| then data[i] else w[i]
  {
    if |data| >= |w| then data[..|w|] else data + w[|data|..]
  }

  /** The effect of W_REGISTER on register `r` with the data bytes `data`. */
  function WriteRegister(s: State, r: nat, data: seq<bv8>): (t: State)
    requires Valid(s) && r < REGISTER_COUNT
    ensures Valid(t)
    ensures t.rxFifo == s.rxFifo && t.txFifo == s.txFifo && t.reuse == s.reuse
  {
    if data == [] || IsReadOnly(r) then s
    else if r == STATUS then s.(regs := s.regs[STATUS := s.regs[STATUS] & !(data[0] & IRQ_FLAGS)])
    else if r == RX_ADDR_P0 then s.(rxAddr0 := Overwrite(s.rxAddr0, data))
    else if r == RX_ADDR_P1 then s.(rxAddr1 := Overwrite(s.rxAddr1, data))
    else if r == TX_ADDR then s.(txAddr := Overwrite(s.txAddr, data))
    else s.(regs := s.regs[r := data[0]])
  }

  /** A payload queued by W_TX_PAYLOAD, W_TX_PAYLOAD_NOACK or W_ACK_PAYLOAD; dropped when the FIFO is full. */
  function PushTx(s: State, data: seq<bv8>, kind: TxKind): (t: State)
    requires Valid(s)
    ensures Valid(t)
  {
    if data == [] || |s.txFifo| == FIFO_DEPTH then s
    else
      var d := if |data| > MAX_PAYLOAD then data[..MAX_PAYLOAD] else data;
      s.(txFifo := s.txFifo + [TxPayload(d, kind)], reuse := false)
  }

  /** The state after the bracket `frame`, taken when CSN rises. */
  function Apply(s: State, frame: seq<bv8>): (t: State)
    requires Valid(s)
    ensures Valid(t)
  {
    if frame == [] then s
    else
      var cmd, data := frame[0], frame[1..];
      if cmd < W_REGISTER then s
      else if cmd < 0x40 then WriteRegister(s, (cmd & REGISTER_MASK) as nat, data)
      else if cmd == R_RX_PAYLOAD then (if s.rxFifo == [] then s else s.(rxFifo := s.rxFifo[1..]))
      else if cmd == W_TX_PAYLOAD then PushTx(s, data, WithAck)
      else if cmd == W_TX_PAYLOAD_NOACK then
        (if s.regs[FEATURE] & EN_DYN_ACK != 0 then PushTx(s, data, NoAck) else s)
      else if W_ACK_PAYLOAD <= cmd < W_ACK_PAYLOAD + 6 then
        (if s.regs[FEATURE] & EN_ACK_PAY != 0 then PushTx(s, data, AckPayload((cmd - W_ACK_PAYLOAD) as nat)) else s)
      else if cmd == FLUSH_TX then s.(txFifo := [], reuse := false)
      else if cmd == FLUSH_RX then s.(rxFifo := [])
      else if cmd == REUSE_TX_PL then s.(reuse := true)
      else s
  }

  // ------------------------------------------------------------- air events

  /** What happened on the air to the payload at the head of the TX FIFO. */
  datatype Air =
    | Delivered(retries: nat, ackPayload: seq<bv8>)  // acknowledged after `retries` retransmissions
    | Lost                                           // not acknowledged within the retry budget

  /**
   * The transmitter is powered up, in PTX mode, and has something to send;
   * a raised MAX_RT blocks all further communication until it is cleared.
   */
  predicate CanTransmit(s: State)
    requires Valid(s)
  {
    s.regs[CONFIG] & PWR_UP != 0 && s.regs[CONFIG] & PRIM_RX == 0 && s.txFifo != [] && Flags(s) & MAX_RT == 0
  }

  /** SETUP_RETR's ARC field: how many retransmissions are allowed. */
  function RetryBudget(s: State): nat
    requires Valid(s)
  {
    (s.regs[SETUP_RETR] & 0x0F) as nat
  }

  /** The retransmit delay SETUP_RETR's ARD field sets, in microseconds: (ARD + 1) * 250. */
  function RetransmitDelay(s: State): (us: nat)
    requires Valid(s)
    ensures 250 <= us <= 4000 && us % 250 == 0
  {
    ((s.regs[SETUP_RETR] >> 4) as nat + 1) * 250
  }

  /** Sets the low nibble of OBSERVE_TX (ARC_CNT) and raises `flag`. */
  function Complete(s: State, retries: nat, flag: bv8): (t: State)
    requires Valid(s) && retries < 16
    ensures Valid(t)
    ensures (t.regs[OBSERVE_TX] & 0x0F) as nat == retries
  {
    LowNibble(s.regs[OBSERVE_TX], retries);
    var regs := s.regs[OBSERVE_TX := (s.regs[OBSERVE_TX] & 0xF0) | retries as bv8];
    s.(regs := regs[STATUS := regs[STATUS] | flag])
  }

  /** A count below 16 put in the low nibble reads back from it. */
  lemma LowNibble(b: bv8, n: nat)
    requires n < 16
    ensures (((b & 0xF0) | n as bv8) & 0x0F) as nat == n
  {
  }

  /** Auto-acknowledgement is on for pipe 0 (ENAA_P0), where a transmitter receives its acknowledgements. */
  predicate AutoAckOn(s: State)
    requires Valid(s)
  {
    s.regs[EN_AA] & 0x01 != 0
  }

  /**
   * The transmitter can see an acknowledgement: pipe 0 listens on the
   * address the payload goes to (section 7.4.2 of the product specification).
   */
  predicate AckMatch(s: State)
    requires Valid(s)
  {
    s.rxAddr0 == s.txAddr
  }

  /** ACK payloads are taken in only with EN_DPL and EN_ACK_PAY both set (section 7.4.1). */
  predicate AckPayloadsOn(s: State)
    requires Valid(s)
  {
    s.regs[FEATURE] & EN_DPL != 0 && s.regs[FEATURE] & EN_ACK_PAY != 0
  }

  /** The head of the TX FIFO was queued with W_TX_PAYLOAD_NOACK: it asks for no acknowledgement. */
  predicate NoAckHead(s: State)
    requires Valid(s)
  {
    s.txFifo != [] && s.txFifo[0].kind == NoAck
  }

  /**
   * The transmitter waits for an acknowledgement after sending the head: it
   * asked for one, and ENAA_P0 is set. With ENAA_P0 clear the chip sends
   * once and completes at once (Appendix A of the product specification).
   */
  predicate WaitsForAck(s: State)
    requires Valid(s)
  {
    !NoAckHead(s) && AutoAckOn(s)
  }

  /**
   * The transmission ends with TX_DS: at once when the transmitter does not
   * wait (a NOACK payload, or ENAA_P0 clear), otherwise when the receiver
   * acknowledged within the retry budget and the transmitter could see that
   * acknowledgement.
   */
  predicate Acked(s: State, air: Air)
    requires Valid(s)
  {
    !WaitsForAck(s) || (air.Delivered? && air.retries <= RetryBudget(s) && AckMatch(s))
  }

  /** The acknowledgement also brought a payload, and the RX FIFO takes it in. */
  predicate AckReceived(s: State, air: Air)
    requires Valid(s)
  {
    && WaitsForAck(s) && air.Delivered? && air.retries <= RetryBudget(s) && AckMatch(s)
    && air.ackPayload != [] && AckPayloadsOn(s) && |s.rxFifo| < FIFO_DEPTH
  }

  /**
   * One transmission of the TX FIFO head. When it is acknowledged (or the
   * transmitter does not wait for an acknowledgement) the head is popped
   * (unless REUSE_TX_PL is in force), TX_DS rises with ARC_CNT the retries
   * used (none without the wait), and a non-empty ACK payload the
   * chip can take in is queued on pipe 0 with RX_DR. Otherwise MAX_RT rises
   * after the whole retry budget and the payload stays queued.
   */
  function Transmit(s: State, air: Air): (t: State)
    requires Valid(s)
    ensures Valid(t)
    ensures !CanTransmit(s) ==> t == s
    ensures t.txAddr == s.txAddr && t.rxAddr0 == s.rxAddr0 && t.rxAddr1 == s.rxAddr1
  {
    if !CanTransmit(s) then s
    else if Acked(s, air) then
      var retries := if WaitsForAck(s) then air.retries else 0;
      var sent := Complete(s, retries, TX_DS).(txFifo := if s.reuse then s.txFifo else s.txFifo[1..]);
      if AckReceived(s, air) then
        var ack := air.ackPayload;
        var d := if |ack| > MAX_PAYLOAD then ack[..MAX_PAYLOAD] else ack;
        sent.(rxFifo := sent.rxFifo + [RxPayload(0, d)], regs := sent.regs[STATUS := sent.regs[STATUS] | RX_DR])
      else sent
    else Complete(s, RetryBudget(s), MAX_RT)
  }

  /** The ARC_CNT a transmission leaves: none without the wait, the retries used when acknowledged, else the whole budget. */
  function RetriesUsed(s: State, air: Air): nat
    requires Valid(s)
  {
    if !WaitsForAck(s) then 0
    else if Acked(s, air) then air.retries
    else RetryBudget(s)
  }

  /** The receiver is powered up and in PRX mode. */
  predicate Listening(s: State)
    requires Valid(s)
  {
    s.regs[CONFIG] & PWR_UP != 0 && s.regs[CONFIG] & PRIM_RX != 0
  }

  /** Dynamic payload length is on for `pipe`: EN_DPL and the pipe's DYNPD bit are both set. */
  predicate DynamicOn(s: State, pipe: nat)
    requires Valid(s) && pipe < PIPES
  {
    s.regs[FEATURE] & EN_DPL != 0 && s.regs[DYNPD] & (1 << pipe) != 0
  }

  /**
   * A pipe takes a payload of any width with dynamic length on, and otherwise
   * only one of exactly RX_PW_Px bytes: a packet of another width fails its
   * CRC (section 7.3.4).
   */
  predicate WidthAccepted(s: State, pipe: nat, data: seq<bv8>)
    requires Valid(s) && pipe < PIPES
  {
    DynamicOn(s, pipe) || |data| == s.regs[RX_PW_P0 + pipe] as nat
  }

  /**
   * A payload arriving on `pipe`: queued with RX_DR when the pipe is enabled,
   * takes a payload of that width, and the RX FIFO has room. CE plays no
   * part here or in Transmit: a real receiver listens, and a transmitter
   * starts, only with CE high, and every driver in this model brings a
   * payload in or out on the air only after it has raised CE.
   */
  function Receive(s: State, pipe: nat, data: seq<bv8>): (t: State)
    requires Valid(s) && pipe < PIPES && 1 <= |data| <= MAX_PAYLOAD
    ensures Valid(t)
    ensures t.txFifo == s.txFifo
    ensures t.txAddr == s.txAddr && t.rxAddr0 == s.rxAddr0 && t.rxAddr1 == s.rxAddr1
    ensures t == s || (WidthAccepted(s, pipe, data) && |s.rxFifo| < FIFO_DEPTH && t.rxFifo == s.rxFifo + [RxPayload(pipe, data)])
  {
    if Listening(s) && s.regs[EN_RXADDR] & (1 << pipe) != 0 && WidthAccepted(s, pipe, data) && |s.rxFifo| < FIFO_DEPTH then
      s.(rxFifo := s.rxFifo + [RxPayload(pipe, data)], regs := s.regs[STATUS := s.regs[STATUS] | RX_DR])
    else s
  }

  /**
   * The first `n` bytes shifted in after R_RX_PAYLOAD: the head payload of the
   * RX FIFO, padded with 0x00 past its end or when the FIFO is empty.
   */
  function RxHead(s: State, n: nat): (r: seq<bv8>)
    requires Valid(s)
    ensures |r| == n
  {
    seq(n, i requires 0 <= i < n => PayloadByte(s, i + 1))
  }

  /** The head read is the head payload's bytes, then zeros past its end or with the RX FIFO empty. */
  lemma RxHeadIsPayload(s: State, n: nat)
    requires Valid(s)
    ensures s.rxFifo != [] ==> forall i :: 0 <= i < n && i < |s.rxFifo[0].data| ==> RxHead(s, n)[i] == s.rxFifo[0].data[i]
    ensures forall i :: 0 <= i < n && (s.rxFifo == [] || i >= |s.rxFifo[0].data|) ==> RxHead(s, n)[i] == 0
  {
  }

  /** One more byte clocked out extends the head read by that byte. */
  lemma RxHeadSnoc(s: State, n: nat)
    requires Valid(s)
    ensures RxHead(s, n + 1) == RxHead(s, n) + [PayloadByte(s, n + 1)]
  {
    assert forall i :: 0 <= i < n ==> RxHead(s, n + 1)[i] == RxHead(s, n)[i];
  }

  /** The head of the RX FIFO removed, as R_RX_PAYLOAD does when CSN rises. */
  function PopRx(s: State): (t: State)
    requires Valid(s)
    ensures Valid(t)
    ensures t.rxFifo == if s.rxFifo == [] then [] else s.rxFifo[1..]
    ensures t.regs == s.regs && t.txFifo == s.txFifo && t.reuse == s.reuse
  {
    if s.rxFifo == [] then s else s.(rxFifo := s.rxFifo[1..])
  }

  // ----------------------------------------------------------------- lemmas

  /** A register-read bracket changes nothing and returns the register. */
  lemma ReadBracket(s: State, r: nat)
    requires Valid(s) && r < REGISTER_COUNT
    ensures Apply(s, [R_REGISTER + r as bv8, NOP]) == s
    ensures Miso(s, [R_REGISTER + r as bv8, NOP], 1) == Reg(s, r)
  {
    var cmd := R_REGISTER + r as bv8;
    assert (cmd & REGISTER_MASK) as nat == r;
  }

  /** A plain register updated in place: it reads back as `v` and no other register changes. */
  lemma UpdateReadsBack(s: State, r: nat, v: bv8)
    requires Valid(s) && IsPlain(r)
    ensures Valid(s.(regs := s.regs[r := v]))
    ensures Reg(s.(regs := s.regs[r := v]), r) == v
    ensures forall q: nat :: q < REGISTER_COUNT && q != r ==> Reg(s.(regs := s.regs[r := v]), q) == Reg(s, q)
  {
    var t := s.(regs := s.regs[r := v]);
    assert StatusByte(t) == StatusByte(s) by { assert t.regs[STATUS] == s.regs[STATUS]; }
  }

  /** A two-byte write bracket to any register is W_REGISTER with one data byte. */
  lemma WriteBracketRegister(s: State, r: nat, v: bv8)
    requires Valid(s) && r < REGISTER_COUNT
    ensures Apply(s, [W_REGISTER + r as bv8, v]) == WriteRegister(s, r, [v])
  {
    var cmd := W_REGISTER + r as bv8;
    assert (cmd & REGISTER_MASK) as nat == r;
    assert [cmd, v][1..] == [v];
  }

  /** The interrupt flags read back in STATUS are exactly the raised flags. */
  lemma StatusShowsFlags(s: State)
    requires Valid(s)
    ensures StatusByte(s) & IRQ_FLAGS == Flags(s)
    ensures StatusByte(s) & TX_DS == s.regs[STATUS] & TX_DS
    ensures StatusByte(s) & MAX_RT == s.regs[STATUS] & MAX_RT
    ensures StatusByte(s) & RX_DR == s.regs[STATUS] & RX_DR
  {
    assert RxPipeNumber(s) <= 7;
  }

  /** A one-byte write bracket to a plain register updates that register and nothing else. */
  lemma WriteBracket(s: State, r: nat, v: bv8)
    requires Valid(s) && IsPlain(r)
    ensures Apply(s, [W_REGISTER + r as bv8, v]) == s.(regs := s.regs[r := v])
  {
    var cmd := W_REGISTER + r as bv8;
    assert (cmd & REGISTER_MASK) as nat == r;
    assert [cmd, v][1..] == [v];
  }

  /** Writing 0x70 to STATUS clears all three interrupt flags and nothing else. */
  lemma ClearFlagsBracket(s: State)
    requires Valid(s)
    ensures Flags(Apply(s, [W_REGISTER + STATUS as bv8, IRQ_FLAGS])) == 0
    ensures Apply(s, [W_REGISTER + STATUS as bv8, IRQ_FLAGS]) == s.(regs := s.regs[STATUS := s.regs[STATUS] & !IRQ_FLAGS])
  {
    var cmd := W_REGISTER + STATUS as bv8;
    assert (cmd & REGISTER_MASK) as nat == STATUS;
  }

  /** A five-byte write to an address register replaces the whole address. */
  lemma WideBracket(s: State, r: nat, addr: seq<bv8>)
    requires Valid(s) && IsWide(r) && |addr| == ADDRESS_WIDTH
    ensures Apply(s, [W_REGISTER + r as bv8] + addr) == WriteRegister(s, r, addr)
    ensures Wide(Apply(s, [W_REGISTER + r as bv8] + addr), r) == addr
  {
    var frame := [W_REGISTER + r as bv8] + addr;
    assert frame[1..] == addr;
    assert ((W_REGISTER + r as bv8) & REGISTER_MASK) as nat == r;
  }

  /** Any R_RX_PAYLOAD bracket pops the RX FIFO, whatever bytes are clocked out. */
  lemma PayloadBracket(s: State, out: seq<bv8>)
    requires Valid(s)
    ensures Apply(s, [R_RX_PAYLOAD] + out) == PopRx(s)
  {
  }

  /** A payload bracket queues exactly the given bytes, after a flush of the TX FIFO. */
  lemma TxPayloadBracket(s: State, payload: seq<bv8>)
    requires Valid(s) && 1 <= |payload| <= MAX_PAYLOAD
    ensures Apply(Apply(s, [FLUSH_TX]), [W_TX_PAYLOAD] + payload)
         == s.(txFifo := [TxPayload(payload, WithAck)], reuse := false)
  {
    assert ([W_TX_PAYLOAD] + payload)[1..] == payload;
  }

  /** A full-width write to an address register replaces that address and nothing else. */
  lemma WideWrite(s: State, r: nat, addr: seq<bv8>)
    requires Valid(s) && IsWide(r) && |addr| == ADDRESS_WIDTH
    ensures WriteRegister(s, r, addr)
         == if r == RX_ADDR_P0 then s.(rxAddr0 := addr)
            else if r == RX_ADDR_P1 then s.(rxAddr1 := addr)
            else s.(txAddr := addr)
  {
    assert addr[..ADDRESS_WIDTH] == addr;
  }

  /** A transmission on a ready chip always ends with exactly one of TX_DS or MAX_RT raised. */
  lemma TransmitRaisesOneFlag(s: State, air: Air)
    requires Valid(s) && CanTransmit(s) && Flags(s) & (TX_DS | MAX_RT) == 0
    ensures var t := Transmit(s, air);
      (Flags(t) & TX_DS != 0) != (Flags(t) & MAX_RT != 0)
    ensures var t := Transmit(s, air);
      Flags(t) & TX_DS != 0 <==> Acked(s, air)
  {
  }

  /** A NOACK payload is never retried: TX_DS rises with ARC_CNT 0 whatever happens on the air. */
  lemma NoAckAlwaysSent(s: State, air: Air)
    requires Valid(s) && CanTransmit(s) && NoAckHead(s)
    ensures Flags(Transmit(s, air)) & TX_DS != 0
    ensures Transmit(s, air).regs[OBSERVE_TX] & 0x0F == 0
    ensures Transmit(s, air).rxFifo == s.rxFifo
  {
  }

  /**
   * With ENAA_P0 clear the transmitter does not wait: TX_DS rises with
   * ARC_CNT 0 whatever happens on the air, the head leaves the TX FIFO
   * (unless it is reused), and no ACK payload is taken in.
   */
  lemma AutoAckOffSent(s: State, air: Air)
    requires Valid(s) && CanTransmit(s) && !AutoAckOn(s) && Flags(s) & MAX_RT == 0
    ensures Flags(Transmit(s, air)) & TX_DS != 0
    ensures Flags(Transmit(s, air)) & MAX_RT == 0
    ensures Transmit(s, air).regs[OBSERVE_TX] & 0x0F == 0
    ensures Transmit(s, air).txFifo == if s.reuse then s.txFifo else s.txFifo[1..]
    ensures Transmit(s, air).rxFifo == s.rxFifo
  {
  }

  /**
   * A payload that waits for an acknowledgement the transmitter cannot see
   * (ENAA_P0 set, pipe 0 listening elsewhere) never completes: MAX_RT rises,
   * TX_DS does not, and the payload stays queued.
   */
  lemma UnmatchedNeverAcked(s: State, air: Air)
    requires Valid(s) && CanTransmit(s) && !NoAckHead(s) && AutoAckOn(s) && !AckMatch(s) && Flags(s) & TX_DS == 0
    ensures Flags(Transmit(s, air)) & TX_DS == 0
    ensures Flags(Transmit(s, air)) & MAX_RT != 0
    ensures Transmit(s, air).txFifo == s.txFifo
  {
  }

  /** A payload whose width a static-width pipe does not take leaves the receiver unchanged. */
  lemma WrongWidthDropped(s: State, pipe: nat, data: seq<bv8>)
    requires Valid(s) && pipe < PIPES && 1 <= |data| <= MAX_PAYLOAD
    requires !DynamicOn(s, pipe) && |data| != s.regs[RX_PW_P0 + pipe] as nat
    ensures Receive(s, pipe, data) == s
  {
  }

  /** A transmission rewrites STATUS and OBSERVE_TX and no other register. */
  lemma TransmitKeepsSettings(s: State, air: Air, r: nat)
    requires Valid(s) && r < REGISTER_COUNT && r != STATUS && r != OBSERVE_TX
    ensures Transmit(s, air).regs[r] == s.regs[r]
  {
  }
}
