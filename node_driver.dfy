/**
 * The nRF24L01+ driver functions that the base-station and node firmwares
 * repeat, nearly verbatim, in every main file: one-register reads and writes
 * as CSN brackets, the flushes, the STATUS reset, the TX and RX mode switches
 * built from read-modify-writes of CONFIG, the payload write, the status
 * queries, the busy-wait on `is_Sending`, and the full-duplex payload read.
 *
 * Each method states the exact chip state it leaves behind and the exact
 * brackets and CE edges it puts on the wires (`Bus.trace`).
 */
module NodeDriver {
  import opened Nrf24Chip
  import opened Spi

  // nRF_send_Status results
  const TRANSMISSON_OK: bv8 := 0x00
  const MESSAGE_LOST: bv8 := 0x01
  const STILL_SENDING: bv8 := 0xFF

  /** The byte every request payload of the base stations is made of. */
  const REQUEST_BYTE: bv8 := 0xAA

  // ------------------------------------------------------------ wire shapes

  /** The bracket of a one-byte register write. */
  function Poke(reg: nat, v: bv8): Event
    requires reg < REGISTER_COUNT
  {
    Bracket([W_REGISTER + reg as bv8, v])
  }

  /** The bracket of a one-byte register read. */
  function Peek(reg: nat): Event
    requires reg < REGISTER_COUNT
  {
    Bracket([R_REGISTER + reg as bv8, NOP])
  }

  /** A read-modify-write: the register is read in one bracket and `v` written back in the next. */
  function Rmw(reg: nat, v: bv8): seq<Event>
    requires reg < REGISTER_COUNT
  {
    [Peek(reg), Poke(reg, v)]
  }

  // ------------------------------------------------------- CONFIG transforms

  /** CONFIG after the TX-mode read-modify-writes. */
  function TxConfig(c: bv8): (r: bv8)
    ensures r & PWR_UP != 0 && r & PRIM_RX == 0
    ensures r & MASK_TX_DS != 0 && r & MASK_MAX_RT != 0
    ensures r & (MASK_RX_DR | EN_CRC | CRCO) == c & (MASK_RX_DR | EN_CRC | CRCO)
    ensures r & 0x80 == c & 0x80
  {
    ((c & !PRIM_RX) | PWR_UP) | (MASK_TX_DS | MASK_MAX_RT)
  }

  /** CONFIG after the RX-mode read-modify-writes. */
  function RxConfig(c: bv8): (r: bv8)
    ensures r & PWR_UP != 0 && r & PRIM_RX != 0
    ensures r & MASK_TX_DS != 0 && r & MASK_MAX_RT != 0
    ensures r & (MASK_RX_DR | EN_CRC | CRCO) == c & (MASK_RX_DR | EN_CRC | CRCO)
    ensures r & 0x80 == c & 0x80
  {
    (c | (PWR_UP | PRIM_RX)) | (MASK_TX_DS | MASK_MAX_RT)
  }

  /** The two mode switches agree on every CONFIG bit except PRIM_RX, whatever CONFIG held before. */
  lemma ModesDifferOnlyInPrimRx(c: bv8, d: bv8)
    ensures TxConfig(c) & !PRIM_RX == RxConfig(c) & !PRIM_RX
    ensures RxConfig(TxConfig(c)) == RxConfig(c)
    ensures TxConfig(RxConfig(d)) == TxConfig(d)
  {
  }

  // ---------------------------------------------------------- chip effects

  /** IRQ flags cleared by writing 0x70 to STATUS. */
  function ClearFlags(s: State): (t: State)
    requires Valid(s)
    ensures Valid(t) && Flags(t) == 0
    ensures t.regs[STATUS := s.regs[STATUS]] == s.regs
    ensures t.rxFifo == s.rxFifo && t.txFifo == s.txFifo
  {
    s.(regs := s.regs[STATUS := s.regs[STATUS] & !IRQ_FLAGS])
  }

  /** The chip after nRF_TX_Mode: PTX, powered up, TX FIFO flushed, flags cleared, TX interrupts masked. */
  function EnterTx(s: State): (t: State)
    requires Valid(s)
    ensures Valid(t) && Flags(t) == 0
    ensures t.regs[CONFIG] == TxConfig(s.regs[CONFIG])
    ensures forall r :: 0 <= r < REGISTER_COUNT && r != CONFIG && r != STATUS ==> t.regs[r] == s.regs[r]
    ensures t.txFifo == [] && !t.reuse && t.rxFifo == s.rxFifo
    ensures t.txAddr == s.txAddr && t.rxAddr0 == s.rxAddr0 && t.rxAddr1 == s.rxAddr1
  {
    var powered := s.(regs := s.regs[CONFIG := (s.regs[CONFIG] & !PRIM_RX) | PWR_UP]);
    var cleared := ClearFlags(powered.(txFifo := [], reuse := false));
    cleared.(regs := cleared.regs[CONFIG := cleared.regs[CONFIG] | (MASK_TX_DS | MASK_MAX_RT)])
  }

  /** The chip after nRF_RX_Mode: PRX, powered up, RX FIFO flushed, flags cleared, TX interrupts masked. */
  function EnterRx(s: State): (t: State)
    requires Valid(s)
    ensures Valid(t) && Flags(t) == 0 && Listening(t)
    ensures t.regs[CONFIG] == RxConfig(s.regs[CONFIG])
    ensures forall r :: 0 <= r < REGISTER_COUNT && r != CONFIG && r != STATUS ==> t.regs[r] == s.regs[r]
    ensures t.rxFifo == [] && t.txFifo == s.txFifo && t.reuse == s.reuse
    ensures t.txAddr == s.txAddr && t.rxAddr0 == s.rxAddr0 && t.rxAddr1 == s.rxAddr1
  {
    var powered := s.(regs := s.regs[CONFIG := s.regs[CONFIG] | (PWR_UP | PRIM_RX)]);
    var cleared := ClearFlags(powered.(rxFifo := []));
    cleared.(regs := cleared.regs[CONFIG := cleared.regs[CONFIG] | (MASK_TX_DS | MASK_MAX_RT)])
  }

  // -------------------------------------------------- status classification

  /** nRF_is_Sending on a STATUS byte: 0 once TX_DS or MAX_RT is up, 1 while neither is. */
  function Sending(status: bv8): (r: bv8)
    ensures r == 0 <==> status & (TX_DS | MAX_RT) != 0
    ensures r == 1 <==> status & (TX_DS | MAX_RT) == 0
  {
    if status & (TX_DS | MAX_RT) != 0 then 0 else 1
  }

  /** nRF_send_Status on a STATUS byte: TX_DS wins over MAX_RT; neither means still sending. */
  function Outcome(status: bv8): (r: bv8)
    ensures r == TRANSMISSON_OK <==> status & TX_DS != 0
    ensures r == MESSAGE_LOST <==> status & TX_DS == 0 && status & MAX_RT != 0
    ensures r == STILL_SENDING <==> status & (TX_DS | MAX_RT) == 0
  {
    if status & TX_DS != 0 then TRANSMISSON_OK
    else if status & MAX_RT != 0 then MESSAGE_LOST
    else STILL_SENDING
  }

  /** The two classifiers agree: a transmission is still running exactly when neither outcome is known. */
  lemma OutcomeMatchesSending(status: bv8)
    ensures Outcome(status) == STILL_SENDING <==> Sending(status) == 1
    ensures Outcome(status) != STILL_SENDING <==> Sending(status) == 0
  {
  }

  /**
   * After one transmission of a freshly queued payload the status read back
   * tells the outcome on the air, and OBSERVE_TX's low nibble (nRF_RT_Count)
   * holds the retries used: none for a NOACK payload, all of the budget
   * when the payload was lost.
   */
  lemma TransmissionOutcome(s: State, air: Air)
    requires Valid(s) && CanTransmit(s) && Flags(s) == 0
    ensures var t := Transmit(s, air);
      && Sending(StatusByte(t)) == 0
      && (Outcome(StatusByte(t)) == TRANSMISSON_OK <==> Acked(s, air))
      && (Outcome(StatusByte(t)) == MESSAGE_LOST <==> !Acked(s, air))
      && (t.regs[OBSERVE_TX] & 0x0F) as nat == RetriesUsed(s, air)
  {
    var t := Transmit(s, air);
    TransmitRaisesOneFlag(s, air);
    StatusShowsFlags(t);
    var st := StatusByte(t);
    assert st & TX_DS == Flags(t) & TX_DS && st & MAX_RT == Flags(t) & MAX_RT;
    RetriesRecorded(s, air);
  }

  /** The retry counter OBSERVE_TX[3:0] after one transmission. */
  lemma RetriesRecorded(s: State, air: Air)
    requires Valid(s) && CanTransmit(s)
    ensures (Transmit(s, air).regs[OBSERVE_TX] & 0x0F) as nat == RetriesUsed(s, air)
    ensures RetriesUsed(s, air) <= RetryBudget(s)
  {
    assert RetryBudget(s) < 16;
  }

  // ------------------------------------------------------ the 0xAA counter

  /** How many bytes of `s` are request bytes 0xAA. */
  function CountAA(s: seq<bv8>): (n: nat)
    ensures n <= |s|
  {
    if s == [] then 0 else CountAA(s[..|s| - 1]) + (if s[|s| - 1] == REQUEST_BYTE then 1 else 0)
  }

  lemma {:induction false} CountAAAppend(a: seq<bv8>, b: seq<bv8>)
    ensures CountAA(a + b) == CountAA(a) + CountAA(b)
    decreases |b|
  {
    if b == [] {
      assert a + b == a;
    } else {
      var b' := b[..|b| - 1];
      assert (a + b)[..|a + b| - 1] == a + b';
      CountAAAppend(a, b');
    }
  }

  /** A request of `n` bytes 0xAA counts `n`; a byte other than 0xAA never counts. */
  lemma {:induction false} CountAAOfRequest(n: nat)
    ensures CountAA(seq(n, _ => REQUEST_BYTE)) == n
  {
    if n > 0 {
      var s := seq(n, _ => REQUEST_BYTE);
      assert s[..n - 1] == seq(n - 1, _ => REQUEST_BYTE);
      CountAAOfRequest(n - 1);
    }
  }

  /** The count is exactly the size of the set of positions holding 0xAA. */
  lemma {:induction false} CountAAIsPositions(s: seq<bv8>)
    ensures CountAA(s) == |set i | 0 <= i < |s| && s[i] == REQUEST_BYTE|
  {
    if s != [] {
      var p := s[..|s| - 1];
      CountAAIsPositions(p);
      var A := set i | 0 <= i < |p| && p[i] == REQUEST_BYTE;
      var B := set i | 0 <= i < |s| && s[i] == REQUEST_BYTE;
      if s[|s| - 1] == REQUEST_BYTE {
        assert B == A + {|s| - 1};
      } else {
        assert B == A;
      }
    }
  }

  /** Every byte counts exactly when every byte is a request byte. */
  lemma {:induction false} CountAAAll(s: seq<bv8>)
    ensures CountAA(s) == |s| <==> forall i :: 0 <= i < |s| ==> s[i] == REQUEST_BYTE
  {
    if s != [] {
      var p := s[..|s| - 1];
      CountAAAll(p);
      assert forall i :: 0 <= i < |p| ==> p[i] == s[i];
    }
  }

  /**
   * RX_Payload_cnt after the node's payload read: a `uint8_t` bumped once
   * for every 0xAA byte received, so it wraps at 256.
   */
  function Tally(count: nat, received: seq<bv8>): nat
  {
    (count + CountAA(received)) % 256
  }

  /**
   * From a zero count, a payload of `n` bytes brings the counter to `n`
   * exactly when it is the request, `n` bytes 0xAA.
   */
  lemma TallyOfRequest(p: seq<bv8>)
    requires |p| < 256
    ensures Tally(0, p) == |p| <==> p == seq(|p|, _ => REQUEST_BYTE)
  {
    CountAAAll(p);
    if p == seq(|p|, _ => REQUEST_BYTE) {
      assert forall i :: 0 <= i < |p| ==> p[i] == REQUEST_BYTE;
    }
  }

  // ---------------------------------------------------------------- methods

  /** SPI_Read_Byte: [R_REGISTER + reg, NOP] in one bracket; the byte echoed with the NOP is the register. */
  method ReadByte(bus: Bus, reg: nat) returns (v: bv8)
    requires bus.Valid() && !bus.selected && reg < REGISTER_COUNT
    modifies bus
    ensures bus.Valid() && !bus.selected && bus.ce == old(bus.ce)
    ensures v == Reg(old(bus.chip), reg)
    ensures bus.chip == old(bus.chip)
    ensures bus.trace == old(bus.trace) + [Peek(reg)]
  {
    ReadBracket(bus.chip, reg);
    v := bus.Pair(R_REGISTER + reg as bv8, NOP);
  }

  /** SPI_Write_Byte: [W_REGISTER + reg, data] in one bracket. */
  method WriteByte(bus: Bus, reg: nat, data: bv8)
    requires bus.Valid() && !bus.selected && reg < REGISTER_COUNT
    modifies bus
    ensures bus.Valid() && !bus.selected && bus.ce == old(bus.ce)
    ensures bus.chip == WriteRegister(old(bus.chip), reg, [data])
    ensures IsPlain(reg) ==> bus.chip == old(bus.chip).(regs := old(bus.chip).regs[reg := data])
    ensures bus.trace == old(bus.trace) + [Poke(reg, data)]
  {
    WriteBracketRegister(bus.chip, reg, data);
    var _ := bus.Pair(W_REGISTER + reg as bv8, data);
  }

  /** Writes `addr` to a five-byte address register, in array order, in one bracket. */
  method WriteAddress(bus: Bus, reg: nat, addr: seq<bv8>)
    requires bus.Valid() && !bus.selected && IsWide(reg) && |addr| == ADDRESS_WIDTH
    modifies bus
    ensures bus.Valid() && !bus.selected && bus.ce == old(bus.ce)
    ensures bus.chip == WriteRegister(old(bus.chip), reg, addr)
    ensures Wide(bus.chip, reg) == addr
    ensures bus.trace == old(bus.trace) + [Bracket([W_REGISTER + reg as bv8] + addr)]
  {
    WideBracket(bus.chip, reg, addr);
    bus.WriteBytes(W_REGISTER + reg as bv8, addr);
  }

  /** nRF_Flush_TX. */
  method FlushTx(bus: Bus)
    requires bus.Valid() && !bus.selected
    modifies bus
    ensures bus.Valid() && !bus.selected && bus.ce == old(bus.ce)
    ensures bus.chip == old(bus.chip).(txFifo := [], reuse := false)
    ensures bus.trace == old(bus.trace) + [Bracket([FLUSH_TX])]
  {
    var _ := bus.Command(FLUSH_TX);
  }

  /** nRF_Flush_RX. */
  method FlushRx(bus: Bus)
    requires bus.Valid() && !bus.selected
    modifies bus
    ensures bus.Valid() && !bus.selected && bus.ce == old(bus.ce)
    ensures bus.chip == old(bus.chip).(rxFifo := [])
    ensures bus.trace == old(bus.trace) + [Bracket([FLUSH_RX])]
  {
    var _ := bus.Command(FLUSH_RX);
  }

  /** nRF_Reset / reset(): 0x70 to STATUS clears the three IRQ flags. */
  method ResetFlags(bus: Bus)
    requires bus.Valid() && !bus.selected
    modifies bus
    ensures bus.Valid() && !bus.selected && bus.ce == old(bus.ce)
    ensures bus.chip == ClearFlags(old(bus.chip))
    ensures bus.trace == old(bus.trace) + [Poke(STATUS, IRQ_FLAGS)]
  {
    WriteByte(bus, STATUS, IRQ_FLAGS);
  }

  /** `SPI_Write_Byte(CONFIG, SPI_Read_Byte(CONFIG) | bits)`: one read-modify-write setting `bits`. */
  method SetConfig(bus: Bus, bits: bv8)
    requires bus.Valid() && !bus.selected
    modifies bus
    ensures bus.Valid() && !bus.selected && bus.ce == old(bus.ce)
    ensures bus.chip == old(bus.chip).(regs := old(bus.chip).regs[CONFIG := old(bus.chip).regs[CONFIG] | bits])
    ensures bus.trace == old(bus.trace) + Rmw(CONFIG, old(bus.chip).regs[CONFIG] | bits)
  {
    PlainRead(bus.chip, CONFIG);
    var c := ReadByte(bus, CONFIG);
    WriteByte(bus, CONFIG, c | bits);
  }

  /** `SPI_Write_Byte(CONFIG, SPI_Read_Byte(CONFIG) & ~bits)`: one read-modify-write clearing `bits`. */
  method ClearConfig(bus: Bus, bits: bv8)
    requires bus.Valid() && !bus.selected
    modifies bus
    ensures bus.Valid() && !bus.selected && bus.ce == old(bus.ce)
    ensures bus.chip == old(bus.chip).(regs := old(bus.chip).regs[CONFIG := old(bus.chip).regs[CONFIG] & !bits])
    ensures bus.trace == old(bus.trace) + Rmw(CONFIG, old(bus.chip).regs[CONFIG] & !bits)
  {
    PlainRead(bus.chip, CONFIG);
    var c := ReadByte(bus, CONFIG);
    WriteByte(bus, CONFIG, c & !bits);
  }

  /**
   * `trace` followed by what nRF_TX_Mode puts on the wires, for CONFIG = `c`
   * beforehand: CE low, the PRIM_RX and PWR_UP read-modify-writes, FLUSH_TX,
   * 0x70 to STATUS and the mask read-modify-write.
   */
  function WithTxMode(trace: seq<Event>, c: bv8): (t: seq<Event>)
    ensures |t| == |trace| + 9 && t[..|trace|] == trace && t[|trace|] == ChipEnable(false)
  {
    trace + [ChipEnable(false)]
      + Rmw(CONFIG, c & !PRIM_RX) + Rmw(CONFIG, (c & !PRIM_RX) | PWR_UP)
      + [Bracket([FLUSH_TX])] + [Poke(STATUS, IRQ_FLAGS)]
      + Rmw(CONFIG, TxConfig(c))
  }

  /**
   * `trace` followed by what nRF_RX_Mode puts on the wires: as TX mode, with
   * one power-up write, FLUSH_RX, and CE high at the end.
   */
  function WithRxMode(trace: seq<Event>, c: bv8): (t: seq<Event>)
    ensures |t| == |trace| + 8 && t[..|trace|] == trace && t[|trace|] == ChipEnable(false) && t[|t| - 1] == ChipEnable(true)
  {
    trace + [ChipEnable(false)]
      + Rmw(CONFIG, c | (PWR_UP | PRIM_RX))
      + [Bracket([FLUSH_RX])] + [Poke(STATUS, IRQ_FLAGS)]
      + Rmw(CONFIG, RxConfig(c))
      + [ChipEnable(true)]
  }

  /**
   * nRF_TX_Mode: CE low; PRIM_RX cleared and then PWR_UP set, as two separate
   * read-modify-writes; TX FIFO flushed; 0x70 to STATUS; MASK_TX_DS and
   * MASK_MAX_RT set by a third read-modify-write.
   */
  method TxMode(bus: Bus)
    requires bus.Valid() && !bus.selected
    modifies bus
    ensures bus.Valid() && !bus.selected && !bus.ce
    ensures bus.chip == EnterTx(old(bus.chip))
    ensures bus.trace == WithTxMode(old(bus.trace), old(bus.chip).regs[CONFIG])
  {
    bus.SetCE(false);
    PowerUpTx(bus);
    FlushTx(bus);
    ResetFlags(bus);
    SetConfig(bus, MASK_TX_DS | MASK_MAX_RT);
  }

  /** The first two read-modify-writes of nRF_TX_Mode: PRIM_RX cleared, then PWR_UP set. */
  method PowerUpTx(bus: Bus)
    requires bus.Valid() && !bus.selected
    modifies bus
    ensures bus.Valid() && !bus.selected && bus.ce == old(bus.ce)
    ensures var c := old(bus.chip).regs[CONFIG];
      bus.chip == old(bus.chip).(regs := old(bus.chip).regs[CONFIG := (c & !PRIM_RX) | PWR_UP])
    ensures var c := old(bus.chip).regs[CONFIG];
      bus.trace == old(bus.trace) + Rmw(CONFIG, c & !PRIM_RX) + Rmw(CONFIG, (c & !PRIM_RX) | PWR_UP)
  {
    ghost var s := bus.chip;
    ClearConfig(bus, PRIM_RX);
    SetConfig(bus, PWR_UP);
    assert s.regs[CONFIG := s.regs[CONFIG] & !PRIM_RX][CONFIG := (s.regs[CONFIG] & !PRIM_RX) | PWR_UP]
        == s.regs[CONFIG := (s.regs[CONFIG] & !PRIM_RX) | PWR_UP];
  }


  /**
   * nRF_RX_Mode: CE low; PWR_UP and PRIM_RX set in one read-modify-write; RX
   * FIFO flushed; 0x70 to STATUS; the TX masks set; CE high.
   */
  method RxMode(bus: Bus)
    requires bus.Valid() && !bus.selected
    modifies bus
    ensures bus.Valid() && !bus.selected && bus.ce
    ensures bus.chip == EnterRx(old(bus.chip))
    ensures bus.trace == WithRxMode(old(bus.trace), old(bus.chip).regs[CONFIG])
  {
    bus.SetCE(false);
    SetConfig(bus, PWR_UP | PRIM_RX);
    FlushRx(bus);
    ResetFlags(bus);
    SetConfig(bus, MASK_TX_DS | MASK_MAX_RT);
    bus.SetCE(true);
  }

  /**
   * nRF_TX_Data / transmit_data: flush TX, then W_TX_PAYLOAD and the payload
   * in one bracket, then CE high; CE goes low again only when `pulse` (some
   * firmwares commented that line out and leave CE high).
   */
  method TxData(bus: Bus, payload: seq<bv8>, pulse: bool)
    requires bus.Valid() && !bus.selected && 1 <= |payload| <= MAX_PAYLOAD
    modifies bus
    ensures bus.Valid() && !bus.selected && bus.ce == !pulse
    ensures bus.chip == old(bus.chip).(txFifo := [TxPayload(payload, WithAck)], reuse := false)
    ensures bus.trace == old(bus.trace) + [Bracket([FLUSH_TX])] + [Bracket([W_TX_PAYLOAD] + payload)] + [ChipEnable(true)]
                         + (if pulse then [ChipEnable(false)] else [])
  {
    TxPayloadBracket(bus.chip, payload);
    FlushTx(bus);
    bus.WriteBytes(W_TX_PAYLOAD, payload);
    bus.SetCE(true);
    if pulse {
      bus.SetCE(false);
    }
  }

  /** nRF_get_Status: a lone NOP; the byte shifted in is STATUS. */
  method GetStatus(bus: Bus) returns (status: bv8)
    requires bus.Valid() && !bus.selected
    modifies bus
    ensures bus.Valid() && !bus.selected && bus.ce == old(bus.ce)
    ensures status == StatusByte(old(bus.chip))
    ensures bus.chip == old(bus.chip)
    ensures bus.trace == old(bus.trace) + [Bracket([NOP])]
  {
    status := bus.Command(NOP);
  }

  /** nRF_is_Sending: 0 exactly when TX_DS or MAX_RT is raised. */
  method IsSending(bus: Bus) returns (r: bv8)
    requires bus.Valid() && !bus.selected
    modifies bus
    ensures bus.Valid() && !bus.selected && bus.ce == old(bus.ce)
    ensures r == Sending(StatusByte(old(bus.chip)))
    ensures r == 0 <==> Flags(old(bus.chip)) & (TX_DS | MAX_RT) != 0
    ensures bus.chip == old(bus.chip)
    ensures bus.trace == old(bus.trace) + [Bracket([NOP])]
  {
    var status := GetStatus(bus);
    StatusShowsFlags(bus.chip);
    if status & (TX_DS | MAX_RT) != 0 {
      r := 0;
    } else {
      r := 1;
    }
  }

  /** nRF_send_Status: TRANSMISSON_OK on TX_DS, else MESSAGE_LOST on MAX_RT, else 0xFF. */
  method SendStatus(bus: Bus) returns (r: bv8)
    requires bus.Valid() && !bus.selected
    modifies bus
    ensures bus.Valid() && !bus.selected && bus.ce == old(bus.ce)
    ensures r == Outcome(StatusByte(old(bus.chip)))
    ensures r == TRANSMISSON_OK <==> Flags(old(bus.chip)) & TX_DS != 0
    ensures r == MESSAGE_LOST <==> Flags(old(bus.chip)) & TX_DS == 0 && Flags(old(bus.chip)) & MAX_RT != 0
    ensures bus.chip == old(bus.chip)
    ensures bus.trace == old(bus.trace) + [Bracket([NOP])]
  {
    var status := GetStatus(bus);
    StatusShowsFlags(bus.chip);
    if status & TX_DS != 0 {
      r := TRANSMISSON_OK;
    } else if status & MAX_RT != 0 {
      r := MESSAGE_LOST;
    } else {
      r := STILL_SENDING;
    }
  }

  /** nRF_RT_Count: the ARC_CNT nibble of OBSERVE_TX. */
  method RetryCount(bus: Bus) returns (n: bv8)
    requires bus.Valid() && !bus.selected
    modifies bus
    ensures bus.Valid() && !bus.selected && bus.ce == old(bus.ce)
    ensures n == old(bus.chip).regs[OBSERVE_TX] & 0x0F && n < 16
    ensures bus.chip == old(bus.chip)
    ensures bus.trace == old(bus.trace) + [Peek(OBSERVE_TX)]
  {
    n := ReadByte(bus, OBSERVE_TX);
    n := n & 0x0F;
  }

  /** `n` status polls. */
  function Polls(n: nat): (r: seq<Event>)
    ensures |r| == n && forall i :: 0 <= i < n ==> r[i] == Bracket([NOP])
  {
    seq(n, _ => Bracket([NOP]))
  }

  /**
   * `while(nRF_is_Sending());` with at most `fuel` polls. Nothing changes the
   * chip while it polls, so the first poll decides: `done` when TX_DS or
   * MAX_RT is already up (one poll), otherwise all the fuel is spent.
   */
  method WaitWhileSending(bus: Bus, fuel: nat) returns (done: bool, polls: nat)
    requires bus.Valid() && !bus.selected
    modifies bus
    ensures bus.Valid() && !bus.selected && bus.ce == old(bus.ce)
    ensures bus.chip == old(bus.chip)
    ensures done <==> fuel > 0 && Flags(old(bus.chip)) & (TX_DS | MAX_RT) != 0
    ensures polls == if done then 1 else fuel
    ensures bus.trace == old(bus.trace) + Polls(polls)
  {
    done := false;
    polls := 0;
    while polls < fuel && !done
      invariant bus.Valid() && !bus.selected && bus.ce == old(bus.ce)
      invariant bus.chip == old(bus.chip)
      invariant polls <= fuel
      invariant done ==> polls == 1 && Flags(bus.chip) & (TX_DS | MAX_RT) != 0
      invariant !done && polls > 0 ==> Flags(bus.chip) & (TX_DS | MAX_RT) == 0
      invariant bus.trace == old(bus.trace) + Polls(polls)
      decreases fuel - polls
    {
      var sending := IsSending(bus);
      assert Polls(polls) + [Bracket([NOP])] == Polls(polls + 1);
      polls := polls + 1;
      done := sending == 0;
    }
  }

  /**
   * nRF_get_Payload / Payload_RX inside an open R_RX_PAYLOAD bracket: each
   * byte of `buf[..len]` is clocked out and replaced by the byte clocked in.
   * Returns how many of the bytes received were 0xAA (the node firmwares
   * count those; the base stations ignore the count).
   */
  method Exchange(bus: Bus, buf: array<bv8>, len: nat) returns (aa: nat)
    requires bus.Valid() && bus.selected && bus.frame == [R_RX_PAYLOAD] && len <= buf.Length
    modifies bus`frame, buf
    ensures bus.Valid() && bus.selected
    ensures bus.frame == [R_RX_PAYLOAD] + old(buf[..len])
    ensures buf[..len] == RxHead(bus.chip, len)
    ensures buf[len..] == old(buf[len..])
    ensures aa == CountAA(buf[..len])
  {
    ghost var orig := buf[..];
    var i := 0;
    aa := 0;
    while i < len
      invariant 0 <= i <= len
      invariant bus.Valid() && bus.selected
      invariant bus.frame == [R_RX_PAYLOAD] + orig[..i]
      invariant buf[..] == RxHead(bus.chip, i) + orig[i..]
      invariant aa == CountAA(RxHead(bus.chip, i))
    {
      var b := ExchangeByte(bus, buf, i, orig);
      ReadStep(bus.chip, RxHead(bus.chip, i), i, b);
      if b == REQUEST_BYTE {
        aa := aa + 1;
      }
      i := i + 1;
    }
    assert buf[..len] == buf[..][..len];
  }

  /**
   * One byte of the exchange: `buf[i]` clocked out and replaced by the byte
   * clocked in, which is byte `i + 1` of the head payload.
   */
  method ExchangeByte(bus: Bus, buf: array<bv8>, i: nat, ghost orig: seq<bv8>) returns (b: bv8)
    requires bus.Valid() && bus.selected && i < buf.Length == |orig|
    requires bus.frame == [R_RX_PAYLOAD] + orig[..i]
    requires buf[..] == RxHead(bus.chip, i) + orig[i..]
    modifies bus`frame, buf
    ensures bus.Valid() && bus.selected
    ensures bus.frame == [R_RX_PAYLOAD] + orig[..i + 1]
    ensures buf[..] == RxHead(bus.chip, i + 1) + orig[i + 1..]
    ensures b == PayloadByte(bus.chip, i + 1)
  {
    assert buf[i] == orig[i];
    b := bus.Transfer(buf[i]);
    buf[i] := b;
    RxHeadSnoc(bus.chip, i);
    Splice(RxHead(bus.chip, i), orig[i..], b);
    assert orig[i..][1..] == orig[i + 1..];
    assert orig[..i + 1] == orig[..i] + [orig[i]];
  }

  /** Overwriting the first element of the rest extends the prefix by that element. */
  lemma Splice(head: seq<bv8>, rest: seq<bv8>, b: bv8)
    requires rest != []
    ensures (head + rest)[|head| := b] == head + [b] + rest[1..]
  {
  }



  /** One more payload byte extends the head read and the 0xAA count. */
  lemma ReadStep(s: State, done: seq<bv8>, i: nat, b: bv8)
    requires Valid(s) && done == RxHead(s, i) && b == PayloadByte(s, i + 1)
    ensures done + [b] == RxHead(s, i + 1)
    ensures CountAA(done + [b]) == CountAA(done) + if b == REQUEST_BYTE then 1 else 0
  {
    RxHeadSnoc(s, i);
    assert (done + [b])[..i] == done;
  }

  /**
   * The payload read of the IRQ handlers: R_RX_PAYLOAD and `len` exchanged
   * bytes in one bracket, then RX_DR (only) written to STATUS. `buf[..len]`
   * receives the head of the RX FIFO, which is popped.
   */
  method ReadPayload(bus: Bus, buf: array<bv8>, len: nat) returns (aa: nat)
    requires bus.Valid() && !bus.selected && len <= buf.Length
    modifies bus, buf
    ensures bus.Valid() && !bus.selected && bus.ce == old(bus.ce)
    ensures buf[..len] == RxHead(old(bus.chip), len)
    ensures buf[len..] == old(buf[len..])
    ensures aa == CountAA(buf[..len])
    ensures bus.chip == AfterRead(old(bus.chip))
    ensures bus.trace == old(bus.trace) + [Bracket([R_RX_PAYLOAD] + old(buf[..len]))] + [Poke(STATUS, RX_DR)]
  {
    ghost var s := bus.chip;
    bus.Select();
    var _ := bus.Transfer(R_RX_PAYLOAD);
    assert bus.frame == [R_RX_PAYLOAD];
    aa := Exchange(bus, buf, len);
    PayloadBracket(bus.chip, old(buf[..len]));
    bus.Deselect();
    assert bus.chip == PopRx(s);
    WriteByte(bus, STATUS, RX_DR);
    PopThenClear(s);
  }

  /** Popping the FIFO head and then writing RX_DR to STATUS is AfterRead. */
  lemma PopThenClear(s: State)
    requires Valid(s)
    ensures WriteRegister(PopRx(s), STATUS, [RX_DR]) == AfterRead(s)
  {
    assert RX_DR & IRQ_FLAGS == RX_DR;
  }

  /** The chip after an interrupt-driven payload read: the RX FIFO head popped, RX_DR (only) cleared. */
  function AfterRead(s: State): (t: State)
    requires Valid(s)
    ensures Valid(t)
    ensures Flags(t) == Flags(s) & !RX_DR
    ensures t.rxFifo == if s.rxFifo == [] then [] else s.rxFifo[1..]
    ensures t.txFifo == s.txFifo && t.txAddr == s.txAddr && t.rxAddr0 == s.rxAddr0
  {
    PopRx(s).(regs := s.regs[STATUS := s.regs[STATUS] & !RX_DR])
  }

  /**
   * The nRF IRQ handlers: CE low (stop listening), then the payload read of
   * `len` bytes into `buf` and RX_DR cleared.
   */
  method IrqRead(bus: Bus, buf: array<bv8>, len: nat) returns (aa: nat)
    requires bus.Valid() && !bus.selected && len <= buf.Length
    modifies bus, buf
    ensures bus.Valid() && !bus.selected && !bus.ce
    ensures buf[..len] == RxHead(old(bus.chip), len)
    ensures buf[len..] == old(buf[len..])
    ensures aa == CountAA(buf[..len])
    ensures bus.chip == AfterRead(old(bus.chip))
    ensures bus.trace == old(bus.trace) + [ChipEnable(false)] + [Bracket([R_RX_PAYLOAD] + old(buf[..len]))] + [Poke(STATUS, RX_DR)]
  {
    bus.SetCE(false);
    aa := ReadPayload(bus, buf, len);
  }

  /** The chip holding exactly `payload` for transmission. */
  function Queued(s: State, payload: seq<bv8>): (t: State)
    requires Valid(s) && 1 <= |payload| <= MAX_PAYLOAD
    ensures Valid(t) && t.txFifo == [TxPayload(payload, WithAck)]
  {
    s.(txFifo := [TxPayload(payload, WithAck)], reuse := false)
  }

  /**
   * The radio set-up most firmwares start nRF_Init with: auto-ACK and the
   * receiver on pipe 0 only, 5-byte addresses, channel 0x69, and RF_SETUP
   * as given (0x26 is 250 kbps at 0 dBm, 0x0E is 2 Mbps at 0 dBm).
   */
  method SetupRadio(bus: Bus, rfSetup: bv8)
    requires bus.Valid() && !bus.selected
    modifies bus
    ensures bus.Valid() && !bus.selected && bus.ce == old(bus.ce)
    ensures bus.chip == old(bus.chip).(regs := old(bus.chip).regs[EN_AA := 0x01][EN_RXADDR := 0x01]
      [SETUP_AW := 0x03][RF_CH := 0x69][RF_SETUP := rfSetup])
  {
    WriteByte(bus, EN_AA, 0x01);
    WriteByte(bus, EN_RXADDR, 0x01);
    WriteByte(bus, SETUP_AW, 0x03);
    WriteByte(bus, RF_CH, 0x69);
    WriteByte(bus, RF_SETUP, rfSetup);
  }

  /** What TX mode leaves: powered up in PTX mode with neither TX interrupt raised. */
  predicate ReadyToSend(s: State)
    requires Valid(s)
  {
    s.regs[CONFIG] & PWR_UP != 0 && s.regs[CONFIG] & PRIM_RX == 0 && Flags(s) & (TX_DS | MAX_RT) == 0
  }

  /**
   * The payload written with a CE pulse, the transmission on the air, and
   * `while(nRF_is_Sending());` with `fuel` polls. The wait always ends after
   * a single poll: the transmission raised TX_DS or MAX_RT before it.
   */
  method SendAndWait(bus: Bus, payload: seq<bv8>, air: Air, fuel: nat) returns (done: bool)
    requires bus.Valid() && !bus.selected && 1 <= |payload| <= MAX_PAYLOAD && ReadyToSend(bus.chip)
    modifies bus
    ensures bus.Valid() && !bus.selected && !bus.ce
    ensures bus.chip == Transmit(Queued(old(bus.chip), payload), air)
    ensures done <==> fuel > 0
  {
    TxData(bus, payload, true);
    ghost var ready := bus.chip;
    assert CanTransmit(ready);
    bus.Air(air);
    TransmitRaisesOneFlag(ready, air);
    var polls;
    done, polls := WaitWhileSending(bus, fuel);
  }

  /** TX mode, then the payload sent and waited for. */
  method TransmitAndWait(bus: Bus, payload: seq<bv8>, air: Air, fuel: nat) returns (done: bool)
    requires bus.Valid() && !bus.selected && 1 <= |payload| <= MAX_PAYLOAD
    modifies bus
    ensures bus.Valid() && !bus.selected && !bus.ce
    ensures bus.chip == Transmit(Queued(EnterTx(old(bus.chip)), payload), air)
    ensures done <==> fuel > 0
  {
    TxMode(bus);
    done := SendAndWait(bus, payload, air, fuel);
  }

  /**
   * Back to listening after a transmission: RX mode, flush RX, reset the
   * flags and CE high again. The flush and reset repeat what RX mode already
   * did.
   */
  method Listen(bus: Bus)
    requires bus.Valid() && !bus.selected
    modifies bus
    ensures bus.Valid() && !bus.selected && bus.ce
    ensures bus.chip == EnterRx(old(bus.chip))
    ensures bus.trace == WithRxMode(old(bus.trace), old(bus.chip).regs[CONFIG])
      + [Bracket([FLUSH_RX]), Poke(STATUS, IRQ_FLAGS), ChipEnable(true)]
  {
    RxMode(bus);
    FlushRx(bus);
    ResetFlags(bus);
    bus.SetCE(true);
  }
}
