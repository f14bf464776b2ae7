/**
 * The driver of the polled AVR firmwares (Node_1, Rbkyo_RX, Rbkyo_TX and
 * Test_BNO_nRF_TX): CONFIG written whole (0x1E to transmit, 0x1F to
 * receive) instead of read-modify-writes, nrf24_dataReady polling STATUS and
 * FIFO_STATUS instead of an interrupt, and strings sent one character per
 * packet.
 */
module AvrPolled {
  import opened Nrf24Chip
  import opened Spi
  import opened NodeDriver

  /** CONFIG for transmitting: MAX_RT masked, 2-byte CRC, powered up, PTX. */
  const TX_CONFIG: bv8 := 0x1E
  /** CONFIG for receiving: as TX_CONFIG, with PRIM_RX. */
  const RX_CONFIG: bv8 := 0x1F

  /** Something to read: RX_DR raised, or a payload waiting in the RX FIFO. */
  predicate DataPending(s: State)
    requires Valid(s)
  {
    Flags(s) & RX_DR != 0 || s.rxFifo != []
  }

  /** Neither TX_DS nor MAX_RT is raised: the next transmission will raise one and stop the wait. */
  predicate TxIdle(s: State)
    requires Valid(s)
  {
    Flags(s) & (TX_DS | MAX_RT) == 0
  }

  /** Arrivals and payload reads touch only RX_DR, so they keep the transmit flags as they were. */
  lemma RxKeepsTxIdle(s: State, pipe: nat, data: seq<bv8>)
    requires Valid(s) && pipe < PIPES && 1 <= |data| <= MAX_PAYLOAD
    ensures TxIdle(Receive(s, pipe, data)) <==> TxIdle(s)
    ensures TxIdle(AfterRead(s)) <==> TxIdle(s)
  {
    var t := Receive(s, pipe, data);
    assert t.regs[STATUS] & (TX_DS | MAX_RT) == s.regs[STATUS] & (TX_DS | MAX_RT);
  }

  /**
   * A payload arriving on an enabled pipe of a listening chip, with a width
   * the pipe takes and room in the RX FIFO, is pending data.
   */
  lemma ArrivalIsPending(s: State, pipe: nat, data: seq<bv8>)
    requires Valid(s) && pipe < PIPES && 1 <= |data| <= MAX_PAYLOAD
    requires Listening(s) && s.regs[EN_RXADDR] & (1 << pipe) != 0 && WidthAccepted(s, pipe, data) && |s.rxFifo| < FIFO_DEPTH
    ensures DataPending(Receive(s, pipe, data))
    ensures Receive(s, pipe, data).rxFifo[|s.rxFifo|] == RxPayload(pipe, data)
  {
  }

  /** The chip after nRF_TX_mode of Node_1: CONFIG = 0x1E and the TX FIFO flushed. */
  function FixedTx(s: State): (t: State)
    requires Valid(s)
    ensures Valid(t)
    ensures t.regs[CONFIG] & PWR_UP != 0 && t.regs[CONFIG] & PRIM_RX == 0
    ensures t.regs[CONFIG] & MASK_MAX_RT != 0 && t.regs[CONFIG] & (MASK_TX_DS | MASK_RX_DR) == 0
    ensures t.regs[CONFIG := s.regs[CONFIG]] == s.regs && Flags(t) == Flags(s)
    ensures t.txFifo == [] && t.rxFifo == s.rxFifo && t.txAddr == s.txAddr && t.rxAddr0 == s.rxAddr0
  {
    s.(regs := s.regs[CONFIG := TX_CONFIG], txFifo := [], reuse := false)
  }

  /** The chip after nRF_RX_mode of Node_1: CONFIG = 0x1F, the RX FIFO flushed, the flags cleared. */
  function FixedRx(s: State): (t: State)
    requires Valid(s)
    ensures Valid(t) && Listening(t) && Flags(t) == 0
    ensures t.regs[CONFIG] & MASK_MAX_RT != 0 && t.regs[CONFIG] & (MASK_TX_DS | MASK_RX_DR) == 0
    ensures t.regs[CONFIG] & !PRIM_RX == FixedTx(s).regs[CONFIG]
    ensures forall r :: 0 <= r < REGISTER_COUNT && r != CONFIG && r != STATUS ==> t.regs[r] == s.regs[r]
    ensures t.rxFifo == [] && t.txFifo == s.txFifo && t.txAddr == s.txAddr && t.rxAddr0 == s.rxAddr0
  {
    ClearFlags(s.(regs := s.regs[CONFIG := RX_CONFIG], rxFifo := []))
  }

  /** Clearing the flags just before nRF_RX_mode changes nothing: the mode switch clears them too. */
  lemma RxModeClears(s: State)
    requires Valid(s)
    ensures FixedRx(ClearFlags(s)) == FixedRx(s)
  {
    var c := ClearFlags(s);
    assert FixedRx(c).regs == FixedRx(s).regs;
  }

  /** Node_1's nRF_TX_mode: CE low, CONFIG = 0x1E, TX FIFO flushed. The flags are left as they are. */
  method FixedTxMode(bus: Bus)
    requires bus.Valid() && !bus.selected
    modifies bus
    ensures bus.Valid() && !bus.selected && !bus.ce
    ensures bus.chip == FixedTx(old(bus.chip))
    ensures bus.trace == old(bus.trace) + [ChipEnable(false)] + [Poke(CONFIG, TX_CONFIG)] + [Bracket([FLUSH_TX])]
  {
    bus.SetCE(false);
    WriteByte(bus, CONFIG, TX_CONFIG);
    FlushTx(bus);
  }

  /** Node_1's nRF_RX_mode: CE low, CONFIG = 0x1F, RX FIFO flushed, 0x70 to STATUS, CE high. */
  method FixedRxMode(bus: Bus)
    requires bus.Valid() && !bus.selected
    modifies bus
    ensures bus.Valid() && !bus.selected && bus.ce
    ensures bus.chip == FixedRx(old(bus.chip))
    ensures bus.trace == old(bus.trace) + [ChipEnable(false)] + [Poke(CONFIG, RX_CONFIG)]
                         + [Bracket([FLUSH_RX])] + [Poke(STATUS, IRQ_FLAGS)] + [ChipEnable(true)]
  {
    bus.SetCE(false);
    WriteByte(bus, CONFIG, RX_CONFIG);
    FlushRx(bus);
    ResetFlags(bus);
    bus.SetCE(true);
  }

  /** nrf24_rxFifoEmpty: FIFO_STATUS read, masked with RX_EMPTY, so 1 exactly when the RX FIFO is empty. */
  method RxFifoEmpty(bus: Bus) returns (r: bv8)
    requires bus.Valid() && !bus.selected
    modifies bus
    ensures bus.Valid() && !bus.selected && bus.ce == old(bus.ce) && bus.chip == old(bus.chip)
    ensures r == if old(bus.chip).rxFifo == [] then 1 else 0
    ensures bus.trace == old(bus.trace) + [Peek(FIFO_STATUS)]
  {
    var f := ReadByte(bus, FIFO_STATUS);
    r := f & RX_EMPTY;
  }

  /**
   * nrf24_dataReady: 1 when STATUS shows RX_DR (without reading further),
   * otherwise the negation of nrf24_rxFifoEmpty.
   */
  method DataReady(bus: Bus) returns (r: bv8)
    requires bus.Valid() && !bus.selected
    modifies bus
    ensures bus.Valid() && !bus.selected && bus.ce == old(bus.ce) && bus.chip == old(bus.chip)
    ensures r == 1 <==> DataPending(old(bus.chip))
    ensures r == 0 <==> !DataPending(old(bus.chip))
    ensures bus.trace == old(bus.trace) + [Bracket([NOP])]
                         + (if Flags(old(bus.chip)) & RX_DR != 0 then [] else [Peek(FIFO_STATUS)])
  {
    var status := GetStatus(bus);
    StatusShowsFlags(bus.chip);
    if status & RX_DR != 0 {
      return 1;
    }
    var empty := RxFifoEmpty(bus);
    r := if empty != 0 then 0 else 1;
  }

  /**
   * transmit_data of the firmwares that leave CE high, then the transmission
   * on the air and `while(nrf24_isSending());` with `fuel` polls.
   */
  method SendHeld(bus: Bus, payload: seq<bv8>, air: Air, fuel: nat) returns (done: bool)
    requires bus.Valid() && !bus.selected && 1 <= |payload| <= MAX_PAYLOAD && ReadyToSend(bus.chip)
    modifies bus
    ensures bus.Valid() && !bus.selected && bus.ce
    ensures bus.chip == Transmit(Queued(old(bus.chip), payload), air)
    ensures done <==> fuel > 0
  {
    TxData(bus, payload, false);
    ghost var ready := bus.chip;
    bus.Air(air);
    TransmitRaisesOneFlag(ready, air);
    var polls;
    done, polls := WaitWhileSending(bus, fuel);
  }

  // ------------------------------------------------------------ strings

  /** The length of the C string in `s`: the index of its first NUL. */
  function Strlen(s: seq<bv8>): (n: nat)
    requires 0 in s
    ensures n < |s| && s[n] == 0 && forall i :: 0 <= i < n ==> s[i] != 0
  {
    if s[0] == 0 then 0 else
      assert 0 in s[1..];
      Strlen(s[1..]) + 1
  }

  /** The first NUL is the only one the length depends on. */
  lemma StrlenOf(s: seq<bv8>, n: nat)
    requires n < |s| && s[n] == 0 && forall i :: 0 <= i < n ==> s[i] != 0
    ensures 0 in s && Strlen(s) == n
  {
  }

  /** The chip after transmit_data of the single byte `c` and what `air` did to it. */
  function Packet(s: State, c: bv8, air: Air): (t: State)
    requires Valid(s)
    ensures Valid(t)
  {
    Transmit(Queued(s, [c]), air)
  }

  /** The chip after one packet per character of `chars`, the i-th meeting `airs[i]` on the air. */
  function Sent(s: State, chars: seq<bv8>, airs: seq<Air>): (t: State)
    requires Valid(s) && |chars| <= |airs|
    ensures Valid(t)
    decreases |chars|
  {
    if chars == [] then s
    else
      var k := |chars| - 1;
      Packet(Sent(s, chars[..k], airs), chars[k], airs[k])
  }

  /** The wire events of one transmit_data of `c` with a CE pulse, then its air event. */
  function CharPacket(c: bv8, air: Air): (r: seq<Event>)
  {
    [Bracket([FLUSH_TX]), Bracket([W_TX_PAYLOAD, c]), ChipEnable(true), ChipEnable(false), OnAir(air)]
  }

  /** The wire events of one packet per character. */
  function Packets(chars: seq<bv8>, airs: seq<Air>): (r: seq<Event>)
    requires |chars| <= |airs|
    ensures |r| == 5 * |chars|
    decreases |chars|
  {
    if chars == [] then []
    else
      var k := |chars| - 1;
      Packets(chars[..k], airs) + CharPacket(chars[k], airs[k])
  }

  /** Character `k` goes out as the payload of packet `k`, in order, and every packet is one byte. */
  lemma {:induction false} PacketOrder(chars: seq<bv8>, airs: seq<Air>, k: nat)
    requires |chars| <= |airs| && k < |chars|
    ensures Packets(chars, airs)[5 * k + 1] == Bracket([W_TX_PAYLOAD, chars[k]])
    ensures Packets(chars, airs)[5 * k + 4] == OnAir(airs[k])
  {
    var n := |chars| - 1;
    if k < n {
      PacketOrder(chars[..n], airs, k);
    }
  }

  /** Sending a concatenation is sending its parts one after the other. */
  lemma {:induction false} SentAppend(s: State, a: seq<bv8>, b: seq<bv8>, airs: seq<Air>)
    requires Valid(s) && |a| + |b| <= |airs|
    ensures Sent(s, a + b, airs) == Sent(Sent(s, a, airs), b, airs[|a|..])
    decreases |b|
  {
    if b == [] {
      assert a + b == a;
    } else {
      var k := |b| - 1;
      var c := b[k];
      assert b == b[..k] + [c] && a + b == (a + b[..k]) + [c];
      SentAppend(s, a, b[..k], airs);
      SentSnoc(s, a + b[..k], c, airs);
      SentSnoc(Sent(s, a, airs), b[..k], c, airs[|a|..]);
    }
  }

  /**
   * Once MAX_RT is up nothing reaches the air: each character is only
   * queued, and the chip ends with the last one in its TX FIFO.
   */
  lemma {:induction false} LostBlocksTheRest(s: State, chars: seq<bv8>, airs: seq<Air>)
    requires Valid(s) && |chars| <= |airs| && Flags(s) & MAX_RT != 0
    ensures chars != [] ==> Sent(s, chars, airs) == Queued(s, [chars[|chars| - 1]])
    ensures Flags(Sent(s, chars, airs)) == Flags(s)
    decreases |chars|
  {
    if chars != [] {
      var k := |chars| - 1;
      LostBlocksTheRest(s, chars[..k], airs);
      assert Queued(Sent(s, chars[..k], airs), [chars[k]]) == Queued(s, [chars[k]]);
    }
  }

  /** One more character appends one packet to the chip's history. */
  lemma SentSnoc(s: State, chars: seq<bv8>, c: bv8, airs: seq<Air>)
    requires Valid(s) && |chars| < |airs|
    ensures Sent(s, chars + [c], airs) == Packet(Sent(s, chars, airs), c, airs[|chars|])
    ensures Packets(chars + [c], airs) == Packets(chars, airs) + CharPacket(c, airs[|chars|])
  {
    assert (chars + [c])[..|chars|] == chars;
  }

  /** SentSnoc for the first `n + 1` characters of `chars`. */
  lemma SentPrefix(s: State, chars: seq<bv8>, n: nat, airs: seq<Air>)
    requires Valid(s) && n < |chars| && n < |airs|
    ensures Sent(s, chars[..n + 1], airs) == Packet(Sent(s, chars[..n], airs), chars[n], airs[n])
    ensures Packets(chars[..n + 1], airs) == Packets(chars[..n], airs) + CharPacket(chars[n], airs[n])
  {
    assert chars[..n + 1] == chars[..n] + [chars[n]];
    SentSnoc(s, chars[..n], chars[n], airs);
  }

  /** The wire events of one more character: one more packet at the end. */
  lemma PacketsSnoc(chars: seq<bv8>, c: bv8, airs: seq<Air>)
    requires |chars| < |airs|
    ensures Packets(chars + [c], airs) == Packets(chars, airs) + CharPacket(c, airs[|chars|])
  {
    assert (chars + [c])[..|chars|] == chars;
  }

  /** The wire events of a concatenation are those of its parts one after the other. */
  lemma {:induction false} PacketsAppend(a: seq<bv8>, b: seq<bv8>, airs: seq<Air>)
    requires |a| + |b| <= |airs|
    ensures Packets(a + b, airs) == Packets(a, airs) + Packets(b, airs[|a|..])
    decreases |b|
  {
    if b == [] {
      assert a + b == a;
    } else {
      var k := |b| - 1;
      var c := b[k];
      assert b == b[..k] + [c] && a + b == (a + b[..k]) + [c];
      PacketsAppend(a, b[..k], airs);
      PacketsSnoc(a + b[..k], c, airs);
      PacketsSnoc(b[..k], c, airs[|a|..]);
      Associative(Packets(a, airs), Packets(b[..k], airs[|a|..]), CharPacket(c, airs[|a| + k]));
    }
  }

  /** Concatenation is associative. */
  lemma Associative<T>(a: seq<T>, b: seq<T>, c: seq<T>)
    ensures a + b + c == a + (b + c)
  {
  }

  /**
   * A character lost while the chip could send it and waits for its
   * acknowledgement (ENAA_P0 set, as every firmware here leaves it) leaves
   * MAX_RT up after the string so far.
   */
  lemma LostAt(s: State, head: seq<bv8>, c: bv8, airs: seq<Air>)
    requires Valid(s) && |head| < |airs| && airs[|head|] == Lost
    requires CanTransmit(Queued(Sent(s, head, airs), [c])) && AutoAckOn(Sent(s, head, airs))
    ensures Flags(Sent(s, head + [c], airs)) & MAX_RT != 0
  {
    SentSnoc(s, head, c, airs);
    LostRaisesMaxRt(Queued(Sent(s, head, airs), [c]));
  }

  /**
   * After a string that ended with MAX_RT up (a character lost while the
   * chip could send it, LostAt), the rest of the characters are only queued.
   */
  lemma LostThenRest(s: State, head: seq<bv8>, rest: seq<bv8>, airs: seq<Air>)
    requires Valid(s) && |head| + |rest| <= |airs| && rest != []
    requires Flags(Sent(s, head, airs)) & MAX_RT != 0
    ensures Sent(s, head + rest, airs) == Queued(Sent(s, head, airs), [rest[|rest| - 1]])
  {
    SentAppend(s, head, rest, airs);
    LostBlocksTheRest(Sent(s, head, airs), rest, airs[|head|..]);
  }

  /**
   * A loss on a chip that can send raises MAX_RT exactly when the chip waits
   * for an acknowledgement: the payload asked for one and ENAA_P0 is set.
   */
  lemma LostRaisesMaxRt(s: State)
    requires Valid(s) && CanTransmit(s)
    ensures Flags(Transmit(s, Lost)) & MAX_RT != 0 <==> WaitsForAck(s)
  {
  }

  /**
   * nRF_Put_String: one transmit_data per character, in order, up to the
   * NUL; packet `i` meets `airs[i]` on the air during the delay after its
   * CE pulse.
   */
  method PutString(bus: Bus, s: seq<bv8>, airs: seq<Air>) returns (n: nat)
    requires bus.Valid() && !bus.selected && 0 in s && Strlen(s) <= |airs|
    modifies bus
    ensures bus.Valid() && !bus.selected
    ensures n == Strlen(s)
    ensures bus.ce == (old(bus.ce) && n == 0)
    ensures bus.chip == Sent(old(bus.chip), s[..n], airs)
    ensures bus.trace == old(bus.trace) + Packets(s[..n], airs)
  {
    ghost var s0 := bus.chip;
    ghost var t0 := bus.trace;
    ghost var len := Strlen(s);
    assert Nrf24Chip.Valid(s0) && s[len] == 0 && s[..0] == [];
    n := 0;
    while s[n] != 0
      invariant n <= len
      invariant bus.Valid() && !bus.selected
      invariant bus.ce == (old(bus.ce) && n == 0)
      invariant bus.chip == Sent(s0, s[..n], airs)
      invariant bus.trace == t0 + Packets(s[..n], airs)
      decreases len - n
    {
      assert n < len;
      PutChar(bus, s, n, airs, s0, t0);
      n := n + 1;
    }
  }

  /** Character `n` of PutString, after the characters before it. */
  method PutChar(bus: Bus, s: seq<bv8>, n: nat, airs: seq<Air>, ghost s0: State, ghost t0: seq<Event>)
    requires bus.Valid() && !bus.selected && Nrf24Chip.Valid(s0) && n < |s| && n < |airs|
    requires bus.chip == Sent(s0, s[..n], airs) && bus.trace == t0 + Packets(s[..n], airs)
    modifies bus
    ensures bus.Valid() && !bus.selected && !bus.ce
    ensures bus.chip == Sent(s0, s[..n + 1], airs) && bus.trace == t0 + Packets(s[..n + 1], airs)
  {
    SentPrefix(s0, s, n, airs);
    SendChar(bus, s[n], airs[n]);
    Associative(t0, Packets(s[..n], airs), CharPacket(s[n], airs[n]));
  }

  /** One character of PutString: transmit_data with a CE pulse, then its air event. */
  method SendChar(bus: Bus, c: bv8, air: Air)
    requires bus.Valid() && !bus.selected
    modifies bus
    ensures bus.Valid() && !bus.selected && !bus.ce
    ensures bus.chip == Packet(old(bus.chip), c, air)
    ensures bus.trace == old(bus.trace) + CharPacket(c, air)
  {
    TxData(bus, [c], true);
    bus.Air(air);
    assert [W_TX_PAYLOAD] + [c] == [W_TX_PAYLOAD, c];
  }
}
