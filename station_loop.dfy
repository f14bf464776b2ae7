/**
 * What the two mbed base stations built on the `Nrf24l01p` class share: the
 * link set-up (a dynamic TX pipe with ACK payloads, all IRQs masked, PTX
 * mode), one poll of a node (a one-byte request sent with writeTXData, then
 * the IRQ flags read and reset), the drain of the RX FIFO into two receive
 * buffers that alternate for every payload forwarded to the serial port,
 * pointing TX_ADDR and RX_ADDR_P0 at a node, and the button that toggles
 * the request mode.
 */
module StationLoop {
  import opened Nrf24Chip
  import opened Spi
  import opened NodeDriver
  import opened Nrf24l01pFields
  import opened Nrf24l01pDriver

  /** PAYLOAD_MAX_LEN: the size of each receive buffer. */
  const PAYLOAD_MAX_LEN: nat := 32
  /** NRF_ADDR_LEN. */
  const NRF_ADDR_LEN: nat := 5

  // ------------------------------------------------------------- the button

  /** Button_Interrupt: mode 0 becomes 1, any other mode becomes 0. */
  function Toggled(mode: nat): (m: nat)
    ensures m <= 1
    ensures mode <= 1 ==> m != mode
  {
    if mode == 0 then 1 else 0
  }

  // ------------------------------------------------- the chip after set-up

  /** Every register but STATUS and OBSERVE_TX holds what it held in `s`. */
  predicate SameSetup(s: State, t: State)
    requires Valid(s) && Valid(t)
  {
    forall r :: 0 <= r < REGISTER_COUNT && r != STATUS && r != OBSERVE_TX ==> t.regs[r] == s.regs[r]
  }

  /**
   * The chip as both stations keep it once set up: powered up in PTX mode,
   * so that every writeTXData can finish, pipe 0 with dynamic payload
   * length, and no static payload width above the 32-byte receive buffers,
   * which readRXData needs.
   */
  predicate Ready(s: State)
  {
    && Valid(s)
    && s.regs[CONFIG] & PWR_UP != 0 && s.regs[CONFIG] & PRIM_RX == 0
    && s.regs[DYNPD] & PipeMask(0) != 0
    && s.regs[EN_AA] & 0x01 != 0 && AckPayloadsOn(s)
    && Fits(s, PAYLOAD_MAX_LEN)
  }

  /** Readiness only depends on the registers a poll leaves alone. */
  lemma ReadyKept(s: State, t: State)
    requires Ready(s) && Valid(t) && SameSetup(s, t)
    ensures Ready(t)
  {
    assert t.regs[CONFIG] == s.regs[CONFIG] && t.regs[DYNPD] == s.regs[DYNPD];
    assert t.regs[EN_AA] == s.regs[EN_AA] && t.regs[FEATURE] == s.regs[FEATURE];
    forall r | RX_PW_P0 <= r < RX_PW_P0 + PIPES
      ensures t.regs[r] as nat <= PAYLOAD_MAX_LEN
    {
      assert t.regs[r] == s.regs[r];
    }
  }

  /**
   * Every payload waiting in the RX FIFO came back as an ACK payload, on
   * pipe 0; in PTX mode nothing else can arrive.
   */
  predicate AcksOnly(s: State)
  {
    forall i :: 0 <= i < |s.rxFifo| ==> s.rxFifo[i].pipe == 0
  }

  // ---------------------------------------------------------------- polling

  /** The chip once writeTXData(&request, 1) has queued the request: flags reset, the TX FIFO holding it alone. */
  function Queued(s: State, request: bv8): (t: State)
    requires Valid(s)
    ensures Valid(t)
  {
    ClearFlags(s).(txFifo := [TxPayload([request], WithAck)], reuse := false)
  }

  /** Queueing a one-byte request is the driver's W_TX_PAYLOAD of it. */
  lemma QueuedIsLoaded(s: State, request: bv8)
    requires Valid(s)
    ensures Loaded(s, [request], true) == Queued(s, request)
  {
    LoadedQueue(s, [request], true);
  }

  /** The transmission of a one-byte request: writeTXData(&request, 1) and what the air did with it. */
  function Sent(s: State, request: bv8, air: Air): (t: State)
    requires Valid(s)
    ensures Valid(t)
  {
    Transmit(Queued(s, request), air)
  }

  /** The node acknowledged the request on the air within the retry budget. */
  predicate Answered(s: State, air: Air)
    requires Valid(s)
  {
    air.Delivered? && air.retries <= RetryBudget(s)
  }

  /** The acknowledgement carried a payload and the RX FIFO had room for it. */
  predicate AnswerReceived(s: State, air: Air)
    requires Valid(s)
  {
    Answered(s, air) && air.ackPayload != [] && |s.rxFifo| < FIFO_DEPTH
  }

  /** Pipe 0 listens on the address the station sends to, as setTxAddress with setRxAddress(0, ...) leave it. */
  predicate Paired(s: State)
  {
    s.rxAddr0 == s.txAddr
  }

  /**
   * On a ready, paired chip the station sees every acknowledgement and every
   * ACK payload the node sends: what the chip decides equals what the air did.
   */
  lemma QueuedAnswer(s: State, request: bv8, air: Air)
    requires Ready(s) && Paired(s)
    ensures Acked(Queued(s, request), air) <==> Answered(s, air)
    ensures AckReceived(Queued(s, request), air) <==> AnswerReceived(s, air)
  {
    var q := Queued(s, request);
    assert q.regs[EN_AA] == s.regs[EN_AA] && q.regs[FEATURE] == s.regs[FEATURE];
    assert RetryBudget(q) == RetryBudget(s);
  }

  /** A poll from a chip whose pipe 0 listens elsewhere is never acknowledged: MAX_RT, not TX_DS. */
  lemma UnpairedNeverAnswered(s: State, request: bv8, air: Air)
    requires Ready(s) && !Paired(s)
    ensures Flags(Sent(s, request, air)) & TX_DS == 0
    ensures Flags(Sent(s, request, air)) & MAX_RT != 0
  {
    var q := Queued(s, request);
    assert q.rxAddr0 == s.rxAddr0 && q.txAddr == s.txAddr;
    assert CanTransmit(q);
    UnmatchedNeverAcked(q, air);
  }

  /**
   * What a poll of a ready chip paired with the node leaves: exactly one of TX_DS and MAX_RT,
   * RX_DR exactly when an ACK payload came back (which is then the last
   * payload in the RX FIFO, on pipe 0), and every setting and address as it
   * was.
   */
  lemma PollOutcome(s: State, request: bv8, air: Air)
    requires Ready(s) && Paired(s)
    ensures var t := Sent(s, request, air);
      && (Flags(t) & TX_DS != 0 <==> Answered(s, air))
      && (Flags(t) & MAX_RT != 0 <==> !Answered(s, air))
      && (Flags(t) & RX_DR != 0 <==> AnswerReceived(s, air))
      && t.rxFifo == (if AnswerReceived(s, air) then s.rxFifo + [RxPayload(0, Clipped(air.ackPayload))] else s.rxFifo)
      && SameSetup(s, t)
      && t.txAddr == s.txAddr && t.rxAddr0 == s.rxAddr0
  {
    var loaded := Queued(s, request);
    assert CanTransmit(loaded);
    assert RetryBudget(loaded) == RetryBudget(s);
    QueuedAnswer(s, request, air);
    TransmitRaisesOneFlag(loaded, air);
    var t := Transmit(loaded, air);
    assert loaded.regs[STATUS] & RX_DR == 0;
    assert SameSetup(s, t) by {
      forall r | 0 <= r < REGISTER_COUNT && r != STATUS && r != OBSERVE_TX
        ensures t.regs[r] == s.regs[r]
      {
        assert loaded.regs[r] == s.regs[r];
      }
    }
  }

  /** The flag reset after a poll touches STATUS only. */
  lemma ClearKeepsSetup(s: State)
    requires Valid(s)
    ensures SameSetup(s, ClearFlags(s))
  {
  }

  /** The chip once a request has gone out and the IRQ flags are reset. */
  function Heard(s: State, request: bv8, air: Air): (t: State)
    requires Valid(s)
    ensures Valid(t) && Flags(t) == 0
  {
    ClearFlags(Sent(s, request, air))
  }

  /**
   * What a poll leaves, as the rest of a round needs it: ready as before
   * with the same settings and addresses, and the ACK payload, if any came
   * back, appended to the RX FIFO.
   */
  predicate HeardFrom(s: State, t: State, air: Air)
    requires Valid(s) && Valid(t)
  {
    && Ready(t) && SameSetup(s, t)
    && t.txAddr == s.txAddr && t.rxAddr0 == s.rxAddr0
    && t.rxFifo == (if AnswerReceived(s, air) then s.rxFifo + [RxPayload(0, Clipped(air.ackPayload))] else s.rxFifo)
  }

  /** Every poll of a ready chip leaves it so. */
  lemma HeardFacts(s: State, request: bv8, air: Air)
    requires Ready(s) && Paired(s)
    ensures HeardFrom(s, Heard(s, request, air), air)
  {
    var t1 := Sent(s, request, air);
    PollOutcome(s, request, air);
    var t := ClearFlags(t1);
    assert SameSetup(s, t) by {
      forall r | 0 <= r < REGISTER_COUNT && r != STATUS && r != OBSERVE_TX
        ensures t.regs[r] == s.regs[r]
      {
        assert t.regs[r] == t1.regs[r];
      }
    }
    ReadyKept(s, t);
  }

  /**
   * One request of a main loop: writeTXData(&request, 1), whose wait ends at
   * its first poll because the chip is ready (`finished`), then
   * getIRQStatus and resetIRQFlags. Exactly one of `txDone` and `maxTry`
   * holds, and `rx` only with an ACK payload.
   */
  method Poll(nrf: Nrf24l01p, request: bv8, air: Air) returns (finished: bool, rx: bool, txDone: bool, maxTry: bool)
    requires nrf.Idle() && Ready(nrf.bus.chip) && Paired(nrf.bus.chip)
    modifies nrf.bus
    ensures nrf.Idle() && !nrf.bus.ce
    ensures nrf.bus.chip == Heard(old(nrf.bus.chip), request, air)
    ensures finished
    ensures txDone <==> Answered(old(nrf.bus.chip), air)
    ensures maxTry <==> !txDone
    ensures rx <==> AnswerReceived(old(nrf.bus.chip), air)
  {
    ghost var s := nrf.bus.chip;
    WriteTXDataCanFinish(s, [request], true);
    assert [request][..1] == [request];
    finished := nrf.WriteTXData([request], 1, true, air, 1);
    QueuedIsLoaded(s, request);
    PollOutcome(s, request, air);
    var any;
    any, rx, txDone, maxTry := nrf.GetIRQStatus();
    nrf.ResetIRQFlags();
  }

  // --------------------------------------------------------------- draining

  /**
   * What the drain loop hands to the serial port: for every payload in the
   * RX FIFO, in order, the bytes readRXData reports, when it reports any.
   */
  function Forwarded(s: State): seq<seq<bv8>>
    requires Valid(s)
    decreases |s.rxFifo|
  {
    if s.rxFifo == [] then []
    else
      var n := RxLength(s) as nat;
      (if n > 0 then [RxHead(s, n)] else []) + Forwarded(PopRx(s))
  }

  /** The rxLen the drain loop ends with: the length of the last payload read, `prior` when none is. */
  function LastLength(s: State, prior: bv8): bv8
    requires Valid(s)
    decreases |s.rxFifo|
  {
    if s.rxFifo == [] then prior else LastLength(PopRx(s), RxLength(s))
  }

  /**
   * With only ACK payloads waiting and dynamic payload length on pipe 0,
   * every payload is forwarded whole and in order.
   */
  lemma {:induction false} ForwardedWhole(s: State)
    requires Ready(s) && AcksOnly(s)
    ensures |Forwarded(s)| == |s.rxFifo|
    ensures forall i :: 0 <= i < |s.rxFifo| ==> Forwarded(s)[i] == s.rxFifo[i].data
    decreases |s.rxFifo|
  {
    if s.rxFifo != [] {
      RxLengthMeaning(s);
      var n := RxLength(s) as nat;
      assert n == |s.rxFifo[0].data| > 0;
      var t := PopRx(s);
      assert Ready(t) && AcksOnly(t) by {
        assert SameSetup(s, t);
        ReadyKept(s, t);
      }
      ForwardedWhole(t);
    }
  }

  /** With only ACK payloads waiting, a drain that reads anything ends with rxLen the last payload's length, never 0. */
  lemma {:induction false} LastLengthOfAcks(s: State, prior: bv8)
    requires Ready(s) && AcksOnly(s)
    ensures s.rxFifo != [] ==> LastLength(s, prior) as nat == |s.rxFifo[|s.rxFifo| - 1].data| > 0
    ensures s.rxFifo == [] ==> LastLength(s, prior) == prior
    decreases |s.rxFifo|
  {
    if s.rxFifo != [] {
      var t := PopRx(s);
      assert Ready(t) && AcksOnly(t) by {
        assert SameSetup(s, t);
        ReadyKept(s, t);
      }
      RxLengthMeaning(s);
      LastLengthOfAcks(t, RxLength(s));
    }
  }

  /** One readRXData of the drain: what is forwarded so far plus what is left to forward stays the same. */
  lemma DrainStep(s: State, len: bv8, data: seq<bv8>, forwarded: seq<seq<bv8>>)
    requires Valid(s) && s.rxFifo != [] && len == RxLength(s) && data == RxHead(s, len as nat)
    ensures (if len > 0 then forwarded + [data] else forwarded) + Forwarded(PopRx(s)) == forwarded + Forwarded(s)
    ensures LastLength(PopRx(s), len) == LastLength(s, 0)
  {
  }

  /** The receive buffer other than `current`. */
  function Other(current: array<bv8>, buffer1: array<bv8>, buffer2: array<bv8>): array<bv8>
  {
    if current == buffer1 then buffer2 else buffer1
  }

  /** The buffer in use after `k` forwarded payloads, starting from `current`. */
  function After(current: array<bv8>, buffer1: array<bv8>, buffer2: array<bv8>, k: nat): array<bv8>
  {
    if k % 2 == 0 then current else Other(current, buffer1, buffer2)
  }

  /** Each forwarded payload switches to the other buffer. */
  lemma AfterNext(current: array<bv8>, buffer1: array<bv8>, buffer2: array<bv8>, k: nat)
    requires buffer1 != buffer2 && (current == buffer1 || current == buffer2)
    ensures After(current, buffer1, buffer2, k + 1) == Other(After(current, buffer1, buffer2, k), buffer1, buffer2)
  {
  }

  /**
   * Part-way through a drain that started from `s0`: only the RX FIFO has
   * moved, `forwarded` followed by what is still queued is everything the
   * whole drain forwards, and `rxLen` leads to the same last length.
   */
  predicate Draining(s0: State, s: State, forwarded: seq<seq<bv8>>, rxLen: bv8)
  {
    && Ready(s0) && Ready(s)
    && s == s0.(rxFifo := s.rxFifo)
    && forwarded + Forwarded(s) == Forwarded(s0)
    && LastLength(s, rxLen) == LastLength(s0, 0)
  }

  /** One readRXData keeps a drain in progress. */
  lemma DrainingStep(s0: State, s: State, forwarded: seq<seq<bv8>>, rxLen: bv8, len: bv8, data: seq<bv8>)
    requires Draining(s0, s, forwarded, rxLen) && s.rxFifo != []
    requires len == RxLength(s) && data == RxHead(s, len as nat)
    ensures Draining(s0, PopRx(s), if len > 0 then forwarded + [data] else forwarded, len)
  {
    DrainStep(s, len, data, forwarded);
    ReadyKept(s, PopRx(s));
  }

  /**
   * `while (nrf.dataAvailable())`: every payload read into the current
   * buffer; each non-empty one is forwarded and switches to the other
   * buffer, so that the serial port can still send the previous one.
   */
  method Drain(nrf: Nrf24l01p, buffer1: array<bv8>, buffer2: array<bv8>, current: array<bv8>)
    returns (next: array<bv8>, forwarded: seq<seq<bv8>>, rxLen: bv8)
    requires nrf.Idle() && Ready(nrf.bus.chip)
    requires buffer1.Length == PAYLOAD_MAX_LEN && buffer2.Length == PAYLOAD_MAX_LEN && buffer1 != buffer2
    requires current == buffer1 || current == buffer2
    modifies nrf.bus, buffer1, buffer2
    ensures nrf.Idle() && nrf.bus.ce == old(nrf.bus.ce)
    ensures nrf.bus.chip == old(nrf.bus.chip).(rxFifo := [])
    ensures forwarded == Forwarded(old(nrf.bus.chip))
    ensures rxLen == LastLength(old(nrf.bus.chip), 0)
    ensures next == After(current, buffer1, buffer2, |forwarded|)
  {
    ghost var s0 := nrf.bus.chip;
    next, forwarded, rxLen := current, [], 0;
    var available := nrf.DataAvailable();
    while available
      invariant nrf.Idle() && nrf.bus.ce == old(nrf.bus.ce)
      invariant Draining(s0, nrf.bus.chip, forwarded, rxLen)
      invariant available <==> nrf.bus.chip.rxFifo != []
      invariant next == After(current, buffer1, buffer2, |forwarded|)
      decreases |nrf.bus.chip.rxFifo|
    {
      next, forwarded, rxLen := ReadOne(nrf, buffer1, buffer2, current, next, s0, forwarded, rxLen);
      available := nrf.DataAvailable();
    }
  }

  /** One pass of the drain loop: readRXData into the in-use buffer, and forward it when it is not empty. */
  method ReadOne(nrf: Nrf24l01p, buffer1: array<bv8>, buffer2: array<bv8>, current: array<bv8>, inUse: array<bv8>,
                 ghost s0: State, forwarded: seq<seq<bv8>>, rxLen: bv8)
    returns (next: array<bv8>, forwarded': seq<seq<bv8>>, rxLen': bv8)
    requires nrf.Idle() && Draining(s0, nrf.bus.chip, forwarded, rxLen) && nrf.bus.chip.rxFifo != []
    requires buffer1.Length == PAYLOAD_MAX_LEN && buffer2.Length == PAYLOAD_MAX_LEN && buffer1 != buffer2
    requires current == buffer1 || current == buffer2
    requires inUse == After(current, buffer1, buffer2, |forwarded|)
    modifies nrf.bus, buffer1, buffer2
    ensures nrf.Idle() && nrf.bus.ce == old(nrf.bus.ce)
    ensures nrf.bus.chip == PopRx(old(nrf.bus.chip))
    ensures Draining(s0, nrf.bus.chip, forwarded', rxLen')
    ensures next == After(current, buffer1, buffer2, |forwarded'|)
  {
    ghost var s := nrf.bus.chip;
    var pipe;
    rxLen', pipe := nrf.ReadRXData(inUse);
    DrainingStep(s0, s, forwarded, rxLen, rxLen', inUse[..rxLen']);
    next, forwarded' := inUse, forwarded;
    if rxLen' > 0 {
      AfterNext(current, buffer1, buffer2, |forwarded|);
      forwarded' := forwarded + [inUse[..rxLen']];
      next := Other(inUse, buffer1, buffer2);
    }
  }

  /** A drain whose payloads are read and dropped, as during discovery. */
  method Discard(nrf: Nrf24l01p, buffer: array<bv8>)
    requires nrf.Idle() && Ready(nrf.bus.chip) && buffer.Length == PAYLOAD_MAX_LEN
    modifies nrf.bus, buffer
    ensures nrf.Idle() && nrf.bus.ce == old(nrf.bus.ce)
    ensures nrf.bus.chip == old(nrf.bus.chip).(rxFifo := [])
  {
    ghost var s0 := nrf.bus.chip;
    var available := nrf.DataAvailable();
    while available
      invariant nrf.Idle() && nrf.bus.ce == old(nrf.bus.ce)
      invariant nrf.bus.chip == s0.(rxFifo := nrf.bus.chip.rxFifo)
      invariant Ready(nrf.bus.chip)
      invariant available <==> nrf.bus.chip.rxFifo != []
      decreases |nrf.bus.chip.rxFifo|
    {
      ghost var s := nrf.bus.chip;
      var _, _ := nrf.ReadRXData(buffer);
      ReadyKept(s, nrf.bus.chip);
      available := nrf.DataAvailable();
    }
  }

  // ------------------------------------------------------------- addresses

  /** setTXAddress and setRXAddress(0, …) with the same five bytes. */
  function Aimed(s: State, address: seq<bv8>): (t: State)
    requires Valid(s) && |address| >= NRF_ADDR_LEN
    ensures Valid(t)
  {
    RxAddressed(WriteRegister(s, TX_ADDR, Reversed(address[..NRF_ADDR_LEN])), 0, address, NRF_ADDR_LEN)
  }

  /** After aiming, the chip sends to and hears acknowledgements from the address, and nothing else changed. */
  lemma AimedAt(s: State, address: seq<bv8>)
    requires Valid(s) && |address| >= NRF_ADDR_LEN
    ensures var t := Aimed(s, address);
      && t.txAddr == AirAddress(address) && t.rxAddr0 == AirAddress(address)
      && t == s.(txAddr := t.txAddr, rxAddr0 := t.rxAddr0)
  {
    var s1 := WriteRegister(s, TX_ADDR, AirAddress(address));
    WideWrite(s, TX_ADDR, AirAddress(address));
    WideWrite(s1, RX_ADDR_P0, AirAddress(address));
  }

  /** Point TX_ADDR and RX_ADDR_P0 at `address`. */
  method Aim(nrf: Nrf24l01p, address: seq<bv8>)
    requires nrf.Idle() && |address| >= NRF_ADDR_LEN
    modifies nrf.bus
    ensures nrf.Idle() && nrf.bus.ce == old(nrf.bus.ce)
    ensures nrf.bus.chip == Aimed(old(nrf.bus.chip), address)
  {
    nrf.SetTXAddress(address, NRF_ADDR_LEN);
    nrf.SetRXAddress(0, address, NRF_ADDR_LEN);
  }

  // ---------------------------------------------------------------- set-up

  /**
   * The part of set-up both stations share: openDynamicTXPipe(address,
   * true, false), maskIRQ(true, true, true), setModeTX() and flushTX().
   */
  function LinkOpened(s: State, address: seq<bv8>): (t: State)
    requires Valid(s) && |address| >= NRF_ADDR_LEN
    ensures Valid(t)
  {
    LinkTail(DynamicTxPipeOpened(s, address, true, false))
  }

  /** maskIRQ(true, true, true), setModeTX() and flushTX(). */
  function LinkTail(s: State): (t: State)
    requires Valid(s)
    ensures Valid(t)
  {
    var s1 := Poked(s, CONFIG, MaskBits(s.regs[CONFIG], true, true, true));
    var s2 := ClearFlags(Poked(s1, CONFIG, s1.regs[CONFIG] & !PRIM_RX));
    s2.(txFifo := [], reuse := false)
  }

  /** The tail of the set-up rewrites CONFIG, clears the flags and the TX FIFO, and touches nothing else. */
  lemma LinkTailSettings(s: State)
    requires Valid(s)
    ensures var t := LinkTail(s);
      && t.regs[CONFIG] == MaskBits(s.regs[CONFIG], true, true, true) & !PRIM_RX
      && (forall r :: 0 <= r < REGISTER_COUNT && r != CONFIG && r != STATUS ==> t.regs[r] == s.regs[r])
      && Flags(t) == 0 && t.txFifo == [] && t.rxFifo == s.rxFifo
      && t.txAddr == s.txAddr && t.rxAddr0 == s.rxAddr0
  {
  }

  /**
   * After the shared set-up on a powered-up chip whose static widths fit
   * the buffers: ready, pointed at the address, ACK payloads and dynamic
   * payload length on, every IRQ masked, no flag raised, TX FIFO empty.
   */
  lemma LinkSettings(s: State, address: seq<bv8>)
    requires Valid(s) && |address| >= NRF_ADDR_LEN
    requires s.regs[CONFIG] & PWR_UP != 0 && Fits(s, PAYLOAD_MAX_LEN)
    ensures var t := LinkOpened(s, address);
      && Ready(t)
      && t.txAddr == AirAddress(address) && t.rxAddr0 == AirAddress(address)
      && t.regs[EN_AA] & PipeMask(0) != 0 && t.regs[EN_RXADDR] & PipeMask(0) != 0
      && t.regs[FEATURE] & (EN_DPL | EN_ACK_PAY) == EN_DPL | EN_ACK_PAY
      && t.regs[CONFIG] & MASK_BITS == MASK_BITS
      && Flags(t) == 0 && t.txFifo == [] && t.rxFifo == s.rxFifo
  {
    PipeZeroOpened(s, address);
    var s1 := DynamicTxPipeOpened(s, address, true, false);
    LinkTailSettings(s1);
    var s3 := LinkTail(s1);
    assert Fits(s3, PAYLOAD_MAX_LEN) by {
      forall r | RX_PW_P0 <= r < RX_PW_P0 + PIPES
        ensures s3.regs[r] as nat <= PAYLOAD_MAX_LEN
      {
        assert s3.regs[r] == s1.regs[r];
      }
    }
  }

  /** openDynamicTXPipe(address, true, false) on its own. */
  lemma PipeZeroOpened(s: State, address: seq<bv8>)
    requires Valid(s) && |address| >= NRF_ADDR_LEN && Fits(s, PAYLOAD_MAX_LEN)
    ensures var t := DynamicTxPipeOpened(s, address, true, false);
      && t.txAddr == AirAddress(address) && t.rxAddr0 == AirAddress(address)
      && t.regs[EN_AA] & PipeMask(0) != 0 && t.regs[EN_RXADDR] & PipeMask(0) != 0
      && t.regs[DYNPD] & PipeMask(0) != 0
      && t.regs[FEATURE] & (EN_DPL | EN_ACK_PAY) == EN_DPL | EN_ACK_PAY
      && t.regs[CONFIG] == s.regs[CONFIG]
      && Fits(t, PAYLOAD_MAX_LEN)
      && t.rxFifo == s.rxFifo && t.txFifo == s.txFifo
  {
    var s0 := WriteRegister(s, TX_ADDR, AirAddress(address));
    WideWrite(s, TX_ADDR, AirAddress(address));
    DynamicRxPipeSettings(s0, 0, address, true, false);
    var t := DynamicTxPipeOpened(s, address, true, false);
    forall r | RX_PW_P0 < r < RX_PW_P0 + PIPES
      ensures t.regs[r] as nat <= PAYLOAD_MAX_LEN
    {
      OpenKeepsWidth(s0, address, r);
    }
  }

  /** Opening pipe 0 leaves the static widths of pipes 1 to 5 alone. */
  lemma OpenKeepsWidth(s: State, address: seq<bv8>, r: nat)
    requires Valid(s) && |address| >= NRF_ADDR_LEN && RX_PW_P0 < r < RX_PW_P0 + PIPES
    ensures DynamicRxPipeOpened(s, 0, address, true, false).regs[r] == s.regs[r]
  {
    RxAddressSettings(s, 0, address);
  }

  /** init rewrites CONFIG, RF_CH, RF_SETUP, SETUP_AW and SETUP_RETR only: the static payload widths stay. */
  lemma InitKeepsWidths(s: State, channel: bv8, rate: bv8, width: bv8, crc: bv8)
    requires Valid(s)
    ensures forall r :: RX_PW_P0 <= r < RX_PW_P0 + PIPES ==> Initialized(s, channel, rate, width, crc).regs[r] == s.regs[r]
  {
  }

  /** The radio settings: retries, channel, rate and power, address width. */
  predicate RadioKept(s: State, t: State)
    requires Valid(s) && Valid(t)
  {
    && t.regs[SETUP_RETR] == s.regs[SETUP_RETR] && t.regs[RF_CH] == s.regs[RF_CH]
    && t.regs[RF_SETUP] == s.regs[RF_SETUP] && t.regs[SETUP_AW] == s.regs[SETUP_AW]
  }

  /** Opening the link leaves the radio settings made before it alone. */
  lemma LinkKeepsRadio(s: State, address: seq<bv8>)
    requires Valid(s) && |address| >= NRF_ADDR_LEN
    ensures RadioKept(s, LinkOpened(s, address))
  {
    var s0 := WriteRegister(s, TX_ADDR, AirAddress(address));
    WideWrite(s, TX_ADDR, AirAddress(address));
    OpeningKeepsRadio(s0, address);
    TailKeepsRadio(DynamicTxPipeOpened(s, address, true, false));
  }

  /** So does the tail of the set-up. */
  lemma TailKeepsRadio(s: State)
    requires Valid(s)
    ensures RadioKept(s, LinkTail(s))
  {
    LinkTailSettings(s);
  }

  /** openDynamicRXPipe(0, …) touches the pipe registers and FEATURE only. */
  lemma OpeningKeepsRadio(s: State, address: seq<bv8>)
    requires Valid(s) && |address| >= NRF_ADDR_LEN
    ensures RadioKept(s, DynamicRxPipeOpened(s, 0, address, true, false))
  {
    var s1 := RxAddressed(s, 0, address, ADDRESS_WIDTH);
    var s2 := PipeBitSet(s1, EN_RXADDR, 0, true);
    var s3 := PayloadLengthSet(s2, 0, MAX_PAYLOAD as bv8);
    assert RadioKept(s, s3);
    var s4 := DynamicPipe(s3, 0);
    assert RadioKept(s3, s4);
  }

  /** The shared set-up, call by call. */
  method OpenLink(nrf: Nrf24l01p, address: seq<bv8>)
    requires nrf.Idle() && |address| >= NRF_ADDR_LEN
    modifies nrf.bus
    ensures nrf.Idle() && !nrf.bus.ce
    ensures nrf.bus.chip == LinkOpened(old(nrf.bus.chip), address)
  {
    nrf.OpenDynamicTXPipe(address, true, false);
    nrf.MaskIRQ(true, true, true);
    nrf.SetModeTX();
    nrf.FlushTX();
  }
}
