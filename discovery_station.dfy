/**
 * The mbed base station that finds its nodes instead of polling a fixed
 * list (BaseStation/main.cpp). Every node listens on BA 5E DA 7A n for its
 * number n. At start-up the station probes n = 0 .. 15 with five retries
 * each and takes one more than the last number that acknowledged as its
 * node count. The main loop then polls the nodes in turn with one retry,
 * forwarding ACK payloads to the serial port; whenever the cursor wraps it
 * broadcasts the mode and the node count on BA 5E CA 57 3D, and an
 * acknowledgement carrying a payload adds one node to the count.
 */
module DiscoveryStation {
  import opened Nrf24Chip
  import opened Spi
  import opened NodeDriver
  import opened Nrf24l01pFields
  import opened Nrf24l01pDriver
  import opened StationLoop

  /** MAX_NUM_NODES: how many node numbers discovery probes. */
  const MAX_NUM_NODES: nat := 16

  /** BS_payload_TX: the request for mode m is the byte at offset m; discovery sends the byte at offset 2. */
  const BS_PAYLOAD_TX: seq<bv8> := [0x00, 0x01, 0x02, 0x00, 0x00, 0x00, 0x00, 0x00, 0x00, 0x00]
  const PROBE_OFFSET: nat := 2

  /** nrf_data_address as initialised; byte 4 is overwritten with a node number. */
  const DATA_ADDRESS: seq<bv8> := [0xBA, 0x5E, 0xDA, 0x7A, 0xFF]
  /** nrf_broadcast_address. */
  const BROADCAST_ADDRESS: seq<bv8> := [0xBA, 0x5E, 0xCA, 0x57, 0x3D]

  /** The channel main passes to init. */
  const CHANNEL: bv8 := 0x69
  /** setRetries(500, 5) while discovering, setRetries(500, 1) from then on. */
  const RETRY_DELAY_US: bv16 := 500
  const DISCOVERY_RETRIES: bv8 := 5
  const POLL_RETRIES: bv8 := 1
  /** The session id main hands to do_broadcast. */
  const SESSION_ID: bv8 := 1

  /** `writeTXData(BS_payload_TX + mode, 1)`: the one byte sent in a mode. */
  function Request(mode: bv8): (b: bv8)
    requires mode as nat < |BS_PAYLOAD_TX|
  {
    BS_PAYLOAD_TX[mode]
  }

  /** The poll requests are the mode itself, and the discovery probe is a byte no mode uses. */
  lemma RequestIsMode(mode: bv8)
    requires mode <= 1
    ensures Request(mode) == mode
    ensures BS_PAYLOAD_TX[PROBE_OFFSET] != Request(mode)
  {
  }

  // ------------------------------------------------------------- addresses

  /** nrf_data_address with byte 4 set to `node`. */
  function DataAddress(node: bv8): (a: seq<bv8>)
    ensures |a| == NRF_ADDR_LEN
  {
    DATA_ADDRESS[4 := node]
  }

  /** Every node number names its own air address, and none of them is the broadcast address. */
  lemma AddressesDistinct(i: bv8, j: bv8)
    ensures AirAddress(DataAddress(i)) == AirAddress(DataAddress(j)) <==> i == j
    ensures AirAddress(DataAddress(i)) != AirAddress(BROADCAST_ADDRESS)
  {
    if AirAddress(DataAddress(i)) == AirAddress(DataAddress(j)) {
      assert AirAddress(DataAddress(i))[0] == AirAddress(DataAddress(j))[0];
    }
    assert AirAddress(DataAddress(i))[2] != AirAddress(BROADCAST_ADDRESS)[2];
  }

  /** Writing a node number into byte 4 of a data address gives that node's address. */
  lemma Renumbered(a: seq<bv8>, old4: bv8, node: bv8)
    requires a == DataAddress(old4)
    ensures a[4 := node] == DataAddress(node)
  {
  }

  // ---------------------------------------------------------------- cursor

  /** `nRF_Node++` on the uint8 cursor reaches numNodes or beyond: back to node 0, and a broadcast. */
  predicate Wraps(node: bv8, numNodes: bv8)
  {
    node + 1 >= numNodes
  }

  /** `nRF_Node++`, then back to 0 when it reached numNodes. */
  function NextNode(node: bv8, numNodes: bv8): (n: bv8)
    ensures n == 0 || n < numNodes
    ensures n != 0 ==> n == node + 1
  {
    if Wraps(node, numNodes) then 0 else node + 1
  }

  /**
   * While the cursor stays within the nodes, the 8-bit increment never
   * wraps on its own: the broadcast comes exactly after the last node.
   */
  lemma WrapsAfterLast(node: bv8, numNodes: bv8)
    requires node == 0 || node < numNodes
    ensures Wraps(node, numNodes) <==> node as nat + 1 >= numNodes as nat
  {
  }

  /** The cursor after `k` moves from node 0 with the node count fixed. */
  function Cursor(numNodes: bv8, k: nat): (n: bv8)
    ensures n == 0 || n < numNodes
  {
    if k == 0 then 0 else NextNode(Cursor(numNodes, k - 1), numNodes)
  }

  /** Within the first round the cursor counts up: after k < numNodes moves it is at node k. */
  lemma {:induction false} CursorCounts(numNodes: bv8, k: nat)
    requires k < numNodes as nat
    ensures Cursor(numNodes, k) as nat == k
  {
    if k > 0 {
      CursorCounts(numNodes, k - 1);
      var c := Cursor(numNodes, k - 1);
      WrapsAfterLast(c, numNodes);
      Incremented(c);
    }
  }

  /** An 8-bit increment below 255 does not wrap. */
  lemma Incremented(c: bv8)
    requires c as nat < 255
    ensures (c + 1) as nat == c as nat + 1
  {
  }

  /** The nodes are polled round-robin: numNodes moves bring the cursor back to where it was. */
  lemma {:induction false} RoundRobin(numNodes: bv8, k: nat)
    requires numNodes != 0
    ensures Cursor(numNodes, k + numNodes as nat) == Cursor(numNodes, k)
  {
    if k == 0 {
      CursorCounts(numNodes, numNodes as nat - 1);
      var c := Cursor(numNodes, numNodes as nat - 1);
      assert c + 1 == numNodes;
    } else {
      RoundRobin(numNodes, k - 1);
      assert k - 1 + numNodes as nat == k + numNodes as nat - 1;
    }
  }

  // -------------------------------------------------------------- discovery

  /**
   * numNodes after discovery, with `airs[i]` what the air did to the probe
   * of node i: one more than the last node that acknowledged, 0 when none did.
   */
  function LastAnswered(s: State, airs: seq<Air>): (n: nat)
    requires Valid(s)
    ensures n <= |airs|
    ensures n > 0 ==> Answered(s, airs[n - 1])
    ensures forall i :: n <= i < |airs| ==> !Answered(s, airs[i])
    decreases |airs|
  {
    if airs == [] then 0
    else if Answered(s, airs[|airs| - 1]) then |airs|
    else LastAnswered(s, airs[..|airs| - 1])
  }

  /** The probe of the next node adds one to what the earlier probes found. */
  lemma LastAnsweredStep(s: State, airs: seq<Air>, i: nat)
    requires Valid(s) && i < |airs|
    ensures LastAnswered(s, airs[..i + 1]) == if Answered(s, airs[i]) then i + 1 else LastAnswered(s, airs[..i])
  {
    assert airs[..i + 1][..i] == airs[..i];
  }

  /**
   * One pass of the discovery loop: node i's address written into
   * nrf_data_address and set as TX_ADDR and RX_ADDR_P0, the probe byte
   * sent, the flags read and reset, and whatever came back read and dropped.
   */
  method Probe(nrf: Nrf24l01p, dataAddress: array<bv8>, buffer: array<bv8>, i: bv8, air: Air) returns (txDone: bool)
    requires nrf.Idle() && Ready(nrf.bus.chip) && nrf.bus.chip.rxFifo == []
    requires dataAddress.Length == NRF_ADDR_LEN && dataAddress[..] == DataAddress(dataAddress[4])
    requires buffer.Length == PAYLOAD_MAX_LEN && dataAddress != buffer
    modifies nrf.bus, dataAddress, buffer
    ensures nrf.Idle() && !nrf.bus.ce
    ensures Ready(nrf.bus.chip) && nrf.bus.chip.rxFifo == [] && SameSetup(old(nrf.bus.chip), nrf.bus.chip)
    ensures dataAddress[..] == DataAddress(i)
    ensures nrf.bus.chip.txAddr == AirAddress(DataAddress(i)) && nrf.bus.chip.rxAddr0 == AirAddress(DataAddress(i))
    ensures txDone <==> Answered(old(nrf.bus.chip), air)
  {
    ghost var s := nrf.bus.chip;
    Renumbered(dataAddress[..], dataAddress[4], i);
    dataAddress[4] := i;
    Aim(nrf, dataAddress[..]);
    AimedAt(s, DataAddress(i));
    ghost var a := nrf.bus.chip;
    ReadyKept(s, a);
    var finished, rx, maxTry;
    finished, rx, txDone, maxTry := Poll(nrf, BS_PAYLOAD_TX[PROBE_OFFSET], air);
    HeardFacts(a, BS_PAYLOAD_TX[PROBE_OFFSET], air);
    if rx {
      Discard(nrf, buffer);
    }
  }

  // ----------------------------------------------------------------- set-up

  /**
   * main's set-up before discovery: init(0x69, DR_1M, 5, 1),
   * openDynamicTXPipe(nrf_broadcast_address, true, false), maskIRQ(true,
   * true, true), setModeTX(), flushTX(), flushRX(), resetIRQFlags(), and
   * setRetries(500, 5).
   */
  function SetUp(s: State): (t: State)
    requires Valid(s)
    ensures Valid(t)
  {
    var linked := LinkOpened(Initialized(s, CHANNEL, RATE_1_MBPS, NRF_ADDR_LEN as bv8, 1), BROADCAST_ADDRESS);
    Poked(ClearFlags(linked.(rxFifo := [])), SETUP_RETR, RetrValue(RETRY_DELAY_US, DISCOVERY_RETRIES))
  }

  /** A setRetries keeps the chip ready and leaves the FIFOs, the addresses and every other register alone. */
  lemma RetriesKeepReady(s: State, delayUs: bv16, count: bv8)
    requires Ready(s)
    ensures var t := Poked(s, SETUP_RETR, RetrValue(delayUs, count));
      && Ready(t) && RetryBudget(t) == ClampCount(count) as nat
      && RetransmitDelay(t) == ClampDelay(delayUs) / 250 * 250
  {
    var t := Poked(s, SETUP_RETR, RetrValue(delayUs, count));
    RetriesReadBack(s, delayUs, count);
    assert Fits(t, PAYLOAD_MAX_LEN) by {
      forall r | RX_PW_P0 <= r < RX_PW_P0 + PIPES
        ensures t.regs[r] as nat <= PAYLOAD_MAX_LEN
      {
        assert t.regs[r] == s.regs[r];
      }
    }
  }

  /**
   * After set-up: ready to send, aimed at the broadcast address, five
   * retries 500 us apart on channel 0x69, both FIFOs empty, no flag raised.
   */
  lemma SetUpSettings(s: State)
    requires Valid(s) && Fits(s, PAYLOAD_MAX_LEN)
    ensures var t := SetUp(s);
      && Ready(t) && RetryBudget(t) == 5 && RetransmitDelay(t) == 500 && t.regs[RF_CH] == CHANNEL
      && t.txAddr == AirAddress(BROADCAST_ADDRESS) && t.rxAddr0 == AirAddress(BROADCAST_ADDRESS)
      && t.rxFifo == [] && t.txFifo == [] && Flags(t) == 0
  {
    var l := LinkOpened(Initialized(s, CHANNEL, RATE_1_MBPS, NRF_ADDR_LEN as bv8, 1), BROADCAST_ADDRESS);
    BroadcastLinkOpened(s);
    DiscoveryRetries(l);
  }

  /** The end of the set-up from a ready chip: RX FIFO flushed, flags reset, five retries 500 us apart. */
  lemma DiscoveryRetries(l: State)
    requires Ready(l)
    ensures var t := Poked(ClearFlags(l.(rxFifo := [])), SETUP_RETR, RetrValue(RETRY_DELAY_US, DISCOVERY_RETRIES));
      && Ready(t) && RetryBudget(t) == 5 && RetransmitDelay(t) == 500 && t.regs[RF_CH] == l.regs[RF_CH]
      && t.txAddr == l.txAddr && t.rxAddr0 == l.rxAddr0
      && t.rxFifo == [] && t.txFifo == l.txFifo && Flags(t) == 0
  {
    var f := ClearFlags(l.(rxFifo := []));
    ReadyKept(l, f);
    RetriesKeepReady(f, RETRY_DELAY_US, DISCOVERY_RETRIES);
  }

  /** init on channel 0x69, then the link to the broadcast address: ready, aimed there, the TX FIFO empty. */
  lemma BroadcastLinkOpened(s: State)
    requires Valid(s) && Fits(s, PAYLOAD_MAX_LEN)
    ensures var l := LinkOpened(Initialized(s, CHANNEL, RATE_1_MBPS, NRF_ADDR_LEN as bv8, 1), BROADCAST_ADDRESS);
      && Ready(l) && l.regs[RF_CH] == CHANNEL && l.txFifo == []
      && l.txAddr == AirAddress(BROADCAST_ADDRESS) && l.rxAddr0 == AirAddress(BROADCAST_ADDRESS)
  {
    var i := Initialized(s, CHANNEL, RATE_1_MBPS, NRF_ADDR_LEN as bv8, 1);
    InitSettings(s, CHANNEL, RATE_1_MBPS, NRF_ADDR_LEN as bv8, 1);
    InitKeepsWidths(s, CHANNEL, RATE_1_MBPS, NRF_ADDR_LEN as bv8, 1);
    assert Fits(i, PAYLOAD_MAX_LEN);
    LinkSettings(i, BROADCAST_ADDRESS);
    LinkKeepsRadio(i, BROADCAST_ADDRESS);
  }

  /** The radio calls of main's set-up, in order. */
  method StartRadio(nrf: Nrf24l01p)
    requires nrf.Idle() && Fits(nrf.bus.chip, PAYLOAD_MAX_LEN)
    modifies nrf.bus
    ensures nrf.Idle() && !nrf.bus.ce
    ensures nrf.bus.chip == SetUp(old(nrf.bus.chip))
  {
    nrf.Init(CHANNEL, RATE_1_MBPS, NRF_ADDR_LEN as bv8, 1);
    OpenLink(nrf, BROADCAST_ADDRESS);
    nrf.FlushRX();
    nrf.ResetIRQFlags();
    nrf.SetRetries(RETRY_DELAY_US, DISCOVERY_RETRIES);
  }

  // -------------------------------------------------------------- broadcast

  /** do_broadcast up to the flag read: aimed at the broadcast address, `payload` sent. */
  function BroadcastSent(s: State, payload: seq<bv8>, air: Air): (t: State)
    requires Valid(s)
    ensures Valid(t)
  {
    Transmit(Loaded(Aimed(s, BROADCAST_ADDRESS), payload, true), air)
  }

  /** do_broadcast's return value for the flags getIRQStatus reads from `t`: 0 on MAX_RT, 1 on RX_DR, 0 otherwise. */
  function Reply(t: State): (r: bv8)
    requires Valid(t)
    ensures r <= 1
  {
    if Flags(t) & MAX_RT != 0 then 0 else if Flags(t) & RX_DR != 0 then 1 else 0
  }

  /** The chip after do_broadcast: flags reset, and the one payload read when it returns 1. */
  function Broadcasted(s: State, payload: seq<bv8>, air: Air): (t: State)
    requires Valid(s)
    ensures Valid(t)
  {
    var sent := BroadcastSent(s, payload, air);
    if Reply(sent) == 1 then PopRx(ClearFlags(sent)) else ClearFlags(sent)
  }

  /** What the broadcast puts on the air: {mode, numNodes, sessionID}, asking for an acknowledgement, to the broadcast address. */
  lemma BroadcastPayload(s: State, mode: bv8, numNodes: bv8, sessionID: bv8)
    requires Valid(s)
    ensures var t := Loaded(Aimed(s, BROADCAST_ADDRESS), [mode, numNodes, sessionID], true);
      && t.txFifo == [TxPayload([mode, numNodes, sessionID], WithAck)]
      && t.txAddr == AirAddress(BROADCAST_ADDRESS) && t.rxAddr0 == AirAddress(BROADCAST_ADDRESS)
      && CanTransmit(t) == (s.regs[CONFIG] & PWR_UP != 0 && s.regs[CONFIG] & PRIM_RX == 0)
  {
    var a := Aimed(s, BROADCAST_ADDRESS);
    AimedAt(s, BROADCAST_ADDRESS);
    LoadedQueue(a, [mode, numNodes, sessionID], true);
    WriteTXDataCanFinish(a, [mode, numNodes, sessionID], true);
  }

  /** The broadcast queued on a ready chip: sendable, no flag raised, the retry budget and the other registers as they were. */
  lemma BroadcastLoaded(s: State, payload: seq<bv8>)
    requires Ready(s) && payload != []
    ensures var t := Loaded(Aimed(s, BROADCAST_ADDRESS), payload, true);
      && CanTransmit(t) && Flags(t) == 0 && t.rxFifo == s.rxFifo && RetryBudget(t) == RetryBudget(s)
      && t.txAddr == AirAddress(BROADCAST_ADDRESS) && t.rxAddr0 == AirAddress(BROADCAST_ADDRESS)
      && t.regs[STATUS := s.regs[STATUS]] == s.regs
  {
    var a := Aimed(s, BROADCAST_ADDRESS);
    AimedAt(s, BROADCAST_ADDRESS);
    LoadedQueue(a, payload, true);
    WriteTXDataCanFinish(a, payload, true);
  }

  /**
   * The broadcast's transmission from a ready chip with an empty RX FIFO:
   * MAX_RT exactly when it was not acknowledged, RX_DR exactly when the
   * acknowledgement carried a payload, which is then all the RX FIFO holds.
   */
  lemma BroadcastFlags(s: State, payload: seq<bv8>, air: Air)
    requires Ready(s) && s.rxFifo == [] && payload != []
    ensures var t := BroadcastSent(s, payload, air);
      && (Flags(t) & MAX_RT != 0 <==> !Answered(s, air))
      && (Flags(t) & RX_DR != 0 <==> AnswerReceived(s, air))
      && t.rxFifo == (if AnswerReceived(s, air) then [RxPayload(0, Clipped(air.ackPayload))] else [])
      && SameSetup(s, t)
      && t.txAddr == AirAddress(BROADCAST_ADDRESS) && t.rxAddr0 == AirAddress(BROADCAST_ADDRESS)
  {
    var loaded := Loaded(Aimed(s, BROADCAST_ADDRESS), payload, true);
    BroadcastLoaded(s, payload);
    TransmitRaisesOneFlag(loaded, air);
    var t := Transmit(loaded, air);
    assert SameSetup(s, t) by {
      forall r | 0 <= r < REGISTER_COUNT && r != STATUS && r != OBSERVE_TX
        ensures t.regs[r] == s.regs[r]
      {
        assert loaded.regs[r] == s.regs[r];
      }
    }
  }

  /**
   * From a ready chip with an empty RX FIFO, do_broadcast returns 1
   * exactly when a node acknowledged with a payload, reads that payload,
   * and leaves the chip ready, with its settings, aimed at the broadcast
   * address, the RX FIFO empty again and no flag raised.
   */
  lemma BroadcastOutcome(s: State, payload: seq<bv8>, air: Air)
    requires Ready(s) && s.rxFifo == [] && payload != []
    ensures Reply(BroadcastSent(s, payload, air)) == 1 <==> AnswerReceived(s, air)
    ensures AnswerReceived(s, air) ==> ClearFlags(BroadcastSent(s, payload, air)).rxFifo == [RxPayload(0, Clipped(air.ackPayload))]
    ensures var u := Broadcasted(s, payload, air);
      && Ready(u) && SameSetup(s, u) && u.rxFifo == [] && Flags(u) == 0
      && u.txAddr == AirAddress(BROADCAST_ADDRESS) && u.rxAddr0 == AirAddress(BROADCAST_ADDRESS)
  {
    var t := BroadcastSent(s, payload, air);
    BroadcastFlags(s, payload, air);
    var c := ClearFlags(t);
    assert SameSetup(s, c) by {
      forall r | 0 <= r < REGISTER_COUNT && r != STATUS && r != OBSERVE_TX
        ensures c.regs[r] == s.regs[r]
      {
        assert c.regs[r] == t.regs[r];
      }
    }
    ReadyKept(s, c);
    var u := Broadcasted(s, payload, air);
    assert u.regs == c.regs;
    ReadyKept(s, u);
  }

  /**
   * do_broadcast(mode, numNodes, sessionID): the payload sent to the
   * broadcast address, the flags read and reset, and on RX_DR without
   * MAX_RT one payload read into RX_buffer_broadcast.
   */
  method DoBroadcast(nrf: Nrf24l01p, buffer: array<bv8>, mode: bv8, numNodes: bv8, sessionID: bv8, air: Air)
    returns (retVal: bv8)
    requires nrf.Idle() && Ready(nrf.bus.chip) && nrf.bus.chip.rxFifo == [] && buffer.Length == PAYLOAD_MAX_LEN
    modifies nrf.bus, buffer
    ensures nrf.Idle() && !nrf.bus.ce
    ensures nrf.bus.chip == Broadcasted(old(nrf.bus.chip), [mode, numNodes, sessionID], air)
    ensures retVal == Reply(BroadcastSent(old(nrf.bus.chip), [mode, numNodes, sessionID], air))
    ensures retVal == 1 <==> AnswerReceived(old(nrf.bus.chip), air)
    ensures retVal == 1 ==> buffer[..|Clipped(air.ackPayload)|] == Clipped(air.ackPayload)
  {
    ghost var s := nrf.bus.chip;
    var payload := [mode, numNodes, sessionID];
    Aim(nrf, BROADCAST_ADDRESS);
    var finished := nrf.WriteTXData(payload, 3, true, air, 1);
    assert payload[..3] == payload;
    ghost var t := nrf.bus.chip;
    assert t == BroadcastSent(s, payload, air);
    BroadcastOutcome(s, payload, air);
    var any, rx, txDone, maxTry := nrf.GetIRQStatus();
    nrf.ResetIRQFlags();
    if maxTry {
      retVal := 0;
    } else if rx {
      ghost var c := nrf.bus.chip;
      assert Ready(c) by {
        assert SameSetup(s, c);
        ReadyKept(s, c);
      }
      var rxLen, pipe := nrf.ReadRXData(buffer);
      RxLengthMeaning(c);
      retVal := 1;
    } else {
      retVal := 0;
    }
  }

  // ---------------------------------------------------------------- a round

  /**
   * The chip between two passes of the main loop: ready, the RX FIFO
   * drained, one retry allowed, aimed at node `target`'s address.
   */
  predicate Steady(s: State, target: bv8)
  {
    && Ready(s) && s.rxFifo == [] && RetryBudget(s) == 1
    && s.txAddr == AirAddress(DataAddress(target)) && s.rxAddr0 == AirAddress(DataAddress(target))
  }

  /** The request and the drain of one pass: the chip, what went to the serial port, and whether to move on. */
  datatype Pass = Pass(chip: State, forwarded: seq<seq<bv8>>, advanced: bool)

  /**
   * writeTXData of the request, getIRQStatus and resetIRQFlags, the drain
   * on RX_DR, and the test `(txDone && rxLen == 0) || maxTry`.
   */
  function Listened(s: State, request: bv8, air: Air): (p: Pass)
    requires Valid(s)
    ensures Valid(p.chip)
  {
    var t := Heard(s, request, air);
    var rx := AnswerReceived(s, air);
    var rxLen: bv8 := if rx then LastLength(t, 0) else 0;
    Pass(if rx then t.(rxFifo := []) else t, if rx then Forwarded(t) else [], (Answered(s, air) && rxLen == 0) || !Answered(s, air))
  }

  /**
   * From a drained ready chip paired with the node, a pass forwards the node's ACK payload
   * exactly when one came back, moves on exactly when none did, and
   * leaves the chip ready, drained, with its settings and its address.
   */
  lemma ListenedFacts(s: State, request: bv8, air: Air)
    requires Ready(s) && s.rxFifo == [] && Paired(s)
    ensures var p := Listened(s, request, air);
      && Ready(p.chip) && SameSetup(s, p.chip) && p.chip.rxFifo == []
      && p.chip.txAddr == s.txAddr && p.chip.rxAddr0 == s.rxAddr0
      && p.forwarded == (if AnswerReceived(s, air) then [Clipped(air.ackPayload)] else [])
      && (p.advanced <==> !AnswerReceived(s, air))
  {
    var t := Heard(s, request, air);
    HeardFacts(s, request, air);
    if AnswerReceived(s, air) {
      OneAckDrained(t, air.ackPayload);
    }
  }

  /** A drain of a ready chip holding one ACK payload forwards it whole, ends with a non-zero rxLen, and leaves the chip ready. */
  lemma OneAckDrained(t: State, ack: seq<bv8>)
    requires Ready(t) && ack != [] && t.rxFifo == [RxPayload(0, Clipped(ack))]
    ensures Forwarded(t) == [Clipped(ack)] && LastLength(t, 0) != 0 && Ready(t.(rxFifo := []))
  {
    assert AcksOnly(t);
    ForwardedWhole(t);
    LastLengthOfAcks(t, 0);
    ReadyKept(t, t.(rxFifo := []));
  }

  /** The chip once setTXAddress and setRXAddress(0, …) have aimed it at node `target` (AimedAt). */
  function Pointed(s: State, target: bv8): (t: State)
  {
    s.(txAddr := AirAddress(DataAddress(target)), rxAddr0 := AirAddress(DataAddress(target)))
  }

  /** The cursor, the node count and the chip once a pass is over. */
  datatype Outcome = Outcome(chip: State, forwarded: seq<seq<bv8>>, advanced: bool, node: bv8, numNodes: bv8)

  /**
   * The move after a pass that said so: `nRF_Node++`; when that reaches
   * numNodes, back to 0 and do_broadcast(mode, numNodes, 1), with
   * `++numNodes` (a uint8) when it returns more than 0; then the node's
   * address written into nrf_data_address and set as TX_ADDR and RX_ADDR_P0.
   */
  function Advanced(d: State, forwarded: seq<seq<bv8>>, node: bv8, numNodes: bv8, mode: bv8, air: Air): (o: Outcome)
    requires Valid(d) && mode <= 1
  {
    if Wraps(node, numNodes) then
      var payload := [mode, numNodes, SESSION_ID];
      var grown := Reply(BroadcastSent(d, payload, air)) > 0;
      Outcome(Pointed(Broadcasted(d, payload, air), 0), forwarded, true, 0, if grown then numNodes + 1 else numNodes)
    else
      Outcome(Pointed(d, node + 1), forwarded, true, node + 1, numNodes)
  }

  /** Advanced when the cursor wraps, spelled out in the terms do_broadcast's model uses. */
  lemma AdvancedWraps(d: State, forwarded: seq<seq<bv8>>, node: bv8, numNodes: bv8, mode: bv8, air: Air)
    requires Valid(d) && mode <= 1 && Wraps(node, numNodes)
    ensures var payload := [mode, numNodes, SESSION_ID];
      Advanced(d, forwarded, node, numNodes, mode, air)
        == Outcome(Pointed(Broadcasted(d, payload, air), 0), forwarded, true, 0,
                   if Reply(BroadcastSent(d, payload, air)) > 0 then numNodes + 1 else numNodes)
  {
  }

  /** Advanced when the cursor does not wrap: the next node, aimed at. */
  lemma AdvancedSteps(d: State, forwarded: seq<seq<bv8>>, node: bv8, numNodes: bv8, mode: bv8, air: Air)
    requires Valid(d) && mode <= 1 && !Wraps(node, numNodes)
    ensures Advanced(d, forwarded, node, numNodes, mode, air) == Outcome(Pointed(d, node + 1), forwarded, true, node + 1, numNodes)
  {
  }

  /**
   * The move keeps the chip ready and drained with its settings, aims it
   * at the node the cursor names, and grows the node count by one exactly
   * when the cursor wrapped and a node answered the broadcast with a payload.
   */
  lemma AdvancedFacts(d: State, forwarded: seq<seq<bv8>>, node: bv8, numNodes: bv8, mode: bv8, air: Air)
    requires Ready(d) && d.rxFifo == [] && mode <= 1
    ensures var o := Advanced(d, forwarded, node, numNodes, mode, air);
      && Ready(o.chip) && SameSetup(d, o.chip) && o.chip.rxFifo == []
      && o.chip.txAddr == AirAddress(DataAddress(o.node)) && o.chip.rxAddr0 == AirAddress(DataAddress(o.node))
      && o.node == NextNode(node, numNodes) && o.forwarded == forwarded && o.advanced
      && o.numNodes == (if Wraps(node, numNodes) && AnswerReceived(d, air) then numNodes + 1 else numNodes)
      && (o.node == 0 || o.node < o.numNodes)
  {
    var o := Advanced(d, forwarded, node, numNodes, mode, air);
    if Wraps(node, numNodes) {
      var payload := [mode, numNodes, SESSION_ID];
      BroadcastOutcome(d, payload, air);
      ReadyKept(Broadcasted(d, payload, air), o.chip);
    } else {
      ReadyKept(d, o.chip);
    }
  }

  /** One pass of the main loop from chip `s`: the request for `mode`, the drain, and the move when there is one. */
  function Polled(s: State, node: bv8, numNodes: bv8, mode: bv8, air: Air, broadcastAir: Air): (o: Outcome)
    requires Valid(s) && mode <= 1
  {
    var p := Listened(s, Request(mode), air);
    if p.advanced then Advanced(p.chip, p.forwarded, node, numNodes, mode, broadcastAir)
    else Outcome(p.chip, p.forwarded, false, node, numNodes)
  }

  /** A pass that does not move on leaves the cursor, the node count and the listened chip as they are. */
  lemma PolledStays(s: State, node: bv8, numNodes: bv8, mode: bv8, air: Air, broadcastAir: Air)
    requires Valid(s) && mode <= 1 && !Listened(s, Request(mode), air).advanced
    ensures var p := Listened(s, Request(mode), air);
      Polled(s, node, numNodes, mode, air, broadcastAir) == Outcome(p.chip, p.forwarded, false, node, numNodes)
  {
  }

  /** A pass that moves on is the move from the listened chip. */
  lemma PolledMoves(s: State, node: bv8, numNodes: bv8, mode: bv8, air: Air, broadcastAir: Air)
    requires Valid(s) && mode <= 1 && Listened(s, Request(mode), air).advanced
    ensures var p := Listened(s, Request(mode), air);
      Polled(s, node, numNodes, mode, air, broadcastAir) == Advanced(p.chip, p.forwarded, node, numNodes, mode, broadcastAir)
  {
  }

  /**
   * A pass keeps the station's invariant: the chip steady with its
   * settings, aimed at the node the cursor names once it moved (at the old
   * target when it did not), and the cursor within the node count.
   */
  lemma PolledKeeps(s: State, target: bv8, node: bv8, numNodes: bv8, mode: bv8, air: Air, broadcastAir: Air)
    requires Steady(s, target) && mode <= 1 && (node == 0 || node < numNodes)
    ensures var o := Polled(s, node, numNodes, mode, air, broadcastAir);
      && Steady(o.chip, if o.advanced then o.node else target) && SameSetup(s, o.chip)
      && (o.node == 0 || o.node < o.numNodes)
  {
    var p := Listened(s, Request(mode), air);
    ListenedFacts(s, Request(mode), air);
    if p.advanced {
      PolledMoves(s, node, numNodes, mode, air, broadcastAir);
      AdvancedFacts(p.chip, p.forwarded, node, numNodes, mode, broadcastAir);
    } else {
      PolledStays(s, node, numNodes, mode, air, broadcastAir);
    }
  }

  /**
   * What a pass does, from a steady chip: the serial port gets the node's
   * ACK payload, whole, exactly when one came back; the station stays on a
   * node exactly as long as it answers with a payload; otherwise the cursor
   * moves on round-robin, and the node count grows by one exactly when the
   * cursor wrapped and the broadcast was answered with a payload.
   */
  lemma PolledMeaning(s: State, target: bv8, node: bv8, numNodes: bv8, mode: bv8, air: Air, broadcastAir: Air)
    requires Steady(s, target) && mode <= 1
    ensures var o := Polled(s, node, numNodes, mode, air, broadcastAir);
      && o.forwarded == (if AnswerReceived(s, air) then [Clipped(air.ackPayload)] else [])
      && (o.advanced <==> !AnswerReceived(s, air))
      && o.node == (if o.advanced then NextNode(node, numNodes) else node)
      && o.numNodes == (if o.advanced && Wraps(node, numNodes) && AnswerReceived(s, broadcastAir) then numNodes + 1 else numNodes)
  {
    var p := Listened(s, Request(mode), air);
    ListenedFacts(s, Request(mode), air);
    if p.advanced {
      PolledMoves(s, node, numNodes, mode, air, broadcastAir);
      MovedMeaning(s, p, node, numNodes, mode, broadcastAir);
    } else {
      PolledStays(s, node, numNodes, mode, air, broadcastAir);
    }
  }

  /** The move after a pass from `s` grows the node count on the same broadcast outcome as from `s` itself. */
  lemma MovedMeaning(s: State, p: Pass, node: bv8, numNodes: bv8, mode: bv8, broadcastAir: Air)
    requires Ready(s) && s.rxFifo == [] && Ready(p.chip) && p.chip.rxFifo == [] && SameSetup(s, p.chip) && mode <= 1
    ensures var o := Advanced(p.chip, p.forwarded, node, numNodes, mode, broadcastAir);
      && o.forwarded == p.forwarded && o.advanced && o.node == NextNode(node, numNodes)
      && o.numNodes == (if Wraps(node, numNodes) && AnswerReceived(s, broadcastAir) then numNodes + 1 else numNodes)
  {
    AdvancedFacts(p.chip, p.forwarded, node, numNodes, mode, broadcastAir);
    assert AnswerReceived(p.chip, broadcastAir) == AnswerReceived(s, broadcastAir) by {
      assert p.chip.regs[SETUP_RETR] == s.regs[SETUP_RETR];
    }
  }

  /**
   * As written, the first pass after start-up goes to node 15's address
   * (the last one discovery probed) while nRF_Node is 0. With nodes 0 and 1
   * present and node 15 absent, that pass is lost and the cursor moves to
   * node 1: node 0 is skipped until the first wrap.
   */
  lemma FirstPassMisaimed(s: State, mode: bv8, broadcastAir: Air)
    requires Steady(s, 15) && mode <= 1
    ensures s.txAddr != AirAddress(DataAddress(0))
    ensures var o := Polled(s, 0, 2, mode, Lost, broadcastAir);
      o.advanced && o.node == 1
  {
    AddressesDistinct(15, 0);
    PolledMeaning(s, 15, 0, 2, mode, Lost, broadcastAir);
  }

  // ------------------------------------------------------------ the station

  /** main's globals and locals: the radio, the receive buffers, nrf_data_address, the mode, the cursor, the node count, and the serial port. */
  class Station {
    const nrf: Nrf24l01p
    /** RX_buffer_1 and RX_buffer_2, which alternate, and RX_buffer_broadcast. */
    const buffer1: array<bv8>
    const buffer2: array<bv8>
    const broadcastBuffer: array<bv8>
    /** nrf_data_address, whose byte 4 is the node the chip is aimed at. */
    const dataAddress: array<bv8>
    /** currentBuffer. */
    var current: array<bv8>
    /** mode: 0 for quaternions only, 1 with linear acceleration. */
    var mode: bv8
    /** nRF_Node. */
    var node: bv8
    /** numNodes. */
    var numNodes: bv8
    /** Everything written to the serial port, one entry per serial_write. */
    var serial: seq<seq<bv8>>

    /** The buffers and the variables, apart from the radio. */
    ghost predicate Shape()
      reads this
    {
      && buffer1.Length == PAYLOAD_MAX_LEN && buffer2.Length == PAYLOAD_MAX_LEN
      && broadcastBuffer.Length == PAYLOAD_MAX_LEN && dataAddress.Length == NRF_ADDR_LEN
      && buffer1 != buffer2 && broadcastBuffer != buffer1 && broadcastBuffer != buffer2
      && dataAddress != buffer1 && dataAddress != buffer2 && dataAddress != broadcastBuffer
      && (current == buffer1 || current == buffer2)
      && mode <= 1 && (node == 0 || node < numNodes)
    }

    /**
     * The invariant of the main loop: the chip steady with one retry and
     * aimed at the node byte 4 of nrf_data_address names, and the cursor
     * within the node count.
     */
    ghost predicate Valid()
      reads this, nrf, nrf.bus, dataAddress
    {
      && Shape() && nrf.Idle()
      && dataAddress[..] == DataAddress(dataAddress[4])
      && Steady(nrf.bus.chip, dataAddress[4])
    }

    /** main's globals and locals before discovery. */
    constructor (nrf: Nrf24l01p)
      ensures Shape() && this.nrf == nrf
      ensures fresh(buffer1) && fresh(buffer2) && fresh(broadcastBuffer) && fresh(dataAddress)
      ensures dataAddress[..] == DATA_ADDRESS
      ensures mode == 0 && node == 0 && numNodes == 0 && current == buffer1 && serial == []
    {
      this.nrf := nrf;
      buffer1 := new bv8[PAYLOAD_MAX_LEN];
      buffer2 := new bv8[PAYLOAD_MAX_LEN];
      broadcastBuffer := new bv8[PAYLOAD_MAX_LEN];
      var a := new bv8[NRF_ADDR_LEN];
      a[0], a[1], a[2], a[3], a[4] := 0xBA, 0x5E, 0xDA, 0x7A, 0xFF;
      dataAddress := a;
      current := buffer1;
      mode, node, numNodes, serial := 0, 0, 0, [];
    }

    /**
     * Part-way through discovery from chip `s0`: the chip still ready and
     * drained with its settings, nodes 0 to i - 1 probed, the last of them
     * the one aimed at, and `found` what numNodes would be so far.
     */
    ghost predicate Discovering(s0: State, airs: seq<Air>, i: nat, found: nat)
      reads this, nrf, nrf.bus, dataAddress
      requires Nrf24Chip.Valid(s0)
    {
      && Shape() && nrf.Idle() && i <= |airs|
      && Ready(nrf.bus.chip) && nrf.bus.chip.rxFifo == [] && SameSetup(s0, nrf.bus.chip)
      && dataAddress[..] == DataAddress(dataAddress[4])
      && (0 < i < 256 ==> dataAddress[4] == (i - 1) as bv8 && !nrf.bus.ce)
      && (i > 0 ==> nrf.bus.chip.txAddr == AirAddress(DataAddress(dataAddress[4])))
      && (i > 0 ==> nrf.bus.chip.rxAddr0 == AirAddress(DataAddress(dataAddress[4])))
      && found == LastAnswered(s0, airs[..i])
    }

    /** One pass of the discovery loop: probe node i, and take i + 1 as the node count if it acknowledged. */
    method DiscoverOne(ghost s0: State, airs: seq<Air>, i: nat, found: nat) returns (found': nat)
      requires Nrf24Chip.Valid(s0) && Discovering(s0, airs, i, found) && i < |airs| && i < 256
      modifies nrf.bus, dataAddress, buffer1
      ensures Discovering(s0, airs, i + 1, found')
    {
      ghost var s := nrf.bus.chip;
      var txDone := Probe(nrf, dataAddress, buffer1, i as bv8, airs[i]);
      assert Answered(s, airs[i]) == Answered(s0, airs[i]) by {
        assert s.regs[SETUP_RETR] == s0.regs[SETUP_RETR];
      }
      LastAnsweredStep(s0, airs, i);
      found' := if txDone then i + 1 else found;
    }

    /**
     * The discovery loop: nodes 0 to 15 probed in turn, numNodes set to
     * i + 1 whenever node i acknowledged, payloads read into RX_buffer_1
     * and dropped.
     */
    method Discover(airs: seq<Air>)
      requires Shape() && nrf.Idle() && Ready(nrf.bus.chip) && nrf.bus.chip.rxFifo == []
      requires dataAddress[..] == DataAddress(dataAddress[4]) && numNodes == 0 && |airs| == MAX_NUM_NODES
      modifies nrf.bus, dataAddress, buffer1, this`numNodes
      ensures Shape() && nrf.Idle() && !nrf.bus.ce
      ensures Ready(nrf.bus.chip) && nrf.bus.chip.rxFifo == [] && SameSetup(old(nrf.bus.chip), nrf.bus.chip)
      ensures numNodes == LastAnswered(old(nrf.bus.chip), airs) as bv8
      ensures dataAddress[..] == DataAddress(15)
      ensures nrf.bus.chip.txAddr == AirAddress(DataAddress(15)) && nrf.bus.chip.rxAddr0 == AirAddress(DataAddress(15))
      ensures mode == old(mode) && node == old(node) && serial == old(serial)
    {
      ghost var s0 := nrf.bus.chip;
      var i, found := 0, 0;
      while i < MAX_NUM_NODES
        invariant i <= MAX_NUM_NODES && Discovering(s0, airs, i, found)
      {
        found := DiscoverOne(s0, airs, i, found);
        i := i + 1;
      }
      assert airs[..MAX_NUM_NODES] == airs;
      numNodes := found as bv8;
    }

    /** main's set-up and discovery, from the globals as initialised. */
    method Start(airs: seq<Air>)
      requires Shape() && nrf.Idle() && Fits(nrf.bus.chip, PAYLOAD_MAX_LEN) && |airs| == MAX_NUM_NODES
      requires dataAddress[..] == DATA_ADDRESS && numNodes == 0
      modifies nrf.bus, dataAddress, buffer1, this`numNodes
      ensures Shape() && nrf.Idle() && Ready(nrf.bus.chip) && nrf.bus.chip.rxFifo == []
      ensures numNodes == LastAnswered(SetUp(old(nrf.bus.chip)), airs) as bv8
      ensures dataAddress[..] == DataAddress(15)
      ensures nrf.bus.chip.txAddr == AirAddress(DataAddress(15)) && nrf.bus.chip.rxAddr0 == AirAddress(DataAddress(15))
      ensures mode == old(mode) && node == old(node) && serial == old(serial)
    {
      ghost var s := nrf.bus.chip;
      StartRadio(nrf);
      SetUpSettings(s);
      assert dataAddress[..] == DataAddress(dataAddress[4]);
      Discover(airs);
    }

    /** setRetries(500, 1) once discovery is over: the station's invariant, with the chip still aimed at the last node probed. */
    method PollRetries()
      requires Shape() && nrf.Idle() && Ready(nrf.bus.chip) && nrf.bus.chip.rxFifo == []
      requires dataAddress[..] == DataAddress(15)
      requires nrf.bus.chip.txAddr == AirAddress(DataAddress(15)) && nrf.bus.chip.rxAddr0 == AirAddress(DataAddress(15))
      modifies nrf.bus
      ensures Valid() && dataAddress[4] == 15
      ensures nrf.bus.chip == Poked(old(nrf.bus.chip), SETUP_RETR, RetrValue(RETRY_DELAY_US, POLL_RETRIES))
      ensures mode == old(mode) && node == old(node) && numNodes == old(numNodes) && serial == old(serial)
    {
      ghost var d := nrf.bus.chip;
      nrf.SetRetries(RETRY_DELAY_US, POLL_RETRIES);
      RetriesKeepReady(d, RETRY_DELAY_US, POLL_RETRIES);
    }

    /** The fix for FirstPassMisaimed: aim at node 0, which the cursor names, before the loop starts. */
    method AimAtCursor()
      requires Valid() && node == 0
      modifies nrf.bus, dataAddress
      ensures Valid() && dataAddress[4] == node && nrf.bus.ce == old(nrf.bus.ce)
      ensures nrf.bus.chip == Pointed(old(nrf.bus.chip), 0)
    {
      ghost var s := nrf.bus.chip;
      Retarget(0);
      ReadyKept(s, nrf.bus.chip);
    }

    /** Button_Interrupt: the mode flips. */
    method Button()
      requires Valid()
      modifies this
      ensures Valid() && mode as nat == Toggled(old(mode) as nat) && mode != old(mode)
      ensures node == old(node) && numNodes == old(numNodes) && current == old(current) && serial == old(serial)
    {
      mode := if mode == 0 then 1 else 0;
    }

    /**
     * One pass of `while (1)`, with `air` standing for what happens to the
     * request on the air and `broadcastAir` for what happens to the
     * broadcast, if the pass sends one.
     */
    method Round(air: Air, broadcastAir: Air) returns (advanced: bool)
      requires Valid()
      modifies this, nrf.bus, buffer1, buffer2, broadcastBuffer, dataAddress
      ensures Valid()
      ensures var o := Polled(old(nrf.bus.chip), old(node), old(numNodes), old(mode), air, broadcastAir);
        && nrf.bus.chip == o.chip && node == o.node && numNodes == o.numNodes && advanced == o.advanced
        && serial == old(serial) + o.forwarded
        && current == After(old(current), buffer1, buffer2, |o.forwarded|)
      ensures mode == old(mode)
      ensures advanced ==> dataAddress[4] == node
      ensures !advanced ==> dataAddress[..] == old(dataAddress[..])
    {
      ghost var s := nrf.bus.chip;
      ghost var target := dataAddress[4];
      var forwarded;
      forwarded, advanced := Listen(Request(mode), air);
      serial := serial + forwarded;
      Settle(s, target, air, broadcastAir, forwarded, advanced);
    }

    /** The end of a pass after the drain: the move when the pass said so, and the invariant back. */
    method Settle(ghost s: State, ghost target: bv8, ghost air: Air, broadcastAir: Air, ghost forwarded: seq<seq<bv8>>, advanced: bool)
      requires Steady(s, target) && Shape() && nrf.Idle()
      requires dataAddress[..] == DataAddress(dataAddress[4]) && dataAddress[4] == target
      requires var p := Listened(s, Request(mode), air);
        nrf.bus.chip == p.chip && forwarded == p.forwarded && advanced == p.advanced
      modifies nrf.bus, broadcastBuffer, dataAddress, this`node, this`numNodes
      ensures Valid()
      ensures var o := Polled(s, old(node), old(numNodes), mode, air, broadcastAir);
        nrf.bus.chip == o.chip && node == o.node && numNodes == o.numNodes && advanced == o.advanced && forwarded == o.forwarded
      ensures advanced ==> dataAddress[4] == node
      ensures !advanced ==> dataAddress[..] == old(dataAddress[..])
      ensures current == old(current) && mode == old(mode) && serial == old(serial)
    {
      ListenedFacts(s, Request(mode), air);
      PolledKeeps(s, target, node, numNodes, mode, air, broadcastAir);
      if advanced {
        PolledMoves(s, node, numNodes, mode, air, broadcastAir);
        Advance(broadcastAir, forwarded);
      } else {
        PolledStays(s, node, numNodes, mode, air, broadcastAir);
      }
      assert Shape();
    }

    /** The request and the drain that follows it on RX_DR. */
    method Listen(request: bv8, air: Air) returns (forwarded: seq<seq<bv8>>, advanced: bool)
      requires Shape() && nrf.Idle() && Ready(nrf.bus.chip) && Paired(nrf.bus.chip)
      modifies nrf.bus, buffer1, buffer2, this`current
      ensures Shape() && nrf.Idle()
      ensures var p := Listened(old(nrf.bus.chip), request, air);
        && nrf.bus.chip == p.chip && forwarded == p.forwarded && advanced == p.advanced
      ensures current == After(old(current), buffer1, buffer2, |forwarded|)
      ensures mode == old(mode) && node == old(node) && numNodes == old(numNodes) && serial == old(serial)
    {
      ghost var s := nrf.bus.chip;
      var finished, rx, txDone, maxTry := Poll(nrf, request, air);
      assert mode == old(mode) && node == old(node) && numNodes == old(numNodes) && serial == old(serial);
      HeardFacts(s, request, air);
      var rxLen: bv8 := 0;
      forwarded := [];
      if rx {
        current, forwarded, rxLen := Drain(nrf, buffer1, buffer2, current);
        assert mode == old(mode) && node == old(node) && numNodes == old(numNodes) && serial == old(serial);
      }
      advanced := (txDone && rxLen == 0) || maxTry;
    }

    /**
     * `nRF_Node++` with its wrap and the broadcast that follows one, then
     * the new node's number written into nrf_data_address and set as
     * TX_ADDR and RX_ADDR_P0.
     */
    /**
     * The move after a pass that said so: the next node, or on the wrap
     * node 0 after the broadcast.
     */
    method Advance(broadcastAir: Air, ghost forwarded: seq<seq<bv8>>)
      requires nrf.Idle() && Ready(nrf.bus.chip) && nrf.bus.chip.rxFifo == [] && mode <= 1
      requires broadcastBuffer.Length == PAYLOAD_MAX_LEN && dataAddress.Length == NRF_ADDR_LEN
      requires dataAddress[..] == DataAddress(dataAddress[4])
      modifies nrf.bus, broadcastBuffer, dataAddress, this`node, this`numNodes
      ensures nrf.Idle() && dataAddress[..] == DataAddress(node) && dataAddress[4] == node
      ensures var o := Advanced(old(nrf.bus.chip), forwarded, old(node), old(numNodes), mode, broadcastAir);
        nrf.bus.chip == o.chip && node == o.node && numNodes == o.numNodes
      ensures current == old(current) && mode == old(mode) && serial == old(serial)
    {
      if node + 1 >= numNodes {
        ghost var d, c := nrf.bus.chip, numNodes;
        Wrap(broadcastAir);
        AdvancedWraps(d, forwarded, old(node), c, mode, broadcastAir);
      } else {
        node := node + 1;
        Retarget(node);
      }
    }

    /**
     * The cursor wraps: back to node 0, do_broadcast(mode, numNodes, 1),
     * `++numNodes` when it returns more than 0, and node 0 aimed at.
     */
    method Wrap(broadcastAir: Air)
      requires nrf.Idle() && Ready(nrf.bus.chip) && nrf.bus.chip.rxFifo == []
      requires broadcastBuffer.Length == PAYLOAD_MAX_LEN && dataAddress.Length == NRF_ADDR_LEN
      requires dataAddress[..] == DataAddress(dataAddress[4])
      modifies nrf.bus, broadcastBuffer, dataAddress, this`node, this`numNodes
      ensures nrf.Idle() && dataAddress[..] == DataAddress(0) && dataAddress[4] == 0
      ensures var payload := [mode, old(numNodes), SESSION_ID];
        && nrf.bus.chip == Pointed(Broadcasted(old(nrf.bus.chip), payload, broadcastAir), 0) && node == 0
        && numNodes == if Reply(BroadcastSent(old(nrf.bus.chip), payload, broadcastAir)) > 0 then old(numNodes) + 1 else old(numNodes)
    {
      node := 0;
      Broadcast(broadcastAir);
      Retarget(0);
    }

    /** do_broadcast(mode, numNodes, 1), and `++numNodes` when it returns more than 0. */
    method Broadcast(broadcastAir: Air)
      requires nrf.Idle() && Ready(nrf.bus.chip) && nrf.bus.chip.rxFifo == [] && broadcastBuffer.Length == PAYLOAD_MAX_LEN
      modifies nrf.bus, broadcastBuffer, this`numNodes
      ensures nrf.Idle()
      ensures var payload := [mode, old(numNodes), SESSION_ID];
        && nrf.bus.chip == Broadcasted(old(nrf.bus.chip), payload, broadcastAir)
        && numNodes == if Reply(BroadcastSent(old(nrf.bus.chip), payload, broadcastAir)) > 0 then old(numNodes) + 1 else old(numNodes)
    {
      var retVal := DoBroadcast(nrf, broadcastBuffer, mode, numNodes, SESSION_ID, broadcastAir);
      if retVal > 0 {
        numNodes := numNodes + 1;
      }
    }

    /**
     * `nrf_data_address[4] = nRF_Node`, then setTXAddress and
     * setRXAddress(0, …) to it: the chip aimed at node `target`.
     */
    method Retarget(target: bv8)
      requires nrf.Idle() && dataAddress.Length == NRF_ADDR_LEN
      requires dataAddress[..] == DataAddress(dataAddress[4])
      modifies nrf.bus, dataAddress
      ensures nrf.Idle() && nrf.bus.ce == old(nrf.bus.ce)
      ensures dataAddress[..] == DataAddress(target) && dataAddress[4] == target
      ensures nrf.bus.chip == Pointed(old(nrf.bus.chip), target)
    {
      AimedAt(nrf.bus.chip, DataAddress(target));
      Renumbered(dataAddress[..], dataAddress[4], target);
      dataAddress[4] := target;
      Aim(nrf, dataAddress[..]);
    }
  }

  /**
   * main up to the loop, as written: set-up, the globals, discovery, and
   * setRetries(500, 1). The chip is left aimed at node 15 while the
   * cursor is at node 0 (FirstPassMisaimed).
   */
  method Boot(nrf: Nrf24l01p, airs: seq<Air>) returns (station: Station)
    requires nrf.Idle() && Fits(nrf.bus.chip, PAYLOAD_MAX_LEN) && |airs| == MAX_NUM_NODES
    modifies nrf.bus
    ensures fresh(station) && fresh(station.dataAddress) && station.nrf == nrf && station.Valid()
    ensures station.numNodes == LastAnswered(SetUp(old(nrf.bus.chip)), airs) as bv8
    ensures station.mode == 0 && station.node == 0 && station.serial == []
    ensures station.dataAddress[4] == 15
  {
    station := new Station(nrf);
    station.Start(airs);
    station.PollRetries();
  }

  /** main up to the loop with the fix: as Boot, then the chip aimed at node 0, where the cursor is. */
  method BootAtFirstNode(nrf: Nrf24l01p, airs: seq<Air>) returns (station: Station)
    requires nrf.Idle() && Fits(nrf.bus.chip, PAYLOAD_MAX_LEN) && |airs| == MAX_NUM_NODES
    modifies nrf.bus
    ensures fresh(station) && station.nrf == nrf && station.Valid()
    ensures station.numNodes == LastAnswered(SetUp(old(nrf.bus.chip)), airs) as bv8
    ensures station.mode == 0 && station.node == 0 && station.serial == []
    ensures station.dataAddress[4] == station.node
  {
    station := Boot(nrf, airs);
    station.AimAtCursor();
  }
}
