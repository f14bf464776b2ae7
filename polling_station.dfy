/**
 * The mbed base station that polls a fixed list of nodes
 * (Code/BaseStation/main.cpp). It sends each node a one-byte request whose
 * value is the current mode, forwards the ACK payloads that come back to the
 * serial port, and moves on to the next node once a request brings nothing
 * back or is not acknowledged at all.
 */
module PollingStation {
  import opened Nrf24Chip
  import opened Spi
  import opened NodeDriver
  import opened Nrf24l01pFields
  import opened Nrf24l01pDriver
  import opened StationLoop

  /** TOTAL_NODES_AND_SUBNODES: how many rows of NRF_address are polled. */
  const TOTAL_NODES_AND_SUBNODES: nat := 2

  /** BS_payload_TX: the request for mode m is the byte at offset m. */
  const BS_PAYLOAD_TX: seq<bv8> := [0x00, 0x01, 0x00, 0x00, 0x00, 0x00, 0x00, 0x00, 0x00, 0x00]

  /** NRF_address: one five-byte address per node. */
  const NRF_ADDRESS: seq<seq<bv8>> := [
    [0x11, 0x12, 0x13, 0x14, 0x15],
    [0x21, 0x22, 0x23, 0x24, 0x25],
    [0x31, 0x32, 0x33, 0x34, 0x35],
    [0x41, 0x42, 0x43, 0x44, 0x45],
    [0x51, 0x52, 0x53, 0x54, 0x55],
    [0x61, 0x62, 0x63, 0x64, 0x65]
  ]

  /** The channel, rate, address width and CRC length main passes to init. */
  const CHANNEL: bv8 := 0x69
  /** setRetries(500, 1): one retransmission, 500 us apart. */
  const POLL_DELAY_US: bv16 := 500
  const POLL_RETRIES: bv8 := 1

  /** `writeTXData(BS_payload_TX + mode, 1)`: the one byte sent in a mode. */
  function Request(mode: nat): (b: bv8)
    requires mode < |BS_PAYLOAD_TX|
  {
    BS_PAYLOAD_TX[mode]
  }

  /** In both modes the request byte is the mode itself. */
  lemma RequestIsMode(mode: nat)
    requires mode <= 1
    ensures Request(mode) as nat == mode
  {
  }

  /**
   * `nRF_Node++`, back to 0 once it reaches TOTAL_NODES_AND_SUBNODES; the
   * uint8 cursor never gets near its wrap-around.
   */
  function Next(node: nat): (n: nat)
    ensures n < TOTAL_NODES_AND_SUBNODES
  {
    if node + 1 >= TOTAL_NODES_AND_SUBNODES then 0 else node + 1
  }

  /** The nodes are polled in turn: the cursor always moves, and comes back after every node had its turn. */
  lemma NextVisitsAll(node: nat)
    requires node < TOTAL_NODES_AND_SUBNODES
    ensures Next(node) != node
    ensures Next(Next(node)) == node
  {
  }

  /** Every address polled is one of NRF_address's rows. */
  lemma AddressesExist()
    ensures TOTAL_NODES_AND_SUBNODES as nat <= |NRF_ADDRESS|
    ensures forall i :: 0 <= i < |NRF_ADDRESS| ==> |NRF_ADDRESS[i]| == NRF_ADDR_LEN
  {
  }

  // ---------------------------------------------------------------- set-up

  /** After init and setRetries(500, 1), before the link is opened. */
  function Configured(s: State): (t: State)
    requires Valid(s)
    ensures Valid(t)
  {
    Poked(Initialized(s, CHANNEL, RATE_1_MBPS, NRF_ADDR_LEN as bv8, 1), SETUP_RETR, RetrValue(POLL_DELAY_US, POLL_RETRIES))
  }

  /**
   * main's set-up: init(0x69, DR_1M, 5, 1), setRetries(500, 1),
   * openDynamicTXPipe(NRF_address[0], true, false), maskIRQ(true, true,
   * true), setModeTX(), flushTX(), resetIRQFlags(). The RX FIFO is not
   * flushed.
   */
  function SetUp(s: State): (t: State)
    requires Valid(s)
    ensures Valid(t)
  {
    ClearFlags(LinkOpened(Configured(s), NRF_ADDRESS[0]))
  }

  /** init and setRetries: powered up, 0x69, 1 Mbps, 5-byte addresses, one retry 500 us apart, widths kept. */
  lemma ConfiguredSettings(s: State)
    requires Valid(s) && Fits(s, PAYLOAD_MAX_LEN)
    ensures var t := Configured(s);
      && t.regs[CONFIG] & PWR_UP != 0 && Fits(t, PAYLOAD_MAX_LEN)
      && t.regs[RF_CH] == CHANNEL && RateOf(t.regs[RF_SETUP]) == RATE_1_MBPS
      && WidthOf(t.regs[SETUP_AW]) == 5
      && RetryBudget(t) == 1 && RetransmitDelay(t) == 500
      && t.rxFifo == s.rxFifo
  {
    var i := Initialized(s, CHANNEL, RATE_1_MBPS, NRF_ADDR_LEN as bv8, 1);
    InitSettings(s, CHANNEL, RATE_1_MBPS, NRF_ADDR_LEN as bv8, 1);
    InitKeepsWidths(s, CHANNEL, RATE_1_MBPS, NRF_ADDR_LEN as bv8, 1);
    RetriesReadBack(i, POLL_DELAY_US, POLL_RETRIES);
    var t := Configured(s);
    assert Fits(t, PAYLOAD_MAX_LEN) by {
      forall r | RX_PW_P0 <= r < RX_PW_P0 + PIPES
        ensures t.regs[r] as nat <= PAYLOAD_MAX_LEN
      {
        assert t.regs[r] == i.regs[r];
      }
    }
  }

  /**
   * The station after set-up: ready to poll, pointed at the first node,
   * one retry 500 us apart on channel 0x69, no flag raised, TX FIFO empty,
   * the RX FIFO as it was.
   */
  lemma SetUpSettings(s: State)
    requires Valid(s) && Fits(s, PAYLOAD_MAX_LEN)
    ensures var t := SetUp(s);
      && Ready(t)
      && t.txAddr == AirAddress(NRF_ADDRESS[0]) && t.rxAddr0 == AirAddress(NRF_ADDRESS[0])
      && RetryBudget(t) == 1 && RetransmitDelay(t) == 500 && t.regs[RF_CH] == CHANNEL
      && Flags(t) == 0 && t.txFifo == [] && t.rxFifo == s.rxFifo
  {
    var c := Configured(s);
    ConfiguredSettings(s);
    LinkSettings(c, NRF_ADDRESS[0]);
    LinkKeepsRadio(c, NRF_ADDRESS[0]);
    var l := LinkOpened(c, NRF_ADDRESS[0]);
    var t := SetUp(s);
    ClearKeepsSetup(l);
    ReadyKept(l, t);
  }

  /**
   * The chip as the main loop needs it between passes: ready to poll with
   * one retry allowed, and pointed at the node `node` names.
   */
  predicate Aiming(t: State, node: nat)
  {
    && Ready(t) && RetryBudget(t) == 1 && node < TOTAL_NODES_AND_SUBNODES
    && t.txAddr == AirAddress(NRF_ADDRESS[node]) && t.rxAddr0 == AirAddress(NRF_ADDRESS[node])
  }

  /** The radio calls of main's set-up, in order. */
  method StartRadio(nrf: Nrf24l01p)
    requires nrf.Idle() && Fits(nrf.bus.chip, PAYLOAD_MAX_LEN)
    modifies nrf.bus
    ensures nrf.Idle() && !nrf.bus.ce
    ensures nrf.bus.chip == SetUp(old(nrf.bus.chip))
    ensures Aiming(nrf.bus.chip, 0)
  {
    ghost var s := nrf.bus.chip;
    nrf.Init(CHANNEL, RATE_1_MBPS, NRF_ADDR_LEN as bv8, 1);
    nrf.SetRetries(POLL_DELAY_US, POLL_RETRIES);
    OpenLink(nrf, NRF_ADDRESS[0]);
    nrf.ResetIRQFlags();
    SetUpSettings(s);
  }

  /** main up to the loop: the radio set up, then the globals around it. */
  method Boot(nrf: Nrf24l01p) returns (station: Station)
    requires nrf.Idle() && Fits(nrf.bus.chip, PAYLOAD_MAX_LEN)
    modifies nrf.bus
    ensures fresh(station) && station.Valid() && station.nrf == nrf
    ensures nrf.bus.chip == SetUp(old(nrf.bus.chip))
    ensures station.mode == 0 && station.node == 0 && station.serial == []
  {
    StartRadio(nrf);
    station := new Station(nrf);
  }

  // ---------------------------------------------------------------- a round

  /** What one pass of the main loop leaves: the chip, what went to the serial port, and the node polled next. */
  datatype Outcome = Outcome(chip: State, forwarded: seq<seq<bv8>>, advanced: bool, node: nat)

  /**
   * The rest of a pass once the request is answered and `t` is the chip:
   * the drain when RX_DR was raised, and the move to the next node when the
   * request was acknowledged without any payload read (`txDone && rxLen ==
   * 0`) or not acknowledged at all (`maxTry`).
   */
  function Settled(s: State, t: State, node: nat, air: Air): (o: Outcome)
    requires Valid(s) && Valid(t) && node < TOTAL_NODES_AND_SUBNODES
    ensures Valid(o.chip) && o.node < TOTAL_NODES_AND_SUBNODES
  {
    var rx := AnswerReceived(s, air);
    var rxLen: bv8 := if rx then LastLength(t, 0) else 0;
    var drained := if rx then t.(rxFifo := []) else t;
    var forwarded := if rx then Forwarded(t) else [];
    Moved(drained, forwarded, node, (Answered(s, air) && rxLen == 0) || !Answered(s, air))
  }

  /**
   * The end of a pass: when `advanced`, the cursor moves on and
   * setTXAddress and setRXAddress(0, …) point TX_ADDR and RX_ADDR_P0 at
   * the next node's address, the only change to the chip (AimedAt).
   */
  function Moved(d: State, forwarded: seq<seq<bv8>>, node: nat, advanced: bool): (o: Outcome)
    requires Valid(d) && node < TOTAL_NODES_AND_SUBNODES
    ensures Valid(o.chip) && o.node < TOTAL_NODES_AND_SUBNODES
  {
    if advanced then
      var a := AirAddress(NRF_ADDRESS[Next(node)]);
      Outcome(d.(txAddr := a, rxAddr0 := a), forwarded, true, Next(node))
    else Outcome(d, forwarded, false, node)
  }

  /** The move keeps the registers and points the chip at the node the cursor names. */
  lemma MovedKeeps(s: State, d: State, forwarded: seq<seq<bv8>>, node: nat, advanced: bool)
    requires Valid(s) && Ready(d) && SameSetup(s, d) && node < TOTAL_NODES_AND_SUBNODES
    requires d.txAddr == AirAddress(NRF_ADDRESS[node]) && d.rxAddr0 == AirAddress(NRF_ADDRESS[node])
    ensures var o := Moved(d, forwarded, node, advanced);
      && Ready(o.chip) && SameSetup(s, o.chip) && o.chip.rxFifo == d.rxFifo && o.forwarded == forwarded
      && o.chip.txAddr == AirAddress(NRF_ADDRESS[o.node]) && o.chip.rxAddr0 == AirAddress(NRF_ADDRESS[o.node])
      && o.advanced == advanced
      && (o.advanced <==> o.node == Next(node))
      && (o.advanced || o.node == node)
  {
    var o := Moved(d, forwarded, node, advanced);
    NextVisitsAll(node);
    SameRegisters(s, d, o.chip);
  }

  /** One pass of the main loop from chip `s`, on node `node`, with `request` sent. */
  function Polled(s: State, node: nat, request: bv8, air: Air): (o: Outcome)
    requires Ready(s) && node < TOTAL_NODES_AND_SUBNODES
    ensures Valid(o.chip) && o.node < TOTAL_NODES_AND_SUBNODES
  {
    Settled(s, Heard(s, request, air), node, air)
  }

  /** Readiness and the settings are in the registers alone. */
  lemma SameRegisters(s: State, t: State, u: State)
    requires Valid(s) && Ready(t) && SameSetup(s, t) && Valid(u) && u.regs == t.regs
    ensures Ready(u) && SameSetup(s, u)
  {
    assert Fits(u, PAYLOAD_MAX_LEN) by {
      forall r | RX_PW_P0 <= r < RX_PW_P0 + PIPES
        ensures u.regs[r] as nat <= PAYLOAD_MAX_LEN
      {
        assert u.regs[r] == t.regs[r];
      }
    }
  }

  /** The request and the drain after it, from chip `s` to chip `d`. */
  predicate Listened(s: State, request: bv8, air: Air, d: State, forwarded: seq<seq<bv8>>, rxLen: bv8)
    requires Valid(s)
  {
    var t := Heard(s, request, air);
    var rx := AnswerReceived(s, air);
    && d == (if rx then t.(rxFifo := []) else t)
    && forwarded == (if rx then Forwarded(t) else [])
    && rxLen == (if rx then LastLength(t, 0) else 0)
  }

  /** A pass is the request and the drain, then the move that getIRQStatus's flags and rxLen decide. */
  lemma ListenThenMove(s: State, node: nat, request: bv8, air: Air, d: State, forwarded: seq<seq<bv8>>, rxLen: bv8,
                       txDone: bool, maxTry: bool)
    requires Aiming(s, node) && Listened(s, request, air, d, forwarded, rxLen)
    requires (txDone <==> Answered(s, air)) && (maxTry <==> !txDone)
    ensures Valid(d)
    ensures var o := Moved(d, forwarded, node, (txDone && rxLen == 0) || maxTry);
      && Polled(s, node, request, air) == o
      && Aiming(o.chip, o.node)
  {
    PolledKeeps(s, node, request, air);
  }

  /** The chip's settings and the node's address survive the rest of a pass. */
  lemma SettledKeeps(s: State, t: State, node: nat, air: Air)
    requires Ready(s) && Valid(t) && HeardFrom(s, t, air) && node < TOTAL_NODES_AND_SUBNODES
    requires s.txAddr == AirAddress(NRF_ADDRESS[node]) && s.rxAddr0 == AirAddress(NRF_ADDRESS[node])
    ensures var o := Settled(s, t, node, air);
      && Ready(o.chip) && SameSetup(s, o.chip)
      && o.chip.txAddr == AirAddress(NRF_ADDRESS[o.node]) && o.chip.rxAddr0 == AirAddress(NRF_ADDRESS[o.node])
      && (o.advanced <==> o.node == Next(node))
      && (o.advanced || o.node == node)
  {
    var rx := AnswerReceived(s, air);
    var drained := if rx then t.(rxFifo := []) else t;
    SameRegisters(s, t, drained);
    var rxLen: bv8 := if rx then LastLength(t, 0) else 0;
    MovedKeeps(s, drained, if rx then Forwarded(t) else [], node, (Answered(s, air) && rxLen == 0) || !Answered(s, air));
  }

  /**
   * A pass keeps the station's invariant: the chip is ready, with the
   * settings it had, and pointed at the node the cursor names, which moved
   * on exactly when the pass says so.
   */
  lemma PolledKeeps(s: State, node: nat, request: bv8, air: Air)
    requires Aiming(s, node)
    ensures var o := Polled(s, node, request, air);
      && Aiming(o.chip, o.node) && SameSetup(s, o.chip)
      && (o.advanced <==> o.node == Next(node))
      && (o.advanced || o.node == node)
  {
    HeardFacts(s, request, air);
    SettledKeeps(s, Heard(s, request, air), node, air);
  }

  /** The last of the payloads waiting after a poll that brought an ACK payload is that payload, on pipe 0. */
  lemma AckLast(s: State, t: State, air: Air)
    requires Ready(s) && AcksOnly(s) && Valid(t) && HeardFrom(s, t, air) && AnswerReceived(s, air)
    ensures Ready(t) && AcksOnly(t) && t.rxFifo != []
    ensures t.rxFifo[|t.rxFifo| - 1].data == Clipped(air.ackPayload)
  {
    forall i | 0 <= i < |t.rxFifo|
      ensures t.rxFifo[i].pipe == 0
    {
      if i < |s.rxFifo| {
        assert t.rxFifo[i] == s.rxFifo[i];
      }
    }
  }

  /**
   * With only ACK payloads waiting, the station stays on a node exactly as
   * long as the node's acknowledgement carries a payload that the RX FIFO
   * can take; a lost request, or a bare acknowledgement, moves it on.
   */
  lemma AdvancesUnlessAckPayload(s: State, node: nat, request: bv8, air: Air)
    requires Ready(s) && AcksOnly(s) && Paired(s) && node < TOTAL_NODES_AND_SUBNODES
    ensures Polled(s, node, request, air).advanced <==> !AnswerReceived(s, air)
  {
    var t := Heard(s, request, air);
    HeardFacts(s, request, air);
    if AnswerReceived(s, air) {
      AckLast(s, t, air);
      LastLengthOfAcks(t, 0);
    }
  }

  /**
   * With an empty RX FIFO, the usual case between rounds: the serial port
   * gets the node's ACK payload, whole, exactly when one came back, and the
   * RX FIFO is empty again afterwards.
   */
  lemma ForwardsTheAck(s: State, node: nat, request: bv8, air: Air)
    requires Ready(s) && s.rxFifo == [] && Paired(s) && node < TOTAL_NODES_AND_SUBNODES
    ensures var o := Polled(s, node, request, air);
      && o.forwarded == (if AnswerReceived(s, air) then [Clipped(air.ackPayload)] else [])
      && o.chip.rxFifo == []
  {
    var t := Heard(s, request, air);
    HeardFacts(s, request, air);
    SettledEmpties(s, t, node, air);
  }

  /** From an empty RX FIFO, the rest of a pass forwards the one ACK payload, if any, and leaves the FIFO empty. */
  lemma SettledEmpties(s: State, t: State, node: nat, air: Air)
    requires Ready(s) && s.rxFifo == [] && Valid(t) && HeardFrom(s, t, air) && node < TOTAL_NODES_AND_SUBNODES
    ensures var o := Settled(s, t, node, air);
      && o.forwarded == (if AnswerReceived(s, air) then [Clipped(air.ackPayload)] else [])
      && o.chip.rxFifo == []
  {
    if AnswerReceived(s, air) {
      assert t.rxFifo == [RxPayload(0, Clipped(air.ackPayload))];
      assert AcksOnly(t);
      ForwardedWhole(t);
    }
  }

  /** With one retry allowed, a request counts as acknowledged when the air delivered it on the first or the second try. */
  lemma AckedWithOneRetry(s: State, air: Air)
    requires Valid(s) && RetryBudget(s) == 1
    ensures Answered(s, air) <==> air.Delivered? && air.retries <= 1
  {
  }

  // -------------------------------------------------------------- the station

  /** main's globals and locals: the radio, the two receive buffers, the mode, the node cursor, and the serial port. */
  class Station {
    const nrf: Nrf24l01p
    const buffer1: array<bv8>
    const buffer2: array<bv8>
    /** currentBuffer. */
    var current: array<bv8>
    /** mode: 0 for quaternions only, 1 with linear acceleration. */
    var mode: nat
    /** nRF_Node. */
    var node: nat
    /** Everything written to the serial port, one entry per pc.write. */
    var serial: seq<seq<bv8>>

    /**
     * The invariant of the main loop: the chip is ready with one retry
     * allowed and is pointed at the node the cursor names.
     */
    ghost predicate Valid()
      reads this, nrf, nrf.bus
    {
      && nrf.Idle() && Aiming(nrf.bus.chip, node)
      && buffer1.Length == PAYLOAD_MAX_LEN && buffer2.Length == PAYLOAD_MAX_LEN && buffer1 != buffer2
      && (current == buffer1 || current == buffer2)
      && mode <= 1
    }

    /** main's globals as the loop starts, around a radio already set up and aimed at the first node. */
    constructor (nrf: Nrf24l01p)
      requires nrf.Idle() && Aiming(nrf.bus.chip, 0)
      ensures Valid() && this.nrf == nrf && fresh(buffer1) && fresh(buffer2)
      ensures mode == 0 && node == 0 && current == buffer1 && serial == []
    {
      this.nrf := nrf;
      buffer1 := new bv8[PAYLOAD_MAX_LEN];
      buffer2 := new bv8[PAYLOAD_MAX_LEN];
      current := buffer1;
      mode, node, serial := 0, 0, [];
    }

    /** Button_Interrupt: the mode flips. */
    method Button()
      requires Valid()
      modifies this
      ensures Valid() && mode == Toggled(old(mode)) && mode != old(mode)
      ensures node == old(node) && current == old(current) && serial == old(serial)
    {
      mode := Toggled(mode);
    }

    /** One pass of `while (1)`, with `air` standing for what happens to the request on the air. */
    method Round(air: Air) returns (advanced: bool)
      requires Valid()
      modifies this, nrf.bus, buffer1, buffer2
      ensures Valid()
      ensures var o := Polled(old(nrf.bus.chip), old(node), Request(old(mode)), air);
        && nrf.bus.chip == o.chip && node == o.node && advanced == o.advanced
        && serial == old(serial) + o.forwarded
        && current == After(old(current), buffer1, buffer2, |o.forwarded|)
      ensures mode == old(mode)
    {
      var request := Request(mode);
      var rxLen, forwarded, txDone, maxTry := Listen(request, air);
      serial := serial + forwarded;
      advanced := (txDone && rxLen == 0) || maxTry;
      Move(advanced, forwarded);
    }

    /**
     * The request and the drain that follows it when RX_DR was raised:
     * everything in a pass before the cursor moves, after which the pass
     * is the move that txDone, maxTry and rxLen decide.
     */
    method Listen(request: bv8, air: Air) returns (rxLen: bv8, forwarded: seq<seq<bv8>>, txDone: bool, maxTry: bool)
      requires Valid()
      modifies nrf.bus, buffer1, buffer2, this`current
      ensures nrf.Idle() && (current == buffer1 || current == buffer2)
      ensures txDone <==> Answered(old(nrf.bus.chip), air)
      ensures maxTry <==> !txDone
      ensures current == After(old(current), buffer1, buffer2, |forwarded|)
      ensures mode == old(mode) && node == old(node) && serial == old(serial)
      ensures Nrf24Chip.Valid(nrf.bus.chip)
      ensures var o := Polled(old(nrf.bus.chip), node, request, air);
        && o == Moved(nrf.bus.chip, forwarded, node, (txDone && rxLen == 0) || maxTry)
        && Aiming(o.chip, o.node)
    {
      ghost var s := nrf.bus.chip;
      var finished, rx;
      finished, rx, txDone, maxTry := Poll(nrf, request, air);
      assert mode == old(mode) && node == old(node) && serial == old(serial);
      HeardFacts(s, request, air);
      rxLen, forwarded := 0, [];
      if rx {
        current, forwarded, rxLen := Drain(nrf, buffer1, buffer2, current);
        assert mode == old(mode) && node == old(node) && serial == old(serial);
      }
      ListenThenMove(s, node, request, air, nrf.bus.chip, forwarded, rxLen, txDone, maxTry);
    }

    /**
     * `nRF_Node++` with its wrap, then setTXAddress and setRXAddress(0, …)
     * to the new node, when the pass says to move on.
     */
    method Move(advanced: bool, ghost forwarded: seq<seq<bv8>>)
      requires nrf.Idle() && node < TOTAL_NODES_AND_SUBNODES
      modifies nrf.bus, this`node
      ensures nrf.Idle()
      ensures var o := Moved(old(nrf.bus.chip), forwarded, old(node), advanced);
        nrf.bus.chip == o.chip && node == o.node
      ensures current == old(current) && mode == old(mode) && serial == old(serial)
    {
      if advanced {
        node := Next(node);
        AimedAt(nrf.bus.chip, NRF_ADDRESS[node]);
        Aim(nrf, NRF_ADDRESS[node]);
      }
    }
  }
}
