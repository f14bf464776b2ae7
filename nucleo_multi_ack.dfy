/**
 * Nucleo_BS_Multi_ACK: a base station that polls the nodes of its table
 * {0x01, 0x02} in turn. Each pass of the main loop in TX mode selects the node
 * under the cursor, sends the 10-byte request, waits for the transmission to
 * finish, advances the cursor and goes back to listening; the IRQ handler
 * reads the reply and returns the loop to TX mode.
 */
module NucleoMultiAck {
  import opened Nrf24Chip
  import opened Spi
  import opened NodeDriver
  import opened NucleoStation

  const NRF_TOTAL_NODES: bv8 := 2
  const NRF_NODES: seq<bv8> := [0x01, 0x02]

  /** The cursor check at the top of a TX pass: a cursor equal to NRF_TOTAL_NODES restarts at 0. */
  function Polled(node: bv8): (p: bv8)
    requires node <= NRF_TOTAL_NODES
    ensures p < NRF_TOTAL_NODES
    ensures node < NRF_TOTAL_NODES ==> p == node
  {
    if node == NRF_TOTAL_NODES then 0 else node
  }

  /** The cursor after `k` TX passes from main's start (cursor 0). */
  function CursorAfter(k: nat): (node: bv8)
    ensures node <= NRF_TOTAL_NODES
  {
    if k == 0 then 0 else Polled(CursorAfter(k - 1)) + 1
  }

  /** Pass `k` (counting from 0) polls table entry k mod 2: the order is 0, 1, 0, 1, ... */
  lemma {:induction false} RoundRobin(k: nat)
    ensures Polled(CursorAfter(k)) as nat == k % 2
    ensures CursorAfter(k) == if k == 0 then 0 else if k % 2 == 1 then 1 else 2
  {
    if k > 0 {
      RoundRobin(k - 1);
    }
  }

  class BaseStation {
    const bus: Bus
    /** BS_payload_RX. */
    const rx: array<bv8>
    /** 0: TX pass due; 1: listening for the reply. */
    var mode: bv8
    /** nRF_Node, the table cursor. */
    var node: bv8

    ghost predicate Valid()
      reads this, bus
    {
      bus.Valid() && !bus.selected && rx.Length == PAYLOAD_LEN && node <= NRF_TOTAL_NODES
    }

    /** main up to its loop: nRF_Init, then TX mode pending at cursor 0. */
    constructor (bus: Bus)
      requires bus.Valid() && !bus.selected
      modifies bus
      ensures Valid() && this.bus == bus && fresh(rx)
      ensures mode == 0 && node == 0
      ensures bus.chip.regs[RX_PW_P0] == PAYLOAD_LEN as bv8 && bus.chip.regs[SETUP_RETR] == 0xFF
      ensures bus.chip.regs[CONFIG] & PWR_UP != 0 && bus.chip.regs[CONFIG] & PRIM_RX == 0
    {
      this.bus := bus;
      rx := new bv8[PAYLOAD_LEN];
      mode := 0;
      node := 0;
      new;
      Init(bus, PAYLOAD_LEN as bv8);
    }

    /**
     * One pass of the main loop. With mode 0: wrap the cursor, select
     * NRF_NODES[cursor], transmit the request and wait, advance the cursor,
     * set mode 1 and listen. Otherwise nothing happens.
     */
    method Round(air: Air, fuel: nat) returns (done: bool, polled: nat)
      requires Valid()
      modifies this, bus
      ensures Valid()
      ensures old(mode) != 0 ==> mode == old(mode) && node == old(node) && bus.chip == old(bus.chip) && !done
      ensures old(mode) == 0 ==>
        && polled == Polled(old(node)) as nat
        && node == Polled(old(node)) + 1
        && mode == 1
        && bus.chip == EnterRx(Transmit(Queued(EnterTx(Selected(old(bus.chip), NRF_NODES[polled])), BS_PAYLOAD_TX), air))
        && bus.chip.txAddr == AddressBytes(NRF_NODES[polled]) && bus.chip.rxAddr0 == AddressBytes(NRF_NODES[polled])
        && Listening(bus.chip) && bus.ce
        && (done <==> fuel > 0)
    {
      done, polled := false, 0;
      if mode != 0 {
        return;
      }
      done, polled := TxPass(air, fuel);
      mode := 1;
    }

    /** The TX pass proper: wrap the cursor, poll the node under it, advance the cursor, listen. */
    method TxPass(air: Air, fuel: nat) returns (done: bool, polled: nat)
      requires Valid()
      modifies this`node, bus
      ensures Valid()
      ensures polled == Polled(old(node)) as nat
      ensures node == Polled(old(node)) + 1
      ensures bus.chip == EnterRx(Transmit(Queued(EnterTx(Selected(old(bus.chip), NRF_NODES[polled])), BS_PAYLOAD_TX), air))
      ensures bus.chip.txAddr == AddressBytes(NRF_NODES[polled]) && bus.chip.rxAddr0 == AddressBytes(NRF_NODES[polled])
      ensures Listening(bus.chip) && bus.ce
      ensures done <==> fuel > 0
    {
      if node == NRF_TOTAL_NODES {
        node := 0;
      }
      polled := node as nat;
      done := PollAndListen(bus, NRF_NODES[polled], BS_PAYLOAD_TX, air, fuel);
      node := node + 1;
    }

    /** nRF_IRQ_vect: stop listening, read PAYLOAD_LEN bytes, clear RX_DR, back to mode 0. */
    method Irq()
      requires Valid()
      modifies this, bus, rx
      ensures Valid()
      ensures mode == 0 && node == old(node)
      ensures rx[..] == RxHead(old(bus.chip), PAYLOAD_LEN)
      ensures bus.chip == AfterRead(old(bus.chip)) && !bus.ce
    {
      var _ := IrqRead(bus, rx, PAYLOAD_LEN);
      mode := 0;
    }
  }
}
