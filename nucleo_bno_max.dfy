/**
 * The older Nucleo_BNO_MAX_nRF base station: the Multi_ACK polling loop with
 * a one-entry node table {0x01}, so the cursor check resets the cursor on
 * every pass and node 0x01 is polled every time.
 */
module NucleoBnoMax {
  import opened Nrf24Chip
  import opened Spi
  import opened NodeDriver
  import opened NucleoStation

  const NRF_TOTAL_NODES: bv8 := 1
  const NRF_NODES: seq<bv8> := [0x01]

  /** The cursor check at the top of a TX pass. */
  function Polled(node: bv8): (p: bv8)
    requires node <= NRF_TOTAL_NODES
    ensures p < NRF_TOTAL_NODES
  {
    if node == NRF_TOTAL_NODES then 0 else node
  }

  /** The cursor after `k` passes from main's start (cursor 0). */
  function CursorAfter(k: nat): (node: bv8)
    ensures node <= NRF_TOTAL_NODES
  {
    if k == 0 then 0 else Polled(CursorAfter(k - 1)) + 1
  }

  /** Every pass polls node 0x01; from the first pass on the cursor is 1 when a pass ends. */
  lemma {:induction false} AlwaysNodeOne(k: nat)
    ensures NRF_NODES[Polled(CursorAfter(k))] == NODE_1_ID
    ensures CursorAfter(k) == if k == 0 then 0 else 1
  {
    if k > 0 {
      AlwaysNodeOne(k - 1);
    }
  }

  class BaseStation {
    const bus: Bus
    const rx: array<bv8>
    var mode: bv8
    var node: bv8

    ghost predicate Valid()
      reads this, bus
    {
      bus.Valid() && !bus.selected && rx.Length == PAYLOAD_LEN && node <= NRF_TOTAL_NODES
    }

    /** main up to its loop: nRF_Init (RX_PW_P0 written as the literal 0x0A), mode 0, cursor 0. */
    constructor (bus: Bus)
      requires bus.Valid() && !bus.selected
      modifies bus
      ensures Valid() && this.bus == bus && fresh(rx)
      ensures mode == 0 && node == 0
      ensures bus.chip.regs[RX_PW_P0] == 0x0A && bus.chip.regs[RF_SETUP] == 0x26
    {
      this.bus := bus;
      rx := new bv8[PAYLOAD_LEN];
      mode := 0;
      node := 0;
      new;
      Init(bus, 0x0A);
    }

    /** One pass of the main loop: with mode 0, poll node 0x01, advance, mode 1, listen. */
    method Round(air: Air, fuel: nat) returns (done: bool)
      requires Valid()
      modifies this, bus
      ensures Valid()
      ensures old(mode) != 0 ==> mode == old(mode) && node == old(node) && bus.chip == old(bus.chip) && !done
      ensures old(mode) == 0 ==>
        && node == 1 && mode == 1
        && bus.chip == EnterRx(Transmit(Queued(EnterTx(Selected(old(bus.chip), NODE_1_ID)), BS_PAYLOAD_TX), air))
        && bus.chip.txAddr == N1_ADDRESS && bus.chip.rxAddr0 == N1_ADDRESS
        && Listening(bus.chip) && bus.ce
        && (done <==> fuel > 0)
    {
      done := false;
      if mode != 0 {
        return;
      }
      if node == NRF_TOTAL_NODES {
        node := 0;
      }
      done := PollAndListen(bus, NRF_NODES[node], BS_PAYLOAD_TX, air, fuel);
      node := node + 1;
      mode := 1;
    }

    /** nRF_IRQ_vect: stop listening, read the reply, clear RX_DR, back to mode 0. */
    method Irq()
      requires Valid()
      modifies this, bus, rx
      ensures Valid()
      ensures mode == 0 && node == old(node)
      ensures rx[..] == RxHead(old(bus.chip), PAYLOAD_LEN)
      ensures bus.chip == AfterRead(old(bus.chip)) && !bus.ce
    {
      var _ := IrqRead(bus, rx, PAYLOAD_LEN);
      mode := 0;
    }
  }
}
