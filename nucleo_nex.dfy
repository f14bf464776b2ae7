/**
 * Nucleo_BNO_MAX_Nex_nRF: a base station whose node table is built from a
 * Nextion touch display. Two buttons on the display toggle node 0x01 and the
 * e-glove (0x02); the START button appends the enabled ones to the table,
 * clears the buttons and starts polling. The main loop then polls the table in
 * turn, wrapping its cursor when it reaches the table's length; the cursor
 * advances only when a reply arrives.
 *
 * The table, its size and the frame constants live in a header (nrf.h) that is
 * not part of this model: the table is a sequence that only grows, whose
 * entries past its length read as 0 (it is a zero-initialised global and is
 * written only at its current length).
 */
module NucleoNex {
  import opened Nrf24Chip
  import opened Spi
  import opened NodeDriver
  import opened NucleoStation
  import opened NextionFrame

  /** Button_1_State, Button_2_State, nRF_Nodes[0 .. Max_Node_Count) and Start_State. */
  datatype Panel = Panel(button1: bool, button2: bool, nodes: seq<bv8>, start: bool)

  /** The effect of a completed frame whose byte 2 is `key`. */
  function Press(p: Panel, key: bv8): (q: Panel)
    ensures key == START_ID ==> q == Panel(false, false, p.nodes + Entries(p.button1, p.button2), true)
    ensures key != START_ID ==> q.nodes == p.nodes && q.start == p.start
    ensures key != NODE_1_ID && key != EGLOVE_ID && key != START_ID ==> q == p
  {
    if key == NODE_1_ID then p.(button1 := !p.button1)
    else if key == EGLOVE_ID then p.(button2 := !p.button2)
    else if key == START_ID then
      Panel(false, false, p.nodes + Entries(p.button1, p.button2), true)
    else p
  }

  /** Pressing a node button twice leaves everything as it was. */
  lemma ToggleTwice(p: Panel, key: bv8)
    requires key == NODE_1_ID || key == EGLOVE_ID
    ensures Press(Press(p, key), key) == p
  {
  }

  /** Several completed frames, in order. */
  function PressAll(p: Panel, keys: seq<bv8>): Panel
    decreases |keys|
  {
    if keys == [] then p else PressAll(Press(p, keys[0]), keys[1..])
  }

  predicate AllKnown(nodes: seq<bv8>)
  {
    forall i :: 0 <= i < |nodes| ==> KnownNode(nodes[i])
  }

  /**
   * The table is never shortened or rewritten, only appended to, and holds
   * only the ids 0x01 and 0x02; polling, once started, stays started.
   */
  lemma {:induction false} TableOnlyGrows(p: Panel, keys: seq<bv8>)
    requires AllKnown(p.nodes)
    ensures var q := PressAll(p, keys);
      && p.nodes <= q.nodes
      && AllKnown(q.nodes)
      && (q.start <==> p.start || START_ID in keys)
    decreases |keys|
  {
    if keys != [] {
      var p' := Press(p, keys[0]);
      assert AllKnown(p'.nodes);
      TableOnlyGrows(p', keys[1..]);
      assert keys == [keys[0]] + keys[1..];
    }
  }

  /** From the power-on state, node 1, e-glove, START gives the table {0x01, 0x02}; a second START with no button appends nothing. */
  lemma BothNodesOnce()
    ensures PressAll(Panel(false, false, [], false), [NODE_1_ID, EGLOVE_ID, START_ID]).nodes == [NODE_1_ID, EGLOVE_ID]
    ensures PressAll(Panel(false, false, [], false), [NODE_1_ID, EGLOVE_ID, START_ID, START_ID]).nodes == [NODE_1_ID, EGLOVE_ID]
  {
    var p0 := Panel(false, false, [], false);
    var p1 := Press(p0, NODE_1_ID);
    var p2 := Press(p1, EGLOVE_ID);
    var p3 := Press(p2, START_ID);
    assert p3.nodes == [NODE_1_ID, EGLOVE_ID] && !p3.button1 && !p3.button2;
    assert Press(p3, START_ID).nodes == p3.nodes;
    assert PressAll(p2, [START_ID]) == p3;
    assert PressAll(p1, [EGLOVE_ID, START_ID]) == p3;
    assert PressAll(p2, [START_ID, START_ID]) == PressAll(p3, [START_ID]);
    assert PressAll(p1, [EGLOVE_ID, START_ID, START_ID]) == PressAll(p3, [START_ID]);
  }

  /** nRF_Nodes[i]: the entry, or 0 past the entries written so far. */
  function NodeAt(nodes: seq<bv8>, i: nat): (id: bv8)
    ensures i < |nodes| ==> id == nodes[i]
    ensures i >= |nodes| ==> !KnownNode(id)
  {
    if i < |nodes| then nodes[i] else 0
  }

  /** The cursor check at the top of a TX pass: a cursor equal to Max_Node_Count restarts at 0. */
  function Polled(cursor: nat, count: nat): (p: nat)
    ensures 0 < count && cursor <= count ==> p < count
    ensures cursor < count ==> p == cursor
  {
    if cursor == count then 0 else cursor
  }

  /** nRF_Node_Count++ on a uint8_t. */
  function Next8(cursor: nat): nat
  {
    (cursor + 1) % 256
  }

  /** The cursor after `k` passes that each got their reply, starting from 0, with a fixed table of `count` entries. */
  function CursorAfter(k: nat, count: nat): (c: nat)
    requires 0 < count < 256
    ensures c <= count
  {
    if k == 0 then 0 else Next8(Polled(CursorAfter(k - 1, count), count))
  }

  /** With every reply arriving, pass `k` polls entry k mod count: the table is visited in order, over and over. */
  lemma {:induction false} VisitsInOrder(k: nat, count: nat)
    requires 0 < count < 256
    ensures Polled(CursorAfter(k, count), count) == k % count
    ensures CursorAfter(k, count) == if k == 0 then 0 else (k - 1) % count + 1
  {
    if k > 0 {
      VisitsInOrder(k - 1, count);
      StepFrom(k - 1, count, CursorAfter(k - 1, count));
    }
  }

  /** One pass on from a cursor that polled entry j mod count. */
  lemma StepFrom(j: nat, count: nat, c: nat)
    requires 0 < count < 256
    requires Polled(c, count) == j % count
    ensures Next8(Polled(c, count)) == j % count + 1
    ensures Polled(Next8(Polled(c, count)), count) == (j + 1) % count
  {
    NextRemainder(j, count);
  }

  /** The remainder of k + 1 follows from the remainder of k. */
  lemma NextRemainder(k: nat, count: nat)
    requires 0 < count
    ensures (k + 1) % count == if k % count + 1 == count then 0 else k % count + 1
  {
    var q, r := k / count, k % count;
    if r + 1 == count {
      MulSucc(count, q);
      RemainderOf(k + 1, count, q + 1, 0);
    } else {
      RemainderOf(k + 1, count, q, r + 1);
    }
  }

  /** Division with remainder has one answer. */
  lemma RemainderOf(n: int, d: int, q: int, r: int)
    requires 0 < d && 0 <= r < d && n == d * q + r
    ensures n % d == r
  {
    var q' := n / d;
    if q < q' {
      MulLess(d, q, q');
    } else if q' < q {
      MulLess(d, q', q);
    }
  }

  lemma MulSucc(d: int, a: int)
    ensures d * (a + 1) == d * a + d
  {
  }

  lemma {:induction false} MulLess(d: int, a: int, b: int)
    requires 0 < d && a < b
    ensures d * a + d <= d * b
    decreases b - a
  {
    MulSucc(d, b - 1);
    if a < b - 1 {
      MulLess(d, a, b - 1);
    }
  }

  /** nRF_Node_Select, TX mode, TX data, the wait, and nRF_send_Status. */
  method PollAndReport(bus: Bus, id: bv8, air: Air, fuel: nat) returns (done: bool, status: bv8)
    requires bus.Valid() && !bus.selected
    modifies bus
    ensures bus.Valid() && !bus.selected && !bus.ce
    ensures bus.chip == Transmit(Queued(EnterTx(Selected(old(bus.chip), id)), BS_PAYLOAD_TX), air)
    ensures done <==> fuel > 0
    ensures status == TRANSMISSON_OK <==> NodeAnswered(old(bus.chip), id, air)
    ensures status == MESSAGE_LOST <==> !(NodeAnswered(old(bus.chip), id, air))
  {
    RequestOutcome(bus.chip, id, BS_PAYLOAD_TX, air);
    done := PollNode(bus, id, BS_PAYLOAD_TX, air, fuel);
    status := SendStatus(bus);
  }

  class BaseStation {
    const bus: Bus
    /** BS_payload_RX. */
    const rx: array<bv8>
    /** Nex_Buffer. */
    const buffer: array<bv8>
    /** Nex_RX_Count. */
    var rxCount: int
    var button1: bool
    var button2: bool
    var nodes: seq<bv8>
    var start: bool
    /** nRF_Mode: 0 TX pass due, 1 listening. */
    var mode: bv8
    /** nRF_Node_Count, the table cursor (a uint8_t). */
    var cursor: nat

    ghost predicate Valid()
      reads this, bus
    {
      bus.Valid() && !bus.selected && rx.Length == PAYLOAD_LEN && buffer.Length == NEX_BUFFER_LEN
      && 0 <= rxCount < NEX_UART_RX_LEN && cursor < 256
    }

    function Display(): Panel
      reads this
    {
      Panel(button1, button2, nodes, start)
    }

    function Frame(): Receiver
      reads this, buffer
    {
      Receiver(buffer[..], rxCount)
    }

    /** main up to its loop: nRF_Init with PAYLOAD_LEN, mode 0, cursor 0; the globals start at zero. */
    constructor (bus: Bus)
      requires bus.Valid() && !bus.selected
      modifies bus
      ensures Valid() && this.bus == bus && fresh(rx) && fresh(buffer)
      ensures mode == 0 && cursor == 0 && rxCount == 0 && Display() == Panel(false, false, [], false)
      ensures bus.chip.regs[RX_PW_P0] == PAYLOAD_LEN as bv8
    {
      this.bus := bus;
      rx := new bv8[PAYLOAD_LEN];
      buffer := new bv8[NEX_BUFFER_LEN](_ => 0);
      rxCount := 0;
      button1, button2, nodes, start := false, false, [], false;
      mode := 0;
      cursor := 0;
      new;
      Init(bus, PAYLOAD_LEN as bv8);
    }

    /** callback: one byte from the display's UART. */
    method Callback(c: bv8)
      requires Valid() && rx != buffer
      modifies this`rxCount, this`button1, this`button2, this`nodes, this`start, buffer
      ensures Valid()
      ensures Frame() == Store(old(Frame()), c)
      ensures Display() == if Completes(old(Frame())) then Press(old(Display()), buffer[2]) else old(Display())
    {
      buffer[rxCount] := c;
      rxCount := rxCount + 1;
      if rxCount == NEX_UART_RX_LEN {
        rxCount := 0;
        if buffer[2] == NODE_1_ID {
          button1 := !button1;
        } else if buffer[2] == EGLOVE_ID {
          button2 := !button2;
        } else if buffer[2] == START_ID {
          if button1 {
            nodes := nodes + [NODE_1_ID];
          }
          if button2 {
            nodes := nodes + [EGLOVE_ID];
          }
          button1 := false;
          button2 := false;
          start := true;
        }
      }
    }

    /**
     * One pass of the main loop. With polling started and mode 0: wrap the
     * cursor, select the table entry under it, transmit the request and wait,
     * read the outcome, set mode 1 and listen. Otherwise nothing happens.
     */
    method Round(air: Air, fuel: nat) returns (done: bool, status: bv8)
      requires Valid()
      modifies this`mode, this`cursor, bus
      ensures Valid()
      ensures !(start && old(mode) == 0) ==>
        mode == old(mode) && cursor == old(cursor) && bus.chip == old(bus.chip) && !done
      ensures start && old(mode) == 0 ==>
        && cursor == Polled(old(cursor), |nodes|)
        && mode == 1
        && bus.chip == EnterRx(Transmit(Queued(EnterTx(Selected(old(bus.chip), NodeAt(nodes, cursor))), BS_PAYLOAD_TX), air))
        && Listening(bus.chip) && bus.ce
        && (done <==> fuel > 0)
        && (status == TRANSMISSON_OK <==> NodeAnswered(old(bus.chip), NodeAt(nodes, cursor), air))
        && (status == MESSAGE_LOST <==> !(NodeAnswered(old(bus.chip), NodeAt(nodes, cursor), air)))
    {
      done, status := false, STILL_SENDING;
      if !(start && mode == 0) {
        return;
      }
      done, status := PassAndListen(air, fuel);
      mode := 1;
    }

    /** The TX pass, then the radio back to listening. */
    method PassAndListen(air: Air, fuel: nat) returns (done: bool, status: bv8)
      requires Valid()
      modifies this`cursor, bus
      ensures Valid()
      ensures cursor == Polled(old(cursor), |nodes|)
      ensures bus.chip == EnterRx(Transmit(Queued(EnterTx(Selected(old(bus.chip), NodeAt(nodes, cursor))), BS_PAYLOAD_TX), air))
      ensures bus.ce
      ensures done <==> fuel > 0
      ensures status == TRANSMISSON_OK <==> NodeAnswered(old(bus.chip), NodeAt(nodes, cursor), air)
      ensures status == MESSAGE_LOST <==> !(NodeAnswered(old(bus.chip), NodeAt(nodes, cursor), air))
    {
      done, status := TxPass(air, fuel);
      Listen(bus);
    }

    /** The TX pass proper: wrap the cursor, then select, transmit, wait and report. */
    method TxPass(air: Air, fuel: nat) returns (done: bool, status: bv8)
      requires Valid()
      modifies this`cursor, bus
      ensures Valid()
      ensures cursor == Polled(old(cursor), |nodes|)
      ensures bus.chip == Transmit(Queued(EnterTx(Selected(old(bus.chip), NodeAt(nodes, cursor))), BS_PAYLOAD_TX), air)
      ensures done <==> fuel > 0
      ensures status == TRANSMISSON_OK <==> NodeAnswered(old(bus.chip), NodeAt(nodes, cursor), air)
      ensures status == MESSAGE_LOST <==> !(NodeAnswered(old(bus.chip), NodeAt(nodes, cursor), air))
    {
      if cursor == |nodes| {
        cursor := 0;
      }
      done, status := PollAndReport(bus, NodeAt(nodes, cursor), air, fuel);
    }

    /** nRF_IRQ_vect: stop listening, read the reply, clear RX_DR, advance the cursor (8-bit), back to mode 0. */
    method Irq()
      requires Valid()
      modifies this`mode, this`cursor, bus, rx
      ensures Valid()
      ensures mode == 0 && cursor == Next8(old(cursor))
      ensures rx[..] == RxHead(old(bus.chip), PAYLOAD_LEN)
      ensures bus.chip == AfterRead(old(bus.chip)) && !bus.ce
    {
      var _ := IrqRead(bus, rx, PAYLOAD_LEN);
      cursor := (cursor + 1) % 256;
      mode := 0;
    }
  }
}
