/**
 * The earlier Nextion receiver (Nucleo_UART_RX_INT): the same frame handling
 * as the Nextion base station, but the node table is a five-entry array and
 * its fill count Node_Count goes back to 0 at the end of every START frame.
 * Each START therefore rewrites the table from entry 0 instead of appending.
 */
module NucleoUartRx {
  import opened NucleoStation
  import opened NextionFrame

  /** nRF_Nodes has five entries. */
  const NODE_TABLE_LEN: nat := 5

  /** The table after a START frame: the enabled ids written from entry 0, the other entries kept. */
  function Rewritten(table: seq<bv8>, button1: bool, button2: bool): (t: seq<bv8>)
    requires |table| == NODE_TABLE_LEN
    ensures |t| == NODE_TABLE_LEN
    ensures t[..|Entries(button1, button2)|] == Entries(button1, button2)
    ensures forall i :: |Entries(button1, button2)| <= i < NODE_TABLE_LEN ==> t[i] == table[i]
  {
    Entries(button1, button2) + table[|Entries(button1, button2)|..]
  }

  /**
   * A START writes at most entries 0 and 1, so the table never overflows; a
   * START with only the e-glove enabled overwrites entry 0 even when node 1
   * was written there before.
   */
  lemma StartStaysInTable(table: seq<bv8>, button1: bool, button2: bool)
    requires |table| == NODE_TABLE_LEN
    ensures forall i :: 2 <= i < NODE_TABLE_LEN ==> Rewritten(table, button1, button2)[i] == table[i]
    ensures !button1 && !button2 ==> Rewritten(table, button1, button2) == table
    ensures Rewritten(Rewritten(table, true, false), false, true)[0] == EGLOVE_ID
  {
    assert |Entries(button1, button2)| <= 2;
    assert Entries(false, true) == [EGLOVE_ID];
  }

  class Receiver {
    /** Nex_Buffer. */
    const buffer: array<bv8>
    /** nRF_Nodes. */
    const nodes: array<bv8>
    /** Nex_RX_Count. */
    var rxCount: int
    /** Node_Count. */
    var nodeCount: int
    var button1: bool
    var button2: bool

    ghost predicate Valid()
      reads this
    {
      buffer.Length == NEX_BUFFER_LEN && nodes.Length == NODE_TABLE_LEN && buffer != nodes
      && 0 <= rxCount < NEX_UART_RX_LEN && nodeCount == 0
    }

    function Frame(): NextionFrame.Receiver
      reads this, buffer
    {
      NextionFrame.Receiver(buffer[..], rxCount)
    }

    /** The globals as the program starts: all zero. */
    constructor ()
      ensures Valid() && fresh(buffer) && fresh(nodes)
      ensures rxCount == 0 && !button1 && !button2 && nodes[..] == seq(NODE_TABLE_LEN, _ => 0)
    {
      buffer := new bv8[NEX_BUFFER_LEN](_ => 0);
      nodes := new bv8[NODE_TABLE_LEN](_ => 0);
      rxCount := 0;
      nodeCount := 0;
      button1, button2 := false, false;
    }

    /**
     * callback: one byte from the display's UART. When it completes a frame,
     * byte 2 toggles a button or, for START, rewrites the table from entry 0
     * and clears both buttons.
     */
    method Callback(c: bv8)
      requires Valid()
      modifies this, buffer, nodes
      ensures Valid()
      ensures Frame() == Store(old(Frame()), c)
      ensures var key := buffer[2];
        && (Completes(old(Frame())) && key == START_ID ==>
             nodes[..] == Rewritten(old(nodes[..]), old(button1), old(button2)) && !button1 && !button2)
        && (Completes(old(Frame())) && key == NODE_1_ID ==>
             nodes[..] == old(nodes[..]) && button1 == !old(button1) && button2 == old(button2))
        && (Completes(old(Frame())) && key == EGLOVE_ID ==>
             nodes[..] == old(nodes[..]) && button1 == old(button1) && button2 == !old(button2))
        && (!Completes(old(Frame())) || (key != START_ID && key != NODE_1_ID && key != EGLOVE_ID) ==>
             nodes[..] == old(nodes[..]) && button1 == old(button1) && button2 == old(button2))
    {
      buffer[rxCount] := c;
      rxCount := rxCount + 1;
      if rxCount == NEX_UART_RX_LEN {
        rxCount := 0;
        if buffer[2] == NODE_1_ID {
          button1 := !button1;
        } else if buffer[2] == EGLOVE_ID {
          button2 := !button2;
        } else if buffer[2] == START_ID {
          if button1 {
            nodes[nodeCount] := NODE_1_ID;
            nodeCount := nodeCount + 1;
          }
          if button2 {
            nodes[nodeCount] := EGLOVE_ID;
            nodeCount := nodeCount + 1;
          }
          button1 := false;
          button2 := false;
          nodeCount := 0;
        }
      }
    }
  }
}
