/**
 * Frames from the Nextion touch display, as the UART receive callbacks of
 * the Nucleo base stations assemble them: every received byte is stored at
 * the running count, and when the count reaches NEX_UART_RX_LEN it restarts
 * at 0 and byte 2 of the frame (the component id) is interpreted.
 */
module NextionFrame {
  import opened NucleoStation

  /** Frame length, and the component ids carried in byte 2 (the node-1 button carries NODE_1_ID). */
  const NEX_UART_RX_LEN: int := 7
  const EGLOVE_ID: bv8 := 0x02
  const START_ID: bv8 := 0x03

  /** Nex_Buffer has room for ten bytes. */
  const NEX_BUFFER_LEN: nat := 10

  /** Nex_Buffer and Nex_RX_Count. */
  datatype Receiver = Receiver(buffer: seq<bv8>, count: int)

  predicate Ready(r: Receiver)
  {
    |r.buffer| == NEX_BUFFER_LEN && 0 <= r.count < NEX_UART_RX_LEN
  }

  /** One received byte: stored at the count, the count advanced, and reset to 0 when a frame is complete. */
  function Store(r: Receiver, c: bv8): (t: Receiver)
    requires Ready(r)
    ensures Ready(t)
    ensures t.count == (r.count + 1) % NEX_UART_RX_LEN
  {
    var count := r.count + 1;
    Receiver(r.buffer[r.count := c], if count == NEX_UART_RX_LEN then 0 else count)
  }

  /** Whether the byte that `Store` just took completed a frame. */
  predicate Completes(r: Receiver)
  {
    r.count + 1 == NEX_UART_RX_LEN
  }

  /** Several bytes received in order. */
  function StoreAll(r: Receiver, bytes: seq<bv8>): (t: Receiver)
    requires Ready(r)
    ensures Ready(t)
    decreases |bytes|
  {
    if bytes == [] then r else StoreAll(Store(r, bytes[0]), bytes[1..])
  }

  /** Bytes that do not complete a frame land at consecutive positions and nothing is interpreted. */
  lemma {:induction false} Accumulate(r: Receiver, bytes: seq<bv8>)
    requires Ready(r) && r.count + |bytes| < NEX_UART_RX_LEN
    ensures StoreAll(r, bytes).count == r.count + |bytes|
    ensures StoreAll(r, bytes).buffer
         == r.buffer[..r.count] + bytes + r.buffer[r.count + |bytes|..]
    ensures forall i :: 0 <= i < |bytes| ==> !Completes(StoreAll(r, bytes[..i]))
    decreases |bytes|
  {
    if bytes != [] {
      var r' := Store(r, bytes[0]);
      Accumulate(r', bytes[1..]);
      assert r'.buffer == r.buffer[..r.count] + [bytes[0]] + r.buffer[r.count + 1..];
      forall i | 0 <= i < |bytes|
        ensures !Completes(StoreAll(r, bytes[..i]))
      {
        if i > 0 {
          assert bytes[..i][0] == bytes[0] && bytes[..i][1..] == bytes[1..][..i - 1];
        }
      }
    }
  }

  /**
   * A whole frame received from the start: the first six bytes only fill the
   * buffer, the seventh completes the frame, and byte 2 of the buffer is then
   * byte 2 of the frame.
   */
  lemma FullFrame(r: Receiver, frame: seq<bv8>)
    requires Ready(r) && r.count == 0 && |frame| == NEX_UART_RX_LEN
    ensures var before := StoreAll(r, frame[..6]);
      && before.count == 6 && Completes(before)
      && Store(before, frame[6]).count == 0
      && Store(before, frame[6]).buffer[..7] == frame
      && Store(before, frame[6]).buffer[2] == frame[2]
  {
    Accumulate(r, frame[..6]);
    var before := StoreAll(r, frame[..6]);
    assert before.buffer[..7] == frame[..6] + [before.buffer[6]];
    assert Store(before, frame[6]).buffer[..7] == frame[..6] + [frame[6]];
  }

  /** The node-table entries a START frame appends: 0x01 if button 1 is on, then 0x02 if button 2 is on. */
  function Entries(button1: bool, button2: bool): (e: seq<bv8>)
    ensures |e| <= 2
    ensures NODE_1_ID in e <==> button1
    ensures EGLOVE_ID in e <==> button2
    ensures button1 ==> e[0] == NODE_1_ID
  {
    (if button1 then [NODE_1_ID] else []) + (if button2 then [EGLOVE_ID] else [])
  }
}
