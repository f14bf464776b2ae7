/**
 * The host-side reader of the base station's serial stream
 * (Code/Python_Reader/read_glove.py, and its predecessor
 * old_data/Python_Reader/read_glove_v2.py, which frames the stream the same
 * way). The stream is a sequence of packets, each a two-byte header and a
 * payload whose length the header's mode, device and packet number fix; a
 * frame of packets starts with the sync bytes AB CD. The reader finds the
 * first sync, then strips one header and one payload after the other, falls
 * back to a fresh sync search whenever a header looks wrong, and writes one
 * row per IMU sample into its data table, keyed by a sample ID built from
 * the node, packet and sample number.
 *
 * Only the framing and the bookkeeping are modelled: the quaternion and
 * acceleration values in a row are floating point and are left out, so a
 * row is represented by its sample ID alone.
 */
module GloveReader {

  datatype Option<T> = None | Some(value: T)

  /** syncBytes: the two bytes that start a frame of packets. */
  const SYNC_0: bv8 := 0xAB
  const SYNC_1: bv8 := 0xCD

  /** The device kinds a header can name. */
  const SINGLE_NODE_ID: bv8 := 0
  const GLOVE_V1_ID: bv8 := 1
  const GLOVE_V2_ID: bv8 := 2

  /** Which of the two scripts is meant where they store rows differently. */
  datatype Script = ReadGlove | ReadGloveV2

  // ---------------------------------------------------------------------
  // Packet layout and header checks
  // ---------------------------------------------------------------------

  /** The (packetLength, numSamples) pair getPacketLength returns. */
  datatype Layout = Layout(bytes: nat, samples: nat)

  /**
   * getPacketLength: the payload layout of a (mode, device, packet) triple,
   * None where the script returns -1. Devices 0 and 1 send one packet per
   * sample set, so their packet number is ignored.
   */
  function PacketLength(mode: bv8, deviceId: bv8, packetId: bv8): (r: Option<Layout>)
    ensures r.Some? <==>
      mode <= 1 &&
      (deviceId <= GLOVE_V1_ID ||
       (deviceId == GLOVE_V2_ID && 1 <= packetId && packetId <= (if mode == 0 then 2 else 3)))
    ensures r.Some? ==> 1 <= r.value.samples <= r.value.bytes
  {
    if mode == 0 then
      if deviceId == SINGLE_NODE_ID then Some(Layout(8, 1))
      else if deviceId == GLOVE_V1_ID then Some(Layout(18, 3))
      else if deviceId == GLOVE_V2_ID then
        if packetId == 1 then Some(Layout(24, 4))
        else if packetId == 2 then Some(Layout(18, 3))
        else None
      else None
    else if mode == 1 then
      if deviceId == SINGLE_NODE_ID then Some(Layout(14, 1))
      else if deviceId == GLOVE_V1_ID then Some(Layout(24, 2))
      else if deviceId == GLOVE_V2_ID then
        if packetId == 1 then Some(Layout(24, 2))
        else if packetId == 2 then Some(Layout(30, 3))
        else if packetId == 3 then Some(Layout(30, 3))
        else None
      else None
    else None
  }

  /** Single nodes and glove_v1 have one layout per mode, whatever the packet number. */
  lemma PacketIdIgnored(mode: bv8, deviceId: bv8, p: bv8, q: bv8)
    requires deviceId <= GLOVE_V1_ID
    ensures PacketLength(mode, deviceId, p) == PacketLength(mode, deviceId, q)
  {
  }

  /** isPacketValid: the four rejection rules, in the script's order. */
  predicate IsPacketValid(mode: bv8, deviceId: bv8, packetId: bv8)
  {
    if mode > 1 then false
    else if packetId == 0 || packetId > 3 then false
    else if deviceId == SINGLE_NODE_ID && packetId > 1 then false
    else if mode == 1 && packetId > 2 then false
    else true
  }

  /**
   * The header check the reader needs: isPacketValid, and in addition a
   * known device and, for a mode-0 glove_v2, no third packet. These are
   * exactly the headers getPacketLength has a layout for (AcceptedIffLength).
   */
  predicate Accepted(mode: bv8, deviceId: bv8, packetId: bv8)
  {
    IsPacketValid(mode, deviceId, packetId) && deviceId <= GLOVE_V2_ID &&
    !(mode == 0 && deviceId == GLOVE_V2_ID && packetId == 3)
  }

  /** The header check as written lets through triples that have no layout. */
  lemma ValidWithoutLength()
    ensures IsPacketValid(0, 3, 1) && PacketLength(0, 3, 1).None?
    ensures IsPacketValid(1, 7, 2) && PacketLength(1, 7, 2).None?
    ensures IsPacketValid(0, GLOVE_V2_ID, 3) && PacketLength(0, GLOVE_V2_ID, 3).None?
  {
  }

  /** The corrected check accepts exactly the valid triples with a layout. */
  lemma AcceptedIffLength(mode: bv8, deviceId: bv8, packetId: bv8)
    ensures Accepted(mode, deviceId, packetId) <==>
      IsPacketValid(mode, deviceId, packetId) && PacketLength(mode, deviceId, packetId).Some?
    ensures Accepted(mode, deviceId, packetId) ==> !(mode == 1 && packetId == 3)
  {
  }

  /** The mode-1 third-packet layout is never reached: the header check rejects it. */
  lemma ThirdPacketUnreachable(deviceId: bv8)
    ensures PacketLength(1, deviceId, 3).Some? <==> deviceId <= GLOVE_V2_ID
    ensures !IsPacketValid(1, deviceId, 3)
  {
  }

  // ---------------------------------------------------------------------
  // Headers
  // ---------------------------------------------------------------------

  /** The five fields of a two-byte packet header. */
  datatype Header = Header(nodeId: bv8, deviceId: bv8, mode: bv8, sampleId: bv8, packetId: bv8)

  /** A header whose fields fit their bit widths. */
  predicate Fits(h: Header)
  {
    h.nodeId < 16 && h.deviceId < 8 && h.mode < 8 && h.sampleId < 4 && h.packetId < 4
  }

  /** Bit 3 of the first byte and bit 4 of the second are reserved and must be 0. */
  predicate ReservedClear(h0: bv8, h1: bv8)
  {
    h0 & 0x08 == 0 && h1 & 0x10 == 0
  }

  /** The header decode of the receive loop. */
  function Decode(h0: bv8, h1: bv8): (h: Header)
    ensures Fits(h)
  {
    Header(h0 >> 4, h0 & 0x07, h1 >> 5, (h1 >> 2) & 0x03, h1 & 0x03)
  }

  /** The header a sender puts in front of a payload. */
  function Encode(h: Header): (b: seq<bv8>)
    ensures |b| == 2
  {
    [(h.nodeId << 4) | h.deviceId, (h.mode << 5) | (h.sampleId << 2) | h.packetId]
  }

  /** Decoding a header with clear reserved bits and encoding it again gives the two bytes back. */
  lemma DecodeEncode(h0: bv8, h1: bv8)
    requires ReservedClear(h0, h1)
    ensures Encode(Decode(h0, h1)) == [h0, h1]
  {
  }

  /** Every header that fits its fields is encoded with clear reserved bits and decodes to itself. */
  lemma EncodeDecode(h: Header)
    requires Fits(h)
    ensures ReservedClear(Encode(h)[0], Encode(h)[1])
    ensures Decode(Encode(h)[0], Encode(h)[1]) == h
  {
  }

  // ---------------------------------------------------------------------
  // Samples in a payload
  // ---------------------------------------------------------------------

  /** Bytes per glove sample: a vector quaternion, plus an acceleration in mode 1. */
  function SampleSize(mode: bv8): (n: nat)
    ensures n == 6 || n == 12
  {
    if mode == 0 then 6 else 12
  }

  /** Python slicing: out-of-range bounds are clipped to the sequence. */
  function PySlice(s: seq<bv8>, lo: nat, hi: nat): (r: seq<bv8>)
    ensures |r| == if lo >= hi || lo >= |s| then 0 else (if hi <= |s| then hi else |s|) - lo
  {
    if lo >= hi || lo >= |s| then [] else s[lo..if hi <= |s| then hi else |s|]
  }

  /**
   * The glove sample loops as written unpack numSamples slices of
   * SampleSize bytes each. For the second mode-1 glove_v2 packet that is
   * three 12-byte slices of a 30-byte payload: the third slice holds only
   * the 6 trailing bytes, so its unpack raises.
   */
  lemma SecondPacketOverrun(packet: seq<bv8>)
    requires |packet| == PacketLength(1, GLOVE_V2_ID, 2).value.bytes
    ensures IsPacketValid(1, GLOVE_V2_ID, 2)
    ensures PacketLength(1, GLOVE_V2_ID, 2).value.samples == 3
    ensures |PySlice(packet, 12 * 2, 12 * 3)| == 6 < SampleSize(1)
  {
  }

  /**
   * The number of whole samples a glove payload holds; the second mode-1
   * glove_v2 packet carries two of them and the quaternion of a third.
   */
  function Whole(mode: bv8, l: Layout): nat
  {
    l.bytes / SampleSize(mode)
  }

  /** Whether a glove payload ends in the 6-byte quaternion of a split sample. */
  predicate HasTrailer(mode: bv8, deviceId: bv8, packetId: bv8)
  {
    mode == 1 && deviceId == GLOVE_V2_ID && packetId >= 2
  }

  /**
   * The glove payloads are tiled by whole samples, plus the 6-byte trailer
   * where one is carried; the whole-sample count is numSamples except where
   * the trailer is counted as a sample. Mode 0 payloads are 6 bytes per
   * sample, mode-1 glove_v1 and first glove_v2 payloads 12 per sample, and
   * the later mode-1 glove_v2 payloads 30 bytes.
   */
  lemma SamplesTile(mode: bv8, deviceId: bv8, packetId: bv8)
    requires deviceId != SINGLE_NODE_ID && PacketLength(mode, deviceId, packetId).Some?
    ensures var l := PacketLength(mode, deviceId, packetId).value;
      l.bytes == Whole(mode, l) * SampleSize(mode) + (if HasTrailer(mode, deviceId, packetId) then 6 else 0) &&
      Whole(mode, l) == (if HasTrailer(mode, deviceId, packetId) then l.samples - 1 else l.samples)
    ensures HasTrailer(mode, deviceId, packetId) ==> PacketLength(mode, deviceId, packetId).value.bytes == 30
  {
  }

  /** Every whole-sample slice of a glove payload lies inside the payload. */
  lemma WholeSamplesFit(mode: bv8, deviceId: bv8, packetId: bv8, packet: seq<bv8>, i: nat)
    requires deviceId != SINGLE_NODE_ID && PacketLength(mode, deviceId, packetId).Some?
    requires |packet| == PacketLength(mode, deviceId, packetId).value.bytes
    requires i < Whole(mode, PacketLength(mode, deviceId, packetId).value)
    ensures |PySlice(packet, SampleSize(mode) * i, SampleSize(mode) * (i + 1))| == SampleSize(mode)
  {
    var l := PacketLength(mode, deviceId, packetId).value;
    SamplesTile(mode, deviceId, packetId);
    assert SampleSize(mode) * (i + 1) <= Whole(mode, l) * SampleSize(mode);
  }

  /**
   * The row ID of sample i of a packet: the node in the high nibble and the
   * sample's place in the node's sample set below it. A mode-0 glove_v2
   * numbers the second packet's samples from 4, every other device from
   * numSamples·(packetId-1).
   */
  function SampleId(h: Header, l: Layout, i: nat): int
  {
    var base := h.nodeId as int * 16;
    if h.mode == 0 && h.deviceId == GLOVE_V2_ID then base + 4 * (h.packetId as int - 1) + i
    else base + l.samples * (h.packetId as int - 1) + i
  }

  /** A sample ID of an accepted header keeps the node in its high nibble. */
  lemma SampleIdKeepsNode(h: Header, i: nat)
    requires Fits(h) && Accepted(h.mode, h.deviceId, h.packetId)
    requires i < PacketLength(h.mode, h.deviceId, h.packetId).value.samples
    ensures var id := SampleId(h, PacketLength(h.mode, h.deviceId, h.packetId).value, i);
      id / 16 == h.nodeId as int && id % 16 < 9
  {
  }

  /**
   * Two samples of one node and device in one mode get the same ID only if
   * they are the same sample of the same packet.
   */
  lemma SampleIdsDistinct(h: Header, g: Header, i: nat, j: nat)
    requires Fits(h) && Accepted(h.mode, h.deviceId, h.packetId)
    requires Fits(g) && Accepted(g.mode, g.deviceId, g.packetId)
    requires h.nodeId == g.nodeId && h.deviceId == g.deviceId && h.mode == g.mode
    requires i < PacketLength(h.mode, h.deviceId, h.packetId).value.samples
    requires j < PacketLength(g.mode, g.deviceId, g.packetId).value.samples
    requires SampleId(h, PacketLength(h.mode, h.deviceId, h.packetId).value, i) ==
             SampleId(g, PacketLength(g.mode, g.deviceId, g.packetId).value, j)
    ensures h.packetId == g.packetId && i == j
  {
  }

  // ---------------------------------------------------------------------
  // The byte stream
  // ---------------------------------------------------------------------

  /** The bytes of a run of serial reads, in order. */
  function Concat(chunks: seq<seq<bv8>>): (s: seq<bv8>)
  {
    if chunks == [] then [] else chunks[0] + Concat(chunks[1..])
  }

  /** AB CD starts at offset j of s. */
  predicate SyncAt(s: seq<bv8>, j: nat)
  {
    j + 1 < |s| && s[j] == SYNC_0 && s[j + 1] == SYNC_1
  }

  /** bytes.find(syncBytes): the offset of the first AB CD, None where the script gets -1. */
  function FindSync(s: seq<bv8>): (r: Option<nat>)
    ensures r.Some? ==> r.value + 2 <= |s|
    decreases |s|
  {
    if |s| < 2 then None
    else if s[0] == SYNC_0 && s[1] == SYNC_1 then Some(0)
    else
      match FindSync(s[1..])
      case None => None
      case Some(k) => Some(k + 1)
  }

  /** FindSync finds the first AB CD, and finds none only where there is none. */
  lemma {:induction false} FindSyncFirst(s: seq<bv8>)
    ensures FindSync(s).Some? ==> SyncAt(s, FindSync(s).value)
    ensures FindSync(s).Some? ==> forall j: nat :: j < FindSync(s).value ==> !SyncAt(s, j)
    ensures FindSync(s).None? ==> forall j: nat :: !SyncAt(s, j)
    decreases |s|
  {
    if |s| >= 2 && !(s[0] == SYNC_0 && s[1] == SYNC_1) {
      FindSyncFirst(s[1..]);
      assert forall j: nat | 1 <= j :: SyncAt(s, j) <==> SyncAt(s[1..], j - 1);
      assert !SyncAt(s, 0);
    }
  }

  /** What is left of s once everything through its first AB CD is dropped. */
  function AfterSync(s: seq<bv8>): seq<bv8>
    requires FindSync(s).Some?
  {
    s[FindSync(s).value + 2..]
  }

  /** The buffer, the reads still to come, and whether a wait loop met its goal. */
  datatype Intake = Intake(inData: seq<bv8>, port: seq<seq<bv8>>, done: bool)

  /**
   * The synchronisation loop: read, look for AB CD in everything buffered
   * so far, and on success drop everything through it. The port counts as
   * open while reads remain.
   */
  function SyncFrom(inData: seq<bv8>, port: seq<seq<bv8>>): (r: Intake)
    ensures |r.port| <= |port| && (port != [] ==> |r.port| < |port|)
    ensures r.port == port[|port| - |r.port|..]
    decreases |port|
  {
    if port == [] then Intake(inData, [], false)
    else
      var b := inData + port[0];
      match FindSync(b)
      case Some(p) => Intake(b[p + 2..], port[1..], true)
      case None => SyncFrom(b, port[1..])
  }

  /** Everything buffered once the first m reads have come in. */
  function Buffered(inData: seq<bv8>, port: seq<seq<bv8>>, m: nat): seq<bv8>
    requires m <= |port|
  {
    inData + Concat(port[..m])
  }

  /** The first read moved into the buffer. */
  lemma BufferedStep(inData: seq<bv8>, port: seq<seq<bv8>>, m: nat)
    requires 0 < m <= |port|
    ensures Buffered(inData, port, m) == Buffered(inData + port[0], port[1..], m - 1)
  {
    assert port[..m][1..] == port[1..][..m - 1];
  }

  /** A synchronisation that succeeds keeps what follows the first AB CD buffered by then. */
  lemma {:induction false} SyncFound(inData: seq<bv8>, port: seq<seq<bv8>>)
    requires SyncFrom(inData, port).done
    ensures var r := SyncFrom(inData, port); var k := |port| - |r.port|;
      0 < k && FindSync(Buffered(inData, port, k)).Some? && r.inData == AfterSync(Buffered(inData, port, k))
    decreases |port|
  {
    var r := SyncFrom(inData, port);
    var k := |port| - |r.port|;
    var b := inData + port[0];
    BufferedStep(inData, port, k);
    match FindSync(b)
    case Some(p) =>
      assert r == Intake(b[p + 2..], port[1..], true) && k == 1;
      assert Buffered(b, port[1..], 0) == b;
    case None =>
      assert r == SyncFrom(b, port[1..]);
      SyncFound(b, port[1..]);
  }

  /** A synchronisation that succeeds stops at the first read that brings AB CD. */
  lemma {:induction false} SyncFirst(inData: seq<bv8>, port: seq<seq<bv8>>, m: nat)
    requires SyncFrom(inData, port).done
    requires 0 < m < |port| - |SyncFrom(inData, port).port|
    ensures FindSync(Buffered(inData, port, m)).None?
    decreases |port|
  {
    var b := inData + port[0];
    assert FindSync(b).None?;
    BufferedStep(inData, port, m);
    if m == 1 {
      assert Buffered(b, port[1..], 0) == b;
    } else {
      SyncFirst(b, port[1..], m - 1);
    }
  }

  /** A synchronisation that runs out of reads keeps the whole stream, which holds no AB CD. */
  lemma {:induction false} SyncMissed(inData: seq<bv8>, port: seq<seq<bv8>>)
    requires !SyncFrom(inData, port).done
    ensures var r := SyncFrom(inData, port);
      r.port == [] && r.inData == inData + Concat(port) && (port != [] ==> FindSync(r.inData).None?)
    decreases |port|
  {
    if port != [] {
      var b := inData + port[0];
      assert FindSync(b).None?;
      SyncMissed(b, port[1..]);
      assert Concat(port) == port[0] + Concat(port[1..]);
    }
  }

  /**
   * The synchronisation loop stops at the first read after which the
   * buffer holds AB CD, and keeps exactly what follows the first AB CD of
   * everything buffered by then; when the reads run out first, everything
   * is kept and holds no AB CD.
   */
  lemma SyncDropsThroughFirstMarker(inData: seq<bv8>, port: seq<seq<bv8>>)
    ensures var r := SyncFrom(inData, port); var k := |port| - |r.port|;
      r.port == port[k..] &&
      (r.done ==> 0 < k && FindSync(Buffered(inData, port, k)).Some? &&
                  r.inData == AfterSync(Buffered(inData, port, k)) &&
                  forall m :: 0 < m < k ==> FindSync(Buffered(inData, port, m)).None?) &&
      (!r.done ==> r.port == [] && r.inData == inData + Concat(port) &&
                   (port != [] ==> FindSync(r.inData).None?))
  {
    if SyncFrom(inData, port).done {
      SyncFound(inData, port);
      forall m | 0 < m < |port| - |SyncFrom(inData, port).port|
        ensures FindSync(Buffered(inData, port, m)).None?
      {
        SyncFirst(inData, port, m);
      }
    } else {
      SyncMissed(inData, port);
    }
  }

  /**
   * The wait loop after a header: read until the buffer holds n bytes, or
   * until the reads run out.
   */
  function Filled(inData: seq<bv8>, port: seq<seq<bv8>>, n: nat): (r: Intake)
    ensures |r.port| <= |port| && (r.done ==> |r.inData| >= n)
    decreases |port|
  {
    if |inData| >= n then Intake(inData, port, true)
    else if port == [] then Intake(inData, [], false)
    else Filled(inData + port[0], port[1..], n)
  }

  /**
   * The wait loop appends whole reads, in order, and stops at the first
   * read that brings the buffer to n bytes.
   */
  lemma {:induction false} FillTakesWhatIsNeeded(inData: seq<bv8>, port: seq<seq<bv8>>, n: nat)
    ensures var r := Filled(inData, port, n); var k := |port| - |r.port|;
      r.port == port[k..] && r.inData == inData + Concat(port[..k]) &&
      (r.done <==> |r.inData| >= n) && (!r.done ==> r.port == []) &&
      forall m :: 0 <= m < k ==> |inData + Concat(port[..m])| < n
    decreases |port|
  {
    if |inData| < n && port != [] {
      var b := inData + port[0];
      FillTakesWhatIsNeeded(b, port[1..], n);
      var r := Filled(b, port[1..], n);
      var k := |port| - |r.port|;
      forall m | 0 < m <= k
        ensures inData + Concat(port[..m]) == b + Concat(port[1..][..m - 1])
      {
        assert port[..m][1..] == port[1..][..m - 1];
      }
      assert inData + Concat(port[..0]) == inData;
    } else {
      assert port[..0] == [];
    }
  }

  /** The two header bytes at the front of a buffer, and what follows them. */
  datatype Framed = Framed(h0: bv8, h1: bv8, rest: seq<bv8>, synced: bool)

  /** Reading a header: a leading AB CD is skipped first. */
  function HeaderAt(s: seq<bv8>): (f: Framed)
    requires |s| >= 4
    ensures s == (if f.synced then [SYNC_0, SYNC_1] else []) + [f.h0, f.h1] + f.rest
    ensures f.synced <==> s[..2] == [SYNC_0, SYNC_1]
  {
    if s[..2] == [SYNC_0, SYNC_1] then Framed(s[2], s[3], s[4..], true)
    else Framed(s[0], s[1], s[2..], false)
  }

  // ---------------------------------------------------------------------
  // Rows
  // ---------------------------------------------------------------------

  /** count, the ID column of data, and glove_v2_sample_5_pos. */
  datatype Rows = Rows(count: nat, data: map<nat, int>, sample5Pos: int)

  /**
   * Whether a row bumps count. read_glove.py keeps a mode-0 glove row only
   * when its ID is 0 (later rows overwrite the others) and never counts a
   * mode-1 single-node row; read_glove_v2.py counts every row.
   */
  predicate Counted(script: Script, h: Header, id: int)
  {
    match script
    case ReadGloveV2 => true
    case ReadGlove =>
      if h.mode == 0 then h.deviceId == SINGLE_NODE_ID || id == 0
      else h.deviceId != SINGLE_NODE_ID
  }

  /** The row of sample i: written at count, then counted or not. */
  function Row(script: Script, h: Header, l: Layout, i: nat, r: Rows): Rows
  {
    var id := SampleId(h, l, i);
    Rows(if Counted(script, h, id) then r.count + 1 else r.count,
         r.data[r.count := id],
         if h.mode == 1 && h.deviceId == GLOVE_V2_ID && h.packetId == 1 then -1 else r.sample5Pos)
  }

  /** The rows of samples 0 .. n-1, in order. */
  function RowsUpTo(script: Script, h: Header, l: Layout, n: nat, r: Rows): Rows
  {
    if n == 0 then r else Row(script, h, l, n - 1, RowsUpTo(script, h, l, n - 1, r))
  }

  /**
   * What storing one accepted packet is meant to do to the rows: a payload
   * with a trailer adds its whole samples and then the split sample 5.
   */
  function Stored(script: Script, h: Header, l: Layout, r: Rows): Rows
    requires PacketLength(h.mode, h.deviceId, h.packetId) == Some(l)
  {
    if h.deviceId == SINGLE_NODE_ID then Row(script, h, l, 0, r)
    else
      var n := Whole(h.mode, l);
      var w := RowsUpTo(script, h, l, n, r);
      if h.mode == 1 && h.deviceId == GLOVE_V2_ID && h.packetId == 2 then
        // the split sample 5, under the ID of the last whole sample
        Rows(w.count + 1, w.data[w.count := SampleId(h, l, n - 1)], w.count)
      else w
  }

  /** Rows below count are never written again. */
  lemma {:induction false} RowsKeepCounted(script: Script, h: Header, l: Layout, n: nat, r: Rows)
    ensures var w := RowsUpTo(script, h, l, n, r);
      r.count <= w.count && r.count + n >= w.count &&
      (forall j :: j < r.count && j in r.data ==> j in w.data && w.data[j] == r.data[j])
  {
    if n > 0 {
      RowsKeepCounted(script, h, l, n - 1, r);
    }
  }

  /** In read_glove_v2.py sample i of a packet lands in row count + i. */
  lemma {:induction false} RowsWritten(h: Header, l: Layout, n: nat, r: Rows)
    ensures var w := RowsUpTo(ReadGloveV2, h, l, n, r);
      w.count == r.count + n &&
      (forall j :: r.count <= j < r.count + n ==> j in w.data && w.data[j] == SampleId(h, l, j - r.count)) &&
      (forall j :: j < r.count && j in r.data ==> j in w.data && w.data[j] == r.data[j])
  {
    if n > 0 {
      RowsWritten(h, l, n - 1, r);
      var v := RowsUpTo(ReadGloveV2, h, l, n - 1, r);
      var w := Row(ReadGloveV2, h, l, n - 1, v);
      assert RowsUpTo(ReadGloveV2, h, l, n, r) == w;
    }
  }

  /**
   * Storing a packet as the scripts intend never rewrites a counted row,
   * and in read_glove_v2.py it adds one row per whole sample, plus one for
   * a split sample 5, each under its sample ID. As written, the sample loop
   * raises before the split sample's row (Taken).
   */
  lemma StoredRows(script: Script, h: Header, l: Layout, r: Rows)
    requires Fits(h) && Accepted(h.mode, h.deviceId, h.packetId)
    requires PacketLength(h.mode, h.deviceId, h.packetId) == Some(l)
    ensures var s := Stored(script, h, l, r);
      r.count <= s.count &&
      (forall j :: j < r.count && j in r.data ==> j in s.data && s.data[j] == r.data[j])
    ensures var s := Stored(ReadGloveV2, h, l, r);
      var n := if h.deviceId == SINGLE_NODE_ID then 1 else Whole(h.mode, l);
      s.count == r.count + n + (if HasTrailer(h.mode, h.deviceId, h.packetId) then 1 else 0) &&
      forall j :: r.count <= j < r.count + n ==> j in s.data && s.data[j] == SampleId(h, l, j - r.count)
  {
    RowsKeepCounted(script, h, l, Whole(h.mode, l), r);
    RowsWritten(h, l, Whole(h.mode, l), r);
    if h.deviceId != SINGLE_NODE_ID {
      SamplesTile(h.mode, h.deviceId, h.packetId);
    }
  }

  // ---------------------------------------------------------------------
  // The receive loop
  // ---------------------------------------------------------------------

  /**
   * Everything the receive loop keeps from one pass to the next; ended is
   * set when an exception leaves the loop, after which the port is closed.
   */
  datatype Loop = Loop(port: seq<seq<bv8>>, inData: seq<bv8>, doSync: bool, rows: Rows, ended: bool)

  /**
   * The receive loop as the scripts are written, where a valid header
   * without a layout and the overrunning sample loop raise, or as they
   * evidently intend it: such a header is skipped like an invalid one, and
   * a payload with a trailer stores its whole samples and the split sample 5.
   */
  datatype Variant = AsWritten | Corrected

  /** The initial state, after the synchronisation that precedes the receive loop. */
  function Started(port: seq<seq<bv8>>): Loop
  {
    var s := SyncFrom([], port);
    Loop(s.port, s.inData, false, Rows(0, map[], -1), false)
  }

  /** The synchronisation a pass starts with when one was requested. */
  function Resynced(st: Loop): (r: Loop)
    ensures |r.port| <= |st.port|
  {
    if st.doSync then
      var s := SyncFrom(st.inData, st.port);
      st.(inData := s.inData, port := s.port, doSync := !s.done)
    else st
  }

  /** One serial read; nothing is added once the reads have run out. */
  function ReadOnce(st: Loop): (r: Loop)
    ensures if st.port == [] then r.port == [] else |r.port| == |st.port| - 1
  {
    if st.port == [] then st else st.(inData := st.inData + st.port[0], port := st.port[1..])
  }

  /**
   * The rest of a pass: header, checks, wait, slice and store. As written,
   * unpacking the -1 that getPacketLength returns for a valid header
   * without a layout raises TypeError.
   */
  function Parsed(script: Script, v: Variant, st: Loop): (r: Loop)
    ensures |r.port| <= |st.port|
  {
    if |st.inData| < 4 then st
    else
      var f := HeaderAt(st.inData);
      if f.synced && f.h1 & 0x03 != 1 then st.(inData := f.rest, doSync := true)
      else if !ReservedClear(f.h0, f.h1) then st.(inData := f.rest, doSync := true)
      else
        var h := Decode(f.h0, f.h1);
        if !IsPacketValid(h.mode, h.deviceId, h.packetId) then st.(inData := f.rest, doSync := true)
        else if PacketLength(h.mode, h.deviceId, h.packetId).None? then
          if v == AsWritten then st.(inData := f.rest, ended := true) else st.(inData := f.rest, doSync := true)
        else Taken(script, v, st, h, f.rest)
  }

  /**
   * The end of a pass with an accepted header: wait for the payload, slice
   * it off and store it. The pass ends early when the reads run out first.
   * As written, a payload with a trailer gets its whole samples stored and
   * then the unpack of the short slice after them raises struct.error.
   */
  function Taken(script: Script, v: Variant, st: Loop, h: Header, rest: seq<bv8>): (r: Loop)
    requires Accepted(h.mode, h.deviceId, h.packetId)
    ensures |r.port| <= |st.port|
  {
    var l := PacketLength(h.mode, h.deviceId, h.packetId).value;
    var w := Filled(rest, st.port, l.bytes);
    if !w.done then st.(inData := w.inData, port := w.port)
    else if v == AsWritten && HasTrailer(h.mode, h.deviceId, h.packetId) then
      st.(port := w.port, inData := w.inData[l.bytes..],
          rows := RowsUpTo(script, h, l, Whole(h.mode, l), st.rows), ended := true)
    else st.(port := w.port, inData := w.inData[l.bytes..], rows := Stored(script, h, l, st.rows))
  }

  /** One pass of the receive loop. */
  function Iterated(script: Script, v: Variant, st: Loop): (r: Loop)
    ensures |r.port| <= |st.port| && (st.port != [] ==> |r.port| < |st.port|)
  {
    Parsed(script, v, ReadOnce(Resynced(st)))
  }

  /** The receive loop, run until the reads are used up or an exception ends it. */
  function Ran(script: Script, v: Variant, st: Loop): (r: Loop)
    ensures r.port == [] || r.ended
    decreases |st.port|
  {
    if st.port == [] || st.ended then st else Ran(script, v, Iterated(script, v, st))
  }

  /** The bytes still to be parsed: the buffer, then every read to come. */
  function Stream(st: Loop): seq<bv8>
  {
    st.inData + Concat(st.port)
  }

  /** Concatenating a split run of chunks. */
  lemma {:induction false} ConcatSplit(chunks: seq<seq<bv8>>, k: nat)
    requires k <= |chunks|
    ensures Concat(chunks) == Concat(chunks[..k]) + Concat(chunks[k..])
  {
    if k > 0 {
      ConcatSplit(chunks[1..], k - 1);
      assert chunks[..k][1..] == chunks[1..][..k - 1];
      assert chunks[1..][k - 1..] == chunks[k..];
    } else {
      assert chunks[..0] == [];
    }
  }

  /** A synchronisation that finds AB CD drops the stream up to and including it. */
  lemma SyncFoundSuffix(inData: seq<bv8>, port: seq<seq<bv8>>) returns (d: seq<bv8>)
    requires SyncFrom(inData, port).done
    ensures var s := SyncFrom(inData, port); inData + Concat(port) == d + s.inData + Concat(s.port)
  {
    SyncFound(inData, port);
    var s := SyncFrom(inData, port);
    var k := |port| - |s.port|;
    ConcatSplit(port, k);
    var b := Buffered(inData, port, k);
    var p := FindSync(b).value;
    assert b == b[..p + 2] + s.inData;
    d := b[..p + 2];
  }

  /** A synchronisation that runs out of reads buffers the whole stream. */
  lemma SyncMissedSuffix(inData: seq<bv8>, port: seq<seq<bv8>>)
    requires !SyncFrom(inData, port).done
    ensures var s := SyncFrom(inData, port); inData + Concat(port) == s.inData + Concat(s.port)
  {
    SyncMissed(inData, port);
  }

  /** A requested synchronisation drops a prefix of the stream. */
  lemma ResyncedSuffix(st: Loop) returns (d: seq<bv8>)
    ensures Stream(st) == d + Stream(Resynced(st))
  {
    d := [];
    if st.doSync {
      var s := SyncFrom(st.inData, st.port);
      assert Resynced(st) == st.(inData := s.inData, port := s.port, doSync := !s.done);
      if s.done {
        d := SyncFoundSuffix(st.inData, st.port);
      } else {
        SyncMissedSuffix(st.inData, st.port);
      }
    }
  }

  /** A read moves the next chunk into the buffer and leaves the stream alone. */
  lemma ReadOnceSuffix(st: Loop)
    ensures Stream(ReadOnce(st)) == Stream(st)
  {
    if st.port != [] {
      assert Concat(st.port) == st.port[0] + Concat(st.port[1..]);
    }
  }

  /** The wait loop leaves the stream alone. */
  lemma FilledSuffix(inData: seq<bv8>, port: seq<seq<bv8>>, n: nat)
    ensures var w := Filled(inData, port, n); inData + Concat(port) == w.inData + Concat(w.port)
  {
    FillTakesWhatIsNeeded(inData, port, n);
    var w := Filled(inData, port, n);
    ConcatSplit(port, |port| - |w.port|);
  }

  /** Waiting for a payload and slicing it off drops the payload from the stream. */
  lemma TakenSuffix(script: Script, v: Variant, st: Loop, h: Header, rest: seq<bv8>) returns (d: seq<bv8>)
    requires Accepted(h.mode, h.deviceId, h.packetId)
    ensures rest + Concat(st.port) == d + Stream(Taken(script, v, st, h, rest))
  {
    d := [];
    var l := PacketLength(h.mode, h.deviceId, h.packetId).value;
    var w := Filled(rest, st.port, l.bytes);
    FilledSuffix(rest, st.port, l.bytes);
    var r := Taken(script, v, st, h, rest);
    if w.done {
      assert r.inData == w.inData[l.bytes..] && r.port == w.port;
      d := w.inData[..l.bytes];
      calc {
        rest + Concat(st.port);
        w.inData + Concat(w.port);
        (w.inData[..l.bytes] + r.inData) + Concat(r.port);
        d + Stream(r);
      }
    }
  }

  /**
   * The outcomes of the rest of a pass: a short buffer is left alone, an
   * accepted header is taken, and every other header is dropped with the
   * rows, the reads and, in the corrected loop, the end flag kept.
   */
  lemma ParsedCases(script: Script, v: Variant, st: Loop)
    ensures |st.inData| < 4 ==> Parsed(script, v, st) == st
    ensures |st.inData| >= 4 ==>
      var f := HeaderAt(st.inData); var h := Decode(f.h0, f.h1); var r := Parsed(script, v, st);
      if !(f.synced && f.h1 & 0x03 != 1) && ReservedClear(f.h0, f.h1) && Accepted(h.mode, h.deviceId, h.packetId)
      then r == Taken(script, v, st, h, f.rest)
      else r.inData == f.rest && r.port == st.port && r.rows == st.rows && (v == Corrected ==> r.ended == st.ended)
  {
    if |st.inData| >= 4 {
      var f := HeaderAt(st.inData);
      var h := Decode(f.h0, f.h1);
      AcceptedIffLength(h.mode, h.deviceId, h.packetId);
    }
  }

  /** The rest of a pass drops a prefix of the stream. */
  lemma ParsedSuffix(script: Script, v: Variant, st: Loop) returns (d: seq<bv8>)
    ensures Stream(st) == d + Stream(Parsed(script, v, st))
  {
    d := [];
    ParsedCases(script, v, st);
    if |st.inData| >= 4 {
      var f := HeaderAt(st.inData);
      var hd := (if f.synced then [SYNC_0, SYNC_1] else []) + [f.h0, f.h1];
      var h := Decode(f.h0, f.h1);
      var r := Parsed(script, v, st);
      assert Stream(st) == hd + (f.rest + Concat(st.port));
      if !(f.synced && f.h1 & 0x03 != 1) && ReservedClear(f.h0, f.h1) && Accepted(h.mode, h.deviceId, h.packetId) {
        var d2 := TakenSuffix(script, v, st, h, f.rest);
        d := hd + d2;
      } else {
        assert Stream(r) == f.rest + Concat(st.port);
        d := hd;
      }
    }
  }

  /** t ends in s. */
  predicate EndsIn(t: seq<bv8>, s: seq<bv8>)
  {
    |s| <= |t| && t[|t| - |s|..] == s
  }

  /** Dropping two prefixes in a row leaves a suffix. */
  lemma DroppedTwice(x: seq<bv8>, y: seq<bv8>, z: seq<bv8>, d1: seq<bv8>, d2: seq<bv8>)
    requires x == d1 + y && y == d2 + z
    ensures EndsIn(x, z)
  {
    assert x == (d1 + d2) + z;
    assert x[|d1 + d2|..] == z;
  }

  /** A pass never invents bytes: what is left to parse is a suffix of what was left before. */
  lemma PassKeepsSuffix(script: Script, v: Variant, st: Loop)
    ensures EndsIn(Stream(st), Stream(Iterated(script, v, st)))
  {
    var a := Resynced(st);
    var b := ReadOnce(a);
    var d1 := ResyncedSuffix(st);
    ReadOnceSuffix(a);
    var d2 := ParsedSuffix(script, v, b);
    DroppedTwice(Stream(st), Stream(b), Stream(Parsed(script, v, b)), d1, d2);
  }

  /** Rows that count has passed stay as they are. */
  predicate KeepsCounted(before: Rows, after: Rows)
  {
    before.count <= after.count &&
    forall j :: j < before.count && j in before.data ==> j in after.data && after.data[j] == before.data[j]
  }

  /** A pass never rewrites a counted row. */
  lemma PassKeepsCounted(script: Script, v: Variant, st: Loop)
    ensures KeepsCounted(st.rows, Iterated(script, v, st).rows)
  {
    var b := ReadOnce(Resynced(st));
    assert b.rows == st.rows;
    ParsedCases(script, v, b);
    if |b.inData| >= 4 {
      var f := HeaderAt(b.inData);
      var h := Decode(f.h0, f.h1);
      if !(f.synced && f.h1 & 0x03 != 1) && ReservedClear(f.h0, f.h1) && Accepted(h.mode, h.deviceId, h.packetId) {
        TakenKeepsCounted(script, v, b, h, f.rest);
      }
    }
  }

  /** Waiting for and storing a payload never rewrites a counted row. */
  lemma TakenKeepsCounted(script: Script, v: Variant, st: Loop, h: Header, rest: seq<bv8>)
    requires Fits(h) && Accepted(h.mode, h.deviceId, h.packetId)
    ensures KeepsCounted(st.rows, Taken(script, v, st, h, rest).rows)
  {
    var l := PacketLength(h.mode, h.deviceId, h.packetId).value;
    StoredRows(script, h, l, st.rows);
    RowsKeepCounted(script, h, l, Whole(h.mode, l), st.rows);
  }

  /** The whole receive loop never rewrites a counted row. */
  lemma {:induction false} RanKeepsCounted(script: Script, v: Variant, st: Loop)
    ensures KeepsCounted(st.rows, Ran(script, v, st).rows)
    decreases |st.port|
  {
    if st.port != [] && !st.ended {
      var n := Iterated(script, v, st);
      PassKeepsCounted(script, v, st);
      RanKeepsCounted(script, v, n);
      assert Ran(script, v, st) == Ran(script, v, n);
    }
  }

  /** The corrected pass never raises. */
  lemma CorrectedNeverEnds(script: Script, st: Loop)
    ensures Iterated(script, Corrected, st).ended == st.ended
  {
    var b := ReadOnce(Resynced(st));
    assert b.ended == st.ended;
    ParsedCases(script, Corrected, b);
  }

  /** A pass that raises nothing does what the corrected pass does. */
  lemma PassAgrees(script: Script, st: Loop)
    requires !Iterated(script, AsWritten, st).ended
    ensures Iterated(script, AsWritten, st) == Iterated(script, Corrected, st)
  {
    var b := ReadOnce(Resynced(st));
    ParsedCases(script, AsWritten, b);
    ParsedCases(script, Corrected, b);
  }

  /**
   * A recording that no exception ends is exactly the corrected recording;
   * one that an exception ends stops at the first pass that raises.
   */
  lemma {:induction false} RanAgrees(script: Script, st: Loop)
    requires !st.ended
    ensures !Ran(script, AsWritten, st).ended ==> Ran(script, AsWritten, st) == Ran(script, Corrected, st)
    ensures !Ran(script, Corrected, st).ended
    decreases |st.port|
  {
    if st.port != [] {
      var n := Iterated(script, AsWritten, st);
      CorrectedNeverEnds(script, st);
      RanAgrees(script, Iterated(script, Corrected, st));
      if !n.ended {
        PassAgrees(script, st);
        assert Ran(script, AsWritten, st) == Ran(script, AsWritten, n);
      }
    }
  }

  /**
   * As written, a valid header without a layout ends the recording with the
   * rows as they were; the corrected loop skips it and resynchronises.
   */
  lemma UnknownLayoutEnds(script: Script, st: Loop)
    requires |st.inData| >= 4
    requires var f := HeaderAt(st.inData); var h := Decode(f.h0, f.h1);
      !(f.synced && f.h1 & 0x03 != 1) && ReservedClear(f.h0, f.h1) &&
      IsPacketValid(h.mode, h.deviceId, h.packetId) && PacketLength(h.mode, h.deviceId, h.packetId).None?
    ensures var r := Parsed(script, AsWritten, st); r.ended && r.rows == st.rows && r.port == st.port
    ensures var r := Parsed(script, Corrected, st); !r.ended == !st.ended && r.doSync && r.rows == st.rows
  {
  }

  /**
   * As written, a complete payload with a trailer ends the recording after
   * its whole samples are stored and before the split sample 5 is; the
   * corrected loop stores one row more, and in read_glove_v2.py the
   * recording has then written two rows where it intends three.
   */
  lemma OverrunEnds(script: Script, st: Loop)
    requires !st.doSync && |st.inData| >= 4
    requires var f := HeaderAt(st.inData); var h := Decode(f.h0, f.h1);
      !(f.synced && f.h1 & 0x03 != 1) && ReservedClear(f.h0, f.h1) && Accepted(h.mode, h.deviceId, h.packetId) &&
      HasTrailer(h.mode, h.deviceId, h.packetId) &&
      |f.rest| >= PacketLength(h.mode, h.deviceId, h.packetId).value.bytes
    ensures var r := Parsed(script, AsWritten, st); r.ended && KeepsCounted(st.rows, r.rows)
    ensures Parsed(ReadGloveV2, AsWritten, st).rows.count == st.rows.count + 2
    ensures Parsed(ReadGloveV2, Corrected, st).rows.count == st.rows.count + 3
  {
    var f := HeaderAt(st.inData);
    var h := Decode(f.h0, f.h1);
    var l := PacketLength(h.mode, h.deviceId, h.packetId).value;
    PacketConsumed(script, AsWritten, st);
    PacketConsumed(ReadGloveV2, AsWritten, st);
    PacketConsumed(ReadGloveV2, Corrected, st);
    RowsKeepCounted(script, h, l, Whole(h.mode, l), st.rows);
    RowsWritten(h, l, Whole(h.mode, l), st.rows);
    StoredRows(ReadGloveV2, h, l, st.rows);
    SamplesTile(h.mode, h.deviceId, h.packetId);
  }

  /**
   * A pass that finds a well-formed header with a layout and a complete
   * payload drops exactly the header (2 bytes, or 4 with a leading AB CD)
   * and packetLength payload bytes from the buffered stream, and stores
   * the packet; as written, a payload with a trailer stores only its whole
   * samples and ends the recording.
   */
  lemma PacketConsumed(script: Script, v: Variant, st: Loop)
    requires !st.doSync && |st.inData| >= 4
    requires var f := HeaderAt(st.inData); var h := Decode(f.h0, f.h1);
      !(f.synced && f.h1 & 0x03 != 1) && ReservedClear(f.h0, f.h1) && Accepted(h.mode, h.deviceId, h.packetId) &&
      |f.rest| >= PacketLength(h.mode, h.deviceId, h.packetId).value.bytes
    ensures var f := HeaderAt(st.inData); var h := Decode(f.h0, f.h1);
      var l := PacketLength(h.mode, h.deviceId, h.packetId).value;
      var r := Parsed(script, v, st);
      var raised := v == AsWritten && HasTrailer(h.mode, h.deviceId, h.packetId);
      st.inData == (if f.synced then [SYNC_0, SYNC_1] else []) + Encode(h) + f.rest[..l.bytes] + r.inData &&
      r.port == st.port && !r.doSync && r.ended == (st.ended || raised) &&
      r.rows == (if raised then RowsUpTo(script, h, l, Whole(h.mode, l), st.rows) else Stored(script, h, l, st.rows))
  {
    var f := HeaderAt(st.inData);
    DecodeEncode(f.h0, f.h1);
  }

  /** The reader: its serial port and the receive loop's variables. */
  class Reader {
    const script: Script
    /** The reads the serial port is still to deliver; the port is open while any remain. */
    var port: seq<seq<bv8>>
    var inData: seq<bv8>
    var doSync: bool
    var count: nat
    /** The ID column of the data table. */
    var data: map<nat, int>
    var sample5Pos: int
    /** Whether an exception has left the receive loop. */
    var ended: bool

    function State(): Loop
      reads this
    {
      Loop(port, inData, doSync, Rows(count, data, sample5Pos), ended)
    }

    /** Opening the port and the state before the initial synchronisation. */
    constructor (script: Script, port: seq<seq<bv8>>)
      ensures this.script == script
      ensures State() == Loop(port, [], false, Rows(0, map[], -1), false)
    {
      this.script := script;
      this.port := port;
      inData := [];
      doSync := false;
      count := 0;
      data := map[];
      sample5Pos := -1;
      ended := false;
    }

    /** ser.read(100) appended to the buffer. */
    method Read()
      modifies this`port, this`inData
      ensures State() == ReadOnce(old(State()))
    {
      if port != [] {
        inData := inData + port[0];
        port := port[1..];
      }
    }

    /** Read until the buffer holds AB CD, then drop everything through it. */
    method Synchronize() returns (found: bool)
      modifies this`port, this`inData
      ensures SyncFrom(old(inData), old(port)) == Intake(inData, port, found)
    {
      found := false;
      while port != []
        invariant SyncFrom(old(inData), old(port)) ==
                  if found then Intake(inData, port, true) else SyncFrom(inData, port)
        decreases |port|, !found
      {
        Read();
        var p := FindSync(inData);
        if p.Some? {
          inData := inData[p.value + 2..];
          found := true;
          break;
        }
      }
    }

    /** The synchronisation before the receive loop. */
    method Start()
      requires State() == Loop(port, [], false, Rows(0, map[], -1), false)
      modifies this`port, this`inData
      ensures State() == Started(old(port))
    {
      var _ := Synchronize();
    }

    /** The synchronisation a pass starts with when one was requested. */
    method Resync()
      modifies this`port, this`inData, this`doSync
      ensures State() == Resynced(old(State()))
    {
      if doSync {
        var found := Synchronize();
        doSync := !found;
      }
    }

    /** The wait loop: read until the buffer holds n bytes or the reads run out. */
    method WaitFor(n: nat) returns (enough: bool)
      modifies this`port, this`inData
      ensures Filled(old(inData), old(port), n) == Intake(inData, port, enough)
    {
      while |inData| < n && port != []
        invariant Filled(old(inData), old(port), n) == Filled(inData, port, n)
        decreases |port|
      {
        Read();
      }
      enough := |inData| >= n;
    }

    /** The row of sample i. */
    method WriteRow(h: Header, l: Layout, i: nat)
      modifies this`count, this`data, this`sample5Pos
      ensures Rows(count, data, sample5Pos) == Row(script, h, l, i, old(Rows(count, data, sample5Pos)))
    {
      var id := SampleId(h, l, i);
      data := data[count := id];
      if h.mode == 1 && h.deviceId == GLOVE_V2_ID && h.packetId == 1 {
        sample5Pos := -1;
      }
      if Counted(script, h, id) {
        count := count + 1;
      }
    }

    /**
     * The mode and device branches that turn a payload into rows. A glove
     * payload is unpacked numSamples times; a slice shorter than a sample
     * raises struct.error, which ends the recording.
     */
    method Store(h: Header, l: Layout)
      requires IsPacketValid(h.mode, h.deviceId, h.packetId)
      requires PacketLength(h.mode, h.deviceId, h.packetId) == Some(l)
      modifies this`count, this`data, this`sample5Pos, this`ended
      ensures HasTrailer(h.mode, h.deviceId, h.packetId) ==>
        ended && Rows(count, data, sample5Pos) == RowsUpTo(script, h, l, Whole(h.mode, l), old(Rows(count, data, sample5Pos)))
      ensures !HasTrailer(h.mode, h.deviceId, h.packetId) ==>
        ended == old(ended) && Rows(count, data, sample5Pos) == Stored(script, h, l, old(Rows(count, data, sample5Pos)))
    {
      if h.deviceId == SINGLE_NODE_ID {
        WriteRow(h, l, 0);
      } else {
        SamplesTile(h.mode, h.deviceId, h.packetId);
        var size := SampleSize(h.mode);
        for i := 0 to l.samples
          invariant i <= Whole(h.mode, l) && ended == old(ended)
          invariant Rows(count, data, sample5Pos) ==
                    RowsUpTo(script, h, l, i, old(Rows(count, data, sample5Pos)))
        {
          if size * (i + 1) > l.bytes {
            // the slice packet[size*i:size*(i+1)] is short
            assert i == Whole(h.mode, l);
            ended := true;
            return;
          }
          WriteRow(h, l, i);
        }
      }
    }

    /** Header, checks, wait, slice and store: the pass after its read. */
    method Parse()
      modifies this`port, this`inData, this`doSync, this`count, this`data, this`sample5Pos, this`ended
      ensures State() == Parsed(script, AsWritten, old(State()))
    {
      if |inData| < 4 {
        return;
      }
      var f := HeaderAt(inData);
      inData := f.rest;
      if f.synced && f.h1 & 0x03 != 1 {
        doSync := true;
        return;
      }
      if !ReservedClear(f.h0, f.h1) {
        doSync := true;
        return;
      }
      var h := Decode(f.h0, f.h1);
      if !IsPacketValid(h.mode, h.deviceId, h.packetId) {
        doSync := true;
        return;
      }
      if PacketLength(h.mode, h.deviceId, h.packetId).None? {
        // unpacking getPacketLength's -1 raises TypeError
        ended := true;
        return;
      }
      Take(h);
    }

    /** Wait for the payload of an accepted header, slice it off and store it. */
    method Take(h: Header)
      requires Accepted(h.mode, h.deviceId, h.packetId)
      modifies this`port, this`inData, this`count, this`data, this`sample5Pos, this`ended
      ensures State() == Taken(script, AsWritten, old(State()), h, old(inData))
    {
      var l := PacketLength(h.mode, h.deviceId, h.packetId).value;
      var enough := WaitFor(l.bytes);
      if !enough {
        return;
      }
      // the payload inData[..l.bytes] only feeds the floating-point decoding
      inData := inData[l.bytes..];
      Store(h, l);
    }

    /** One pass of the receive loop. */
    method Iterate()
      modifies this`port, this`inData, this`doSync, this`count, this`data, this`sample5Pos, this`ended
      ensures State() == Iterated(script, AsWritten, old(State()))
    {
      Resync();
      Read();
      Parse();
    }

    /** The receive loop, while the port is open and nothing has raised. */
    method Run()
      modifies this`port, this`inData, this`doSync, this`count, this`data, this`sample5Pos, this`ended
      ensures State() == Ran(script, AsWritten, old(State()))
    {
      while port != [] && !ended
        invariant Ran(script, AsWritten, State()) == Ran(script, AsWritten, old(State()))
        decreases |port|
      {
        Iterate();
      }
    }
  }

  /** A whole recording: open the port, synchronise, run the receive loop. */
  method Record(script: Script, port: seq<seq<bv8>>) returns (reader: Reader)
    ensures fresh(reader)
    ensures reader.State() == Ran(script, AsWritten, Started(port))
  {
    reader := new Reader(script, port);
    reader.Start();
    reader.Run();
  }
}
