/**
 * Test_BNO_nRF_TX: an AVR that reads the BNO055's three Euler angles and
 * sends them as one text line, "Y: <yaw> R: <roll> P: <pitch>\n", one
 * character per packet, to address 01 02 03 04 05. Its reset function is
 * never called, so the IRQ flags are never cleared.
 */
module TestBnoTx {
  import opened Nrf24Chip
  import opened Spi
  import opened NodeDriver
  import opened AvrNode
  import opened AvrPolled
  import opened Sensors

  const ADDRESS: seq<bv8> := [0x01, 0x02, 0x03, 0x04, 0x05]
  const RX_WIDTH: bv8 := 0x01
  const RETRIES: bv8 := 0x2F

  // ------------------------------------------------------------- set-up

  /**
   * The chip after Init_nrf: auto-acknowledge on pipe 0, both addresses
   * 01 02 03 04 05, one-byte payloads, 750 us between at most 15
   * retransmissions, and CONFIG = 0x1E (powered up in TX mode). CE stays
   * low and the flags keep their values.
   */
  function Initialised(s: State): (t: State)
    requires Valid(s)
    ensures Valid(t) && t.regs[CONFIG] == TX_CONFIG && t.regs[EN_AA] == 0x01
    ensures t.rxAddr0 == ADDRESS && t.txAddr == ADDRESS && t.regs[RX_PW_P0] == RX_WIDTH
    ensures RetryBudget(t) == 15
    ensures Flags(t) == Flags(s) && t.txFifo == s.txFifo && t.rxFifo == s.rxFifo
  {
    var a := Addressed(s, 0x0E, ADDRESS, ADDRESS, RX_WIDTH);
    a.(regs := a.regs[SETUP_RETR := RETRIES][CONFIG := TX_CONFIG])
  }

  /** Init_nrf. */
  method Init(bus: Bus)
    requires bus.Valid() && !bus.selected
    modifies bus
    ensures bus.Valid() && !bus.selected && bus.ce == old(bus.ce)
    ensures bus.chip == Initialised(old(bus.chip))
  {
    SetupAddressed(bus, 0x0E, ADDRESS, ADDRESS, RX_WIDTH);
    WriteByte(bus, SETUP_RETR, RETRIES);
    WriteByte(bus, CONFIG, TX_CONFIG);
  }

  // ------------------------------------------------------------- angles

  /**
   * `(float)raw * (1.0f/16.0f)` passed to itoa's int parameter: raw / 16
   * truncated toward zero. A 16-bit integer and a multiplication by 2^-4
   * are exact in a 32-bit float, so only the conversion back rounds.
   */
  function Degrees(raw: int): (d: int)
    requires IsInt16(raw)
    ensures -2048 <= d <= 2047
    ensures 0 <= raw ==> 16 * d <= raw < 16 * d + 16
    ensures raw < 0 ==> 16 * d - 16 < raw <= 16 * d
  {
    if raw >= 0 then raw / 16 else -((-raw) / 16)
  }

  /** Whole degrees come out exactly. */
  lemma DegreesOfWhole(k: int)
    requires -2048 <= k <= 2047
    ensures IsInt16(16 * k) && Degrees(16 * k) == k
  {
  }

  /** Truncation toward zero is symmetric: a negated reading gives the negated angle. */
  lemma DegreesSymmetric(raw: int)
    requires -0x8000 < raw < 0x8000
    ensures Degrees(-raw) == -Degrees(raw)
  {
  }

  // ------------------------------------------------------ decimal text

  const MINUS: bv8 := 0x2D
  const SPACE: bv8 := 0x20
  const NEWLINE: bv8 := 0x0A

  predicate IsDigit(c: bv8)
  {
    0x30 <= c <= 0x39
  }

  predicate AllDigits(s: seq<bv8>)
  {
    forall i :: 0 <= i < |s| ==> IsDigit(s[i])
  }

  /** The ASCII digit of `d`. */
  function Digit(d: nat): (c: bv8)
    requires d < 10
    ensures IsDigit(c) && (c - 0x30) as nat == d
  {
    (0x30 + d) as bv8
  }

  /** The decimal digits of `n`, most significant first, without leading zeros. */
  function Digits(n: nat): (r: seq<bv8>)
    ensures r != [] && AllDigits(r)
    ensures n > 0 <==> r[0] != 0x30
    decreases n
  {
    if n < 10 then [Digit(n)] else Digits(n / 10) + [Digit(n % 10)]
  }

  /** itoa(v, buf, 10): a minus sign for negative values, then the digits of |v|. */
  function Itoa(v: int): (r: seq<bv8>)
    ensures r != [] && 0 !in r && SPACE !in r && NEWLINE !in r
  {
    if v < 0 then [MINUS] + Digits(-v) else Digits(v)
  }

  /** The value of a string of decimal digits. */
  function Value(s: seq<bv8>): nat
    requires AllDigits(s)
    decreases |s|
  {
    if s == [] then 0 else Value(s[..|s| - 1]) * 10 + (s[|s| - 1] - 0x30) as nat
  }

  /** A decimal numeral as itoa writes it: an optional minus sign and at least one digit. */
  predicate Numeral(s: seq<bv8>)
  {
    s != [] && (if s[0] == MINUS then |s| > 1 && AllDigits(s[1..]) else AllDigits(s))
  }

  /** The integer a numeral denotes (atoi on itoa's output). */
  function Parse(s: seq<bv8>): int
    requires Numeral(s)
  {
    if s[0] == MINUS then 0 - Value(s[1..]) else Value(s)
  }

  /** Reading the digits back gives the number. */
  lemma {:induction false} ValueOfDigits(n: nat)
    ensures Value(Digits(n)) == n
    decreases n
  {
    if n >= 10 {
      var r := Digits(n);
      assert r[..|r| - 1] == Digits(n / 10);
      ValueOfDigits(n / 10);
    }
  }

  /** itoa's text denotes its argument. */
  lemma ItoaRoundTrip(v: int)
    ensures Numeral(Itoa(v)) && Parse(Itoa(v)) == v
  {
    if v < 0 {
      SignedRoundTrip(-v);
    } else {
      UnsignedRoundTrip(v);
    }
  }

  /** The digits of `n` alone denote n. */
  lemma UnsignedRoundTrip(n: nat)
    ensures Numeral(Digits(n)) && Parse(Digits(n)) == n
  {
    var s := Digits(n);
    assert IsDigit(s[0]);
    assert s[0] != MINUS;
    ValueOfDigits(n);
  }

  /** A minus sign and the digits of `n` denote -n. */
  lemma SignedRoundTrip(n: nat)
    ensures var s := [MINUS] + Digits(n); s[1..] == Digits(n) && Numeral(s) && Parse(s) == 0 - n
  {
    var s := [MINUS] + Digits(n);
    assert s[1..] == Digits(n);
    ValueOfDigits(n);
  }

  function Pow10(k: nat): (p: nat)
    ensures p >= 1
  {
    if k == 0 then 1 else 10 * Pow10(k - 1)
  }

  /** A number below 10^k has at most k digits. */
  lemma {:induction false} DigitsFit(n: nat, k: nat)
    requires 1 <= k && n < Pow10(k)
    ensures |Digits(n)| <= k
    decreases k
  {
    if n >= 10 {
      assert k >= 2;
      DigitsFit(n / 10, k - 1);
    }
  }

  /**
   * Every angle the firmware formats is at most five characters, so
   * String_Data[16] always holds it and its NUL.
   */
  lemma AngleFits(raw: int)
    requires IsInt16(raw)
    ensures |Itoa(Degrees(raw))| + 1 <= 6
  {
    var d := Degrees(raw);
    assert Pow10(4) == 10000;
    if d < 0 {
      DigitsFit(-d, 4);
    } else {
      DigitsFit(d, 4);
    }
  }

  // ------------------------------------------------------------ the line

  const Y_LABEL: seq<bv8> := [0x59, 0x3A, 0x20]
  const R_LABEL: seq<bv8> := [0x20, 0x52, 0x3A, 0x20]
  const P_LABEL: seq<bv8> := [0x20, 0x50, 0x3A, 0x20]
  const END: seq<bv8> := [0x0A]

  /** The angles of one line, in degrees. */
  datatype Angles = Angles(yaw: int, roll: int, pitch: int)

  datatype Option<T> = None | Some(value: T)

  /** "Y: " h " R: " r " P: " p "\n": the seven strings one pass of the loop sends. */
  function Line(a: Angles): seq<bv8>
  {
    Y_LABEL + Itoa(a.yaw) + R_LABEL + Itoa(a.roll) + P_LABEL + Itoa(a.pitch) + END
  }

  /** The index of the first `stop` in `s`, or |s| when there is none. */
  function Until(s: seq<bv8>, stop: bv8): (i: nat)
    ensures i <= |s| && (i < |s| ==> s[i] == stop)
    ensures forall j :: 0 <= j < i ==> s[j] != stop
  {
    if s == [] || s[0] == stop then 0 else Until(s[1..], stop) + 1
  }

  /** The rest of `s` after `tag`, or None when `s` does not start with it. */
  function Expect(tag: seq<bv8>, s: seq<bv8>): (r: Option<seq<bv8>>)
    ensures r.Some? <==> (|tag| <= |s| && s[..|tag|] == tag)
    ensures r.Some? ==> s == tag + r.value
  {
    if |tag| <= |s| && s[..|tag|] == tag then Some(s[|tag|..]) else None
  }

  /** The numeral before the first `stop` in `s`, its value and what follows it, or None. */
  function Field(s: seq<bv8>, stop: bv8): Option<(int, seq<bv8>)>
  {
    var i := Until(s, stop);
    if Numeral(s[..i]) then Some((Parse(s[..i]), s[i..])) else None
  }

  /** A reader of the line: the three numerals between the labels, or None. */
  function ParseLine(l: seq<bv8>): Option<Angles>
  {
    match Expect(Y_LABEL, l)
    case None => None
    case Some(a) =>
      match Field(a, SPACE)
      case None => None
      case Some((yaw, b)) =>
        match Expect(R_LABEL, b)
        case None => None
        case Some(c) =>
          match Field(c, SPACE)
          case None => None
          case Some((roll, d)) =>
            match Expect(P_LABEL, d)
            case None => None
            case Some(e) =>
              match Field(e, NEWLINE)
              case None => None
              case Some((pitch, f)) =>
                if f == END then Some(Angles(yaw, roll, pitch)) else None
  }

  /** A tag is read off the front of a string that starts with it. */
  lemma ExpectOf(tag: seq<bv8>, rest: seq<bv8>)
    ensures Expect(tag, tag + rest) == Some(rest)
  {
    assert (tag + rest)[..|tag|] == tag && (tag + rest)[|tag|..] == rest;
  }

  /** itoa's text followed by a terminator it cannot contain is read back as its value. */
  lemma FieldOf(v: int, rest: seq<bv8>, stop: bv8)
    requires stop !in Itoa(v) && rest != [] && rest[0] == stop
    ensures Field(Itoa(v) + rest, stop) == Some((v, rest))
  {
    var f := Itoa(v);
    var s := f + rest;
    assert s[|f|] == stop;
    assert forall j :: 0 <= j < |f| ==> s[j] == f[j];
    assert Until(s, stop) == |f|;
    assert s[..|f|] == f && s[|f|..] == rest;
    ItoaRoundTrip(v);
  }

  /** The line gives back the three angles it was made of. */
  lemma LineRoundTrip(x: Angles)
    ensures ParseLine(Line(x)) == Some(x)
  {
    var h, r, p := Itoa(x.yaw), Itoa(x.roll), Itoa(x.pitch);
    var e := p + END;
    var d := P_LABEL + e;
    var c := r + d;
    var b := R_LABEL + c;
    var a := h + b;
    Associative(Y_LABEL + h + R_LABEL + r + P_LABEL, p, END);
    Associative(Y_LABEL + h + R_LABEL + r, P_LABEL, e);
    Associative(Y_LABEL + h + R_LABEL, r, d);
    Associative(Y_LABEL + h, R_LABEL, c);
    Associative(Y_LABEL, h, b);
    ExpectOf(Y_LABEL, a);
    FieldOf(x.yaw, b, SPACE);
    ExpectOf(R_LABEL, c);
    FieldOf(x.roll, d, SPACE);
    ExpectOf(P_LABEL, e);
    FieldOf(x.pitch, END, NEWLINE);
  }

  // ------------------------------------------------------------ sending

  /**
   * nRF_Put_String of a string with no NUL inside: its characters follow
   * `before` in the packets counted from `s0`.
   */
  method SendMore(bus: Bus, text: seq<bv8>, airs: seq<Air>, ghost s0: State, ghost t0: seq<Event>, before: seq<bv8>)
    requires bus.Valid() && !bus.selected && Nrf24Chip.Valid(s0) && 0 !in text && |before| + |text| <= |airs|
    requires bus.chip == Sent(s0, before, airs) && bus.trace == t0 + Packets(before, airs)
    modifies bus
    ensures bus.Valid() && !bus.selected && bus.ce == (old(bus.ce) && text == [])
    ensures bus.chip == Sent(s0, before + text, airs) && bus.trace == t0 + Packets(before + text, airs)
  {
    var s := text + [0];
    StrlenOf(s, |text|);
    assert s[..|text|] == text;
    var _ := PutString(bus, s, airs[|before|..]);
    SentAppend(s0, before, text, airs);
    PacketsAppend(before, text, airs);
    Associative(t0, Packets(before, airs), Packets(text, airs[|before|..]));
  }

  /** A tag and the text of an angle after `before`: two nRF_Put_String calls. */
  method SendField(bus: Bus, tag: seq<bv8>, v: int, airs: seq<Air>, ghost s0: State, ghost t0: seq<Event>, before: seq<bv8>)
    requires bus.Valid() && !bus.selected && Nrf24Chip.Valid(s0) && 0 !in tag
    requires |before| + |tag| + |Itoa(v)| <= |airs|
    requires bus.chip == Sent(s0, before, airs) && bus.trace == t0 + Packets(before, airs)
    modifies bus
    ensures bus.Valid() && !bus.selected && !bus.ce
    ensures bus.chip == Sent(s0, before + tag + Itoa(v), airs)
    ensures bus.trace == t0 + Packets(before + tag + Itoa(v), airs)
  {
    SendMore(bus, tag, airs, s0, t0, before);
    SendMore(bus, Itoa(v), airs, s0, t0, before + tag);
  }

  /**
   * One pass of the main loop, after the I2C reads: the three raw words
   * `(MSB << 8) | LSB` as int16_t, each turned into degrees and decimal
   * text, and the line sent one character per packet, packet `i` meeting
   * `airs[i]` on the air. The flags are not reset.
   */
  method Step(bus: Bus, yaw: (int, int), roll: (int, int), pitch: (int, int), airs: seq<Air>) returns (x: Angles)
    requires bus.Valid() && !bus.selected
    requires IsByte(yaw.0) && IsByte(yaw.1) && IsByte(roll.0) && IsByte(roll.1) && IsByte(pitch.0) && IsByte(pitch.1)
    requires |Line(Reading(yaw, roll, pitch))| <= |airs|
    modifies bus
    ensures x == Reading(yaw, roll, pitch)
    ensures bus.Valid() && !bus.selected && !bus.ce
    ensures bus.chip == Sent(old(bus.chip), Line(x), airs)
    ensures bus.trace == old(bus.trace) + Packets(Line(x), airs)
  {
    x := Reading(yaw, roll, pitch);
    Report(bus, x, airs);
  }

  /** The angles of one pass from the (MSB, LSB) pairs of the three Euler registers. */
  function Reading(yaw: (int, int), roll: (int, int), pitch: (int, int)): (x: Angles)
    requires IsByte(yaw.0) && IsByte(yaw.1) && IsByte(roll.0) && IsByte(roll.1) && IsByte(pitch.0) && IsByte(pitch.1)
    ensures -2048 <= x.yaw <= 2047 && -2048 <= x.roll <= 2047 && -2048 <= x.pitch <= 2047
  {
    Angles(Degrees(RawWord(yaw.0, yaw.1)), Degrees(RawWord(roll.0, roll.1)), Degrees(RawWord(pitch.0, pitch.1)))
  }

  /** The seven nRF_Put_String calls of one pass. */
  method Report(bus: Bus, x: Angles, airs: seq<Air>)
    requires bus.Valid() && !bus.selected && |Line(x)| <= |airs|
    modifies bus
    ensures bus.Valid() && !bus.selected && !bus.ce
    ensures bus.chip == Sent(old(bus.chip), Line(x), airs)
    ensures bus.trace == old(bus.trace) + Packets(Line(x), airs)
  {
    ghost var s0, t0 := bus.chip, bus.trace;
    assert [] + Y_LABEL == Y_LABEL && t0 + [] == t0;
    SendField(bus, Y_LABEL, x.yaw, airs, s0, t0, []);
    SendField(bus, R_LABEL, x.roll, airs, s0, t0, Y_LABEL + Itoa(x.yaw));
    SendField(bus, P_LABEL, x.pitch, airs, s0, t0, Y_LABEL + Itoa(x.yaw) + R_LABEL + Itoa(x.roll));
    SendMore(bus, END, airs, s0, t0, Y_LABEL + Itoa(x.yaw) + R_LABEL + Itoa(x.roll) + P_LABEL + Itoa(x.pitch));
  }

  // ------------------------------------------------------ a lost packet

  /**
   * Nothing clears MAX_RT in this firmware: once a character has been lost
   * with its retransmissions used up, every later line only queues
   * characters, the chip keeps the line's final newline in its TX FIFO and
   * the flags stay as they were, so the next line stalls in the same way.
   */
  lemma StalledForever(s: State, x: Angles, airs: seq<Air>)
    requires Valid(s) && |Line(x)| <= |airs| && Flags(s) & MAX_RT != 0
    ensures Sent(s, Line(x), airs) == Queued(s, END)
    ensures Flags(Sent(s, Line(x), airs)) == Flags(s)
  {
    LostBlocksTheRest(s, Line(x), airs);
  }
}
