# nRF24L01+ radio network: a Dafny model

This project models the radio side of a wearable sensor network: AVR and
STM32 Nucleo boards that talk to nRF24L01+ 2.4 GHz transceivers over SPI,
base stations that poll sensor nodes (battery gauges, BNO055 IMUs, a glove
of six IMUs) and forward their replies to a serial port, and the host-side
Python reader that frames that serial stream.

The model is built in layers.

- `Nrf24Chip` (chip.dfy) is the transceiver as the firmware sees it: a
  32-entry register file, the three wide address registers, the RX and TX
  FIFOs and the TX_REUSE flag. One SPI transaction between CSN falling and
  CSN rising is one bracket. `Miso` gives the bytes the chip answers, and
  `Apply` gives the effect the chip takes when CSN rises. `Transmit` and
  `Receive` are the two things the air can do to the chip. A transmission
  completes at once, with TX_DS and no retransmission, when the payload was
  sent NOACK or pipe 0 has auto-acknowledgement off; otherwise it is
  acknowledged only when pipe 0 listens on TX_ADDR. An ACK payload is taken
  in only when FEATURE enables it. A pipe without dynamic payload length
  takes only payloads of its RX_PW width. The constants are
  those of the register map, the bit positions and the command opcodes in
  the firmware's header, which follow sections 8.3.1 and 9 of the nRF24L01+
  Product Specification v1.0.
- `Spi` (spi.dfy) is a class for the bus between one microcontroller and one
  chip. It holds the chip state, the CE and CSN lines, and a trace of every
  bracket, CE edge and air event, so a driver method can state exactly what
  it put on the wires.
- `NodeDriver` (node_driver.dfy) holds the driver functions that the C
  firmwares repeat in every main file. `Nrf24l01pDriver` (nrf24l01p.dfy) is
  the mbed `Nrf24l01p` class, and `Nrf24l01pFields` (nrf24l01p_fields.dfy)
  holds the clamps and bit fields that class applies.
  `Nrf24Test` (test_nrf24l01.dfy) is the register-level driver of the
  Test_nRF24L01 programs, with `Nrf24TestTx`, `Nrf24TestRx` and
  `Nrf24TestRxDraft` for the three programs built on it. `AvrPolled`
  (avr_polled.dfy) is the driver of the AVR firmwares that poll the radio
  instead of taking its interrupt.
- One module per firmware keeps that firmware's constants and quirks:
  - the base stations `AvrBaseStation`, `NucleoStation`, `NucleoMultiAck`,
    `NucleoBsFinal`, `NucleoBnoMax`, `NucleoNex`, `NucleoUartRx`,
    `NucleoGaugeStation`, `StationLoop`, `PollingStation` and
    `DiscoveryStation`;
  - the nodes `AvrNode`, `GaugeNode`, `N2AckInt`, `N1BnoMax`, `EgFinal`,
    `Node1`, `RbkyoRx`, `RbkyoTx`, `OldRbkyoTx` and `TestBnoTx`;
  - `Sensors`, for where sensor bytes land in the payloads;
  - `NextionFrame`, for the touch-display frames.
- `GloveReader` (glove_reader.dfy) is the host-side reader of
  Code/Python_Reader/read_glove.py and old_data/Python_Reader/read_glove_v2.py.
  It finds the AB CD sync marker, decodes the two-byte packet header, looks
  up the payload length, consumes exactly that many bytes and stores the
  samples as rows. The receive loop is modelled as written, where two
  inputs raise an exception that ends the recording, and as corrected,
  where they do not. `RanAgrees` proves that the two agree on every
  recording that no exception ends.

Where the driver is stateful, the model is a class: `Spi.Bus`,
`Nrf24l01pDriver.Nrf24l01p`, the station classes and `GloveReader.Reader`.
Their methods have `modifies` clauses and state the new chip state and bus
trace in terms of pure functions of the old state. The properties are then
proved about those functions:
- set/get round trips;
- clamps;
- "only these bits change";
- the classification of a transmission's outcome;
- cursor and schedule invariants of the polling loops;
- the framing of the serial stream.

## Model

| member | source | states |
|---|---|---|
| Nrf24Chip.PowerOnReset | AVR/Test_nRF24L01/Test_nRF24L01_TX/Test_nRF24L01_TX/Test_nRF24L01_TX.h:50-75 | the reset state is a valid register file with both FIFOs empty and no payload marked for reuse |
| Nrf24Chip.PlainRead | AVR/Test_nRF24L01/Test_nRF24L01_TX/Test_nRF24L01_TX/Test_nRF24L01_TX.h:124-126 | R_REGISTER on a plain register answers the byte stored there |
| Nrf24Chip.Overwrite | AVR/Test_nRF24L01/Test_nRF24L01_TX/Test_nRF24L01_TX/Test_nRF24L01_TX.h:125-126 | a W_REGISTER data stream replaces the low bytes of a wide register, keeps the rest and never changes its width |
| Nrf24Chip.WriteRegister | AVR/Test_nRF24L01/Test_nRF24L01_TX/Test_nRF24L01_TX/Test_nRF24L01_TX.h:125-126 | W_REGISTER leaves both FIFOs and the reuse flag alone and keeps the register file valid |
| Nrf24Chip.Apply | AVR/Test_nRF24L01/Test_nRF24L01_TX/Test_nRF24L01_TX/Test_nRF24L01_TX.h:124-132 | every bracket (register read or write, payload read or write, flush, reuse, NOP) leaves a valid chip state |
| Nrf24Chip.RetransmitDelay | AVR/Test_nRF24L01/Test_nRF24L01_TX/Test_nRF24L01_TX/Test_nRF24L01_TX.h:98-99 | the ARD field gives a delay between 250 and 4000 us in steps of 250 us |
| Nrf24Chip.Complete | AVR/Test_nRF24L01/Test_nRF24L01_TX/Test_nRF24L01_TX/Test_nRF24L01_TX.h:112-113 | the end of a transmission puts the retry count in ARC_CNT, where it reads back exactly |
| Nrf24Chip.LowNibble | AVR/Test_nRF24L01/Test_nRF24L01_TX/Test_nRF24L01_TX/Test_nRF24L01_TX.h:112-113 | a retry count below 16 written into ARC_CNT reads back unchanged |
| Nrf24Chip.Transmit | AVR/Test_nRF24L01/Test_nRF24L01_TX/Test_nRF24L01_TX/Test_nRF24L01_TX.h:107-109 | a chip that cannot transmit is left unchanged, and a transmission never touches the address registers; with the head NOACK or ENAA_P0 clear the chip does not wait and raises TX_DS with ARC_CNT 0 (its flags, retries and FIFOs are stated by TransmitRaisesOneFlag, NoAckAlwaysSent, AutoAckOffSent, UnmatchedNeverAcked and TransmitKeepsSettings) |
| Nrf24Chip.Receive | BaseStation/Nrf24l019/Nrf24l01p.cpp:515-523 | an arriving payload never changes the TX FIFO or the addresses, and it is either dropped with nothing changed or appended to a non-full RX FIFO, only when the pipe takes its width (dynamic payload length on, or RX_PW_Px bytes) |
| Nrf24Chip.RxHead | AVR/Test_nRF24L01/Test_nRF24L01_TX/Test_nRF24L01_TX/Test_nRF24L01_TX.h:127 | R_RX_PAYLOAD shifts out exactly `n` bytes |
| Nrf24Chip.RxHeadIsPayload | AVR/Test_nRF24L01/Test_nRF24L01_TX/Test_nRF24L01_TX/Test_nRF24L01_TX.h:127 | the bytes read after R_RX_PAYLOAD are the head payload's bytes, then zeros past its end or when the RX FIFO is empty |
| Nrf24Chip.RxHeadSnoc | AVR/Test_nRF24L01/Test_nRF24L01_TX/Test_nRF24L01_TX/Test_nRF24L01_TX.h:127 | clocking one more byte extends the head read by exactly that byte |
| Nrf24Chip.PopRx | AVR/Test_nRF24L01/Test_nRF24L01_TX/Test_nRF24L01_TX/Test_nRF24L01_TX.h:127 | R_RX_PAYLOAD removes the head of the RX FIFO, or nothing when it is empty, and changes no register |
| Nrf24Chip.ReadBracket | AVR/Test_nRF24L01/Test_nRF24L01_TX/Test_nRF24L01_TX/Test_nRF24L01_TX.h:124-126 | a register-read bracket changes nothing and answers the register's value |
| Nrf24Chip.UpdateReadsBack | AVR/Test_nRF24L01/Test_nRF24L01_TX/Test_nRF24L01_TX/Test_nRF24L01_TX.h:125-126 | a register updated in place reads back the new value, and every other register reads as before |
| Nrf24Chip.WriteBracketRegister | AVR/Test_nRF24L01/Test_nRF24L01_TX/Test_nRF24L01_TX/Test_nRF24L01_TX.h:125-126 | a two-byte bracket starting with W_REGISTER + r is a one-byte register write |
| Nrf24Chip.StatusShowsFlags | AVR/Test_nRF24L01/Test_nRF24L01_TX/Test_nRF24L01_TX/Test_nRF24L01_TX.h:107-109 | the STATUS byte shows RX_DR, TX_DS and MAX_RT exactly as raised |
| Nrf24Chip.WriteBracket | AVR/Test_nRF24L01/Test_nRF24L01_TX/Test_nRF24L01_TX/Test_nRF24L01_TX.h:125-126 | a one-byte write to a plain register changes that register and nothing else |
| Nrf24Chip.ClearFlagsBracket | AVR/Test_nRF24L01/Test_nRF24L01_TX/Test_nRF24L01_TX/Test_nRF24L01_TX.h:107-109 | writing 0x70 to STATUS clears the three interrupt flags and nothing else |
| Nrf24Chip.WideBracket | AVR/Test_nRF24L01/Test_nRF24L01_TX/Test_nRF24L01_TX/Test_nRF24L01_TX.h:60-66 | a five-byte write to an address register stores the whole address |
| Nrf24Chip.PayloadBracket | AVR/Test_nRF24L01/Test_nRF24L01_TX/Test_nRF24L01_TX/Test_nRF24L01_TX.h:127 | an R_RX_PAYLOAD bracket pops the RX FIFO, whatever bytes are clocked out with it |
| Nrf24Chip.TxPayloadBracket | AVR/Test_nRF24L01/Test_nRF24L01_TX/Test_nRF24L01_TX/Test_nRF24L01_TX.h:128-129 | FLUSH_TX then W_TX_PAYLOAD leaves exactly that payload queued |
| Nrf24Chip.WideWrite | AVR/Test_nRF24L01/Test_nRF24L01_TX/Test_nRF24L01_TX/Test_nRF24L01_TX.h:60-66 | a full-width write replaces that address register and no other |
| Nrf24Chip.TransmitRaisesOneFlag | AVR/Test_nRF24L01/Test_nRF24L01_TX/Test_nRF24L01_TX/Test_nRF24L01_TX.h:107-109 | on a ready chip a transmission always ends with exactly one of TX_DS and MAX_RT raised, and TX_DS exactly when the chip does not wait for an acknowledgement (the payload was NOACK or ENAA_P0 is clear) or the acknowledgement came back, within the retry budget, to a pipe 0 listening on TX_ADDR |
| Nrf24Chip.NoAckAlwaysSent | BaseStation/Nrf24l019/Nrf24l01p.cpp:104-106 | a payload written with W_TX_PAYLOAD_NOACK is never retried: TX_DS rises with ARC_CNT 0 whatever the air does, and nothing arrives in the RX FIFO |
| Nrf24Chip.AutoAckOffSent | BaseStation/Nrf24l019/Nrf24l01p.cpp:606-613 | with ENAA_P0 cleared (disableAutoAck(0)) a transmission never waits: TX_DS rises and MAX_RT does not, ARC_CNT is 0, the head leaves the TX FIFO unless reused, and no ACK payload enters the RX FIFO, whatever the air does |
| Nrf24Chip.UnmatchedNeverAcked | BaseStation/Nrf24l019/Nrf24l01p.cpp:98-101 | a payload that asks for an acknowledgement, sent by a chip with ENAA_P0 set whose pipe 0 does not listen on TX_ADDR, never completes: MAX_RT rises, TX_DS does not, and the payload stays queued |
| Nrf24Chip.WrongWidthDropped | BaseStation/Nrf24l019/Nrf24l01p.cpp:515-523 | a payload whose length differs from RX_PW_Px on a pipe without dynamic payload length leaves the receiver unchanged |
| Nrf24Chip.TransmitKeepsSettings | AVR/Test_nRF24L01/Test_nRF24L01_TX/Test_nRF24L01_TX/Test_nRF24L01_TX.h:107-113 | a transmission rewrites STATUS and OBSERVE_TX and no other register |
| Spi.Response | BaseStation/Nrf24l019/Nrf24l01p.cpp:756-768 | a bracket is answered with one byte per byte sent: STATUS first, then what the command echoes at each position |
| Spi.Bus.constructor | BaseStation/Nrf24l019/Nrf24l01p.cpp:721-728 | after SPI_Init, CSN is high, CE is low and nothing is on the trace |
| Spi.Bus.Select | BaseStation/Nrf24l019/Nrf24l01p.cpp:730-733 | CSN goes low and an empty bracket opens |
| Spi.Bus.Transfer | BaseStation/Nrf24l019/Nrf24l01p.cpp:756-768 | one byte is appended to the open bracket, and the byte returned is the chip's answer at that position |
| Spi.Bus.Deselect | BaseStation/Nrf24l019/Nrf24l01p.cpp:730-741 | CSN rises, the chip takes the bracket's effect and the bracket is appended to the trace |
| Spi.Bus.SetCE | BaseStation/Nrf24l019/Nrf24l01p.cpp:127-133 | CE takes the new level and the edge is appended to the trace |
| Spi.Bus.Air | BaseStation/Nrf24l019/Nrf24l01p.cpp:127-133 | the chip finishes one transmission, as Transmit says, and the event is traced |
| Spi.Bus.Arrive | BaseStation/Nrf24l019/Nrf24l01p.cpp:135-168 | a payload arrives on a pipe, as Receive says, and the event is traced |
| Spi.Bus.Command | BaseStation/Nrf24l019/Nrf24l01p.cpp:170-178 | a one-byte command bracket: the byte returned is STATUS, the chip takes the command's effect and the bracket is traced |
| Spi.Bus.Pair | BaseStation/Nrf24l019/Nrf24l01p.cpp:730-741 | the two-byte bracket [cmd, b]: the chip takes its effect, the bracket is traced and the second answered byte is returned |
| Spi.Bus.Stream | BaseStation/Nrf24l019/Nrf24l01p.cpp:770-777 | the bytes of `data` go out in index order inside the open bracket |
| Spi.Bus.WriteBytes | BaseStation/Nrf24l019/Nrf24l01p.cpp:743-754 | the bracket is the command followed by the data bytes; the chip takes its effect and the bracket is traced |
| Nrf24Chip.PushTx | AVR/Test_nRF24L01/Test_nRF24L01_TX/Test_nRF24L01_TX/Test_nRF24L01_TX.h:128-132 | a queued payload keeps the chip valid: at most three payloads of at most 32 bytes each |
| Nrf24l01pFields.ClampChannel | BaseStation/Nrf24l019/Nrf24l01p.cpp:296-304 | the channel written is at most 125 and equals the requested channel whenever that is at most 125 |
| Nrf24l01pFields.ChannelReadsBack | BaseStation/Nrf24l019/Nrf24l01p.cpp:296-309 | getChannel after setChannel(channel) reads back the smaller of the channel and 125 |
| Nrf24l01pFields.ClampWidth | BaseStation/Nrf24l019/Nrf24l01p.cpp:311-322 | the address width is clamped into 3..5 and kept when already in range |
| Nrf24l01pFields.WidthCode | BaseStation/Nrf24l019/Nrf24l01p.cpp:311-322 | the SETUP_AW code is the clamped width minus two, a two-bit value from 1 to 3 |
| Nrf24l01pFields.WidthRoundTrip | BaseStation/Nrf24l019/Nrf24l01p.cpp:311-327 | getAddressWidth after setAddressWidth(width) reads back the clamped width |
| Nrf24l01pFields.ClampDelay | BaseStation/Nrf24l019/Nrf24l01p.cpp:488-505 | the retransmit delay is clamped into 250..4000 us and kept when already in range |
| Nrf24l01pFields.ClampCount | BaseStation/Nrf24l019/Nrf24l01p.cpp:488-505 | the retry count is clamped to at most 15 and kept when already in range |
| Nrf24l01pFields.Nibbles | BaseStation/Nrf24l019/Nrf24l01p.cpp:488-505 | SETUP_RETR packs delay and count so that each nibble reads back from its own half |
| Nrf24l01pFields.RetriesReadBack | BaseStation/Nrf24l019/Nrf24l01p.cpp:488-510 | after setRetries the chip retries min(count, 15) times, and its delay is the clamped delay rounded down to a multiple of 250 us |
| Nrf24l01pFields.ClampPayload | BaseStation/Nrf24l019/Nrf24l01p.cpp:512-523 | a static payload width is clamped to at most 32 bytes and kept when already in range |
| Nrf24l01pFields.RateBits | BaseStation/Nrf24l019/Nrf24l01p.cpp:539-560 | setDataRate replaces only RF_DR_LOW and RF_DR_HIGH (mask 0x28) of RF_SETUP |
| Nrf24l01pFields.RateOf | BaseStation/Nrf24l019/Nrf24l01p.cpp:562-581 | getDataRate decodes 0x20 as 250 kbps, neither bit as 1 Mbps and anything else as 2 Mbps |
| Nrf24l01pFields.RateRoundTrip | BaseStation/Nrf24l019/Nrf24l01p.cpp:539-581 | getDataRate after setDataRate(rate) gives back each of the three selectors, and 2 Mbps for any other value |
| Nrf24l01pFields.PowerBits | BaseStation/Nrf24l019/Nrf24l01p.cpp:583-590 | setRFOutPower replaces only RF_PWR (mask 0x06) of RF_SETUP |
| Nrf24l01pFields.PowerOf | BaseStation/Nrf24l019/Nrf24l01p.cpp:592-595 | getRFOutPower reads the RF_PWR field, a value from 0 to 3 |
| Nrf24l01pFields.PowerRoundTrip | BaseStation/Nrf24l019/Nrf24l01p.cpp:583-595 | getRFOutPower after setRFOutPower(power) gives back the power clamped to 3 |
| Nrf24l01pFields.RateAndPowerIndependent | BaseStation/Nrf24l019/Nrf24l01p.cpp:539-595 | setting the data rate leaves the output power reading alone, and the reverse |
| Nrf24l01pFields.CrcBits | BaseStation/Nrf24l019/Nrf24l01p.cpp:329-347 | setCRCLength changes only EN_CRC and CRCO: neither for 0, EN_CRC for 1, both for 2 or more |
| Nrf24l01pFields.CrcLength | BaseStation/Nrf24l019/Nrf24l01p.cpp:349-368 | getCRCLength reads at most 2, and reads 0 exactly when EN_CRC is clear and auto-ACK is off on every pipe |
| Nrf24l01pFields.CrcRoundTrip | BaseStation/Nrf24l019/Nrf24l01p.cpp:329-368 | getCRCLength after setCRCLength(length) gives the length capped at 2, except that 0 reads as 1 while auto-ACK is on for some pipe |
| Nrf24l01pFields.DisableCrcUnderAutoAck | BaseStation/Nrf24l019/Nrf24l01p.cpp:349-373 | disableCRC clears EN_CRC only, and while auto-ACK is on the CRC length read back does not change |
| Nrf24l01pFields.MaskBits | BaseStation/Nrf24l019/Nrf24l01p.cpp:180-189 | maskIRQ sets each of the three MASK bits exactly as asked and keeps the other CONFIG bits |
| Nrf24l01pFields.WithPipe | BaseStation/Nrf24l019/Nrf24l01p.cpp:597-632 | a per-pipe setter sets or clears the pipe's bit as asked |
| Nrf24l01pFields.OtherPipesKept | BaseStation/Nrf24l019/Nrf24l01p.cpp:597-632 | a per-pipe setter changes only the bit of its pipe |
| Nrf24l01pFields.Reversed | BaseStation/Nrf24l019/Nrf24l01p.cpp:444-459 | the address is clocked out last byte first, with the same length |
| Nrf24l01pFields.ReversedTwice | BaseStation/Nrf24l019/Nrf24l01p.cpp:444-459 | reversing an address twice gives it back |
| Nrf24l01pFields.FifoStatusBits | BaseStation/Nrf24l019/Nrf24l01p.cpp:263-286 | RX_EMPTY, RX_FULL, TX_EMPTY and FIFO_FULL are each set exactly when that FIFO is empty or holds three payloads |
| Nrf24l01pFields.PipeNumberField | BaseStation/Nrf24l019/Nrf24l01p.cpp:288-291 | bits 3..1 of STATUS hold the pipe of the RX FIFO's head payload whenever the FIFO is not empty |
| Nrf24l01pDriver.ByteRoundTrip | BaseStation/Nrf24l019/Nrf24l01p.cpp:135-168 | a payload length or pipe number up to 32 survives the round trip through a uint8_t |
| Nrf24l01pDriver.Zeros | BaseStation/Nrf24l019/Nrf24l01p.cpp:160-163 | readRXData clocks out exactly `n` filler bytes |
| Nrf24l01pDriver.PipeBitSet | BaseStation/Nrf24l019/Nrf24l01p.cpp:597-632 | a per-pipe setter keeps the chip valid, and does nothing for pipes above 5 |
| Nrf24l01pDriver.PayloadLengthSet | BaseStation/Nrf24l019/Nrf24l01p.cpp:512-523 | setPayloadLength leaves RX_PW_Px holding the size clamped to 32 for pipes 0 to 5, and does nothing for higher pipes |
| Nrf24l01pDriver.FeatureSet | BaseStation/Nrf24l019/Nrf24l01p.cpp:666-669 | a FEATURE read-modify-write sets the given bits and keeps the others |
| Nrf24l01pDriver.FeatureCleared | BaseStation/Nrf24l019/Nrf24l01p.cpp:692-695 | a FEATURE read-modify-write clears the given bits and keeps the others |
| Nrf24l01pDriver.DynamicPipe | BaseStation/Nrf24l019/Nrf24l01p.cpp:635-646 | enableDynamicPayloadLength does nothing for pipes above 5; otherwise it sets EN_DPL, the pipe's EN_AA bit and its DYNPD bit |
| Nrf24l01pDriver.RegisterBracket | BaseStation/Nrf24l019/Nrf24l01p.cpp:743-754 | a bracket that starts with W_REGISTER + reg writes the bytes after it into that register |
| Nrf24l01pDriver.RxAddressed | BaseStation/Nrf24l019/Nrf24l01p.cpp:461-485 | setRXAddress keeps the chip valid and touches only the addressed pipe's address register |
| Nrf24l01pDriver.AirAddress | BaseStation/Nrf24l019/Nrf24l01p.cpp:444-459 | the five-byte address as the chip stores it is the argument reversed |
| Nrf24l01pDriver.PipeOpening | BaseStation/Nrf24l019/Nrf24l01p.cpp:393-398 | the first steps of openRXPipe: address, pipe enabled, static length |
| Nrf24l01pDriver.RxPipeOpened | BaseStation/Nrf24l019/Nrf24l01p.cpp:393-412 | openRXPipe: address, pipe enabled with a static length, auto-ACK as asked, and dynamic ACK when asked with auto-ACK |
| Nrf24l01pDriver.OpenedSteps | BaseStation/Nrf24l019/Nrf24l01p.cpp:393-412 | RxPipeOpened is the composition of the setter calls in the order openRXPipe makes them |
| Nrf24l01pDriver.TxPipeOpened | BaseStation/Nrf24l019/Nrf24l01p.cpp:376-384 | openTXPipe writes TX_ADDR, then opens pipe 0 on the same address only with auto-ACK |
| Nrf24l01pDriver.DynamicOpening | BaseStation/Nrf24l019/Nrf24l01p.cpp:414-420 | the first steps of openDynamicRXPipe: address, pipe enabled, static length 32, dynamic length on |
| Nrf24l01pDriver.DynamicRxPipeOpened | BaseStation/Nrf24l019/Nrf24l01p.cpp:414-435 | openDynamicRXPipe: dynamic opening, then the ACK-payload choice, then dynamic ACK when asked |
| Nrf24l01pDriver.AckPayloadSet | BaseStation/Nrf24l019/Nrf24l01p.cpp:685-695 | enableAckPayload sets EN_DPL and EN_ACK_PAY; disableAckPayload clears EN_ACK_PAY only |
| Nrf24l01pDriver.DynamicAckSet | BaseStation/Nrf24l019/Nrf24l01p.cpp:698-701 | enableDynamicAck sets EN_DYN_ACK when asked, and nothing changes otherwise |
| Nrf24l01pDriver.DynamicTxPipeOpened | BaseStation/Nrf24l019/Nrf24l01p.cpp:386-390 | openDynamicTXPipe writes TX_ADDR, then opens pipe 0 dynamically on the same address |
| Nrf24l01pDriver.PoweredUp | BaseStation/Nrf24l019/Nrf24l01p.cpp:29-40 | powerUp sets PWR_UP and changes nothing else; it is a no-op when PWR_UP is already set |
| Nrf24l01pDriver.Initialized | BaseStation/Nrf24l019/Nrf24l01p.cpp:18-27 | init is power-up, channel, data rate, full output power, address width, CRC length and 15 retries 500 us apart, in that order |
| Nrf24l01pDriver.Loaded | BaseStation/Nrf24l019/Nrf24l01p.cpp:93-107 | writeTXData before CE rises: TX FIFO flushed, IRQ flags reset, payload queued with W_TX_PAYLOAD or, without ACK, W_TX_PAYLOAD_NOACK |
| Nrf24l01pDriver.Clipped | BaseStation/Nrf24l019/Nrf24l01p.cpp:770-777 | a payload command queues at most the first 32 bytes, and all of them when there are no more |
| Nrf24l01pDriver.LoadedQueue | BaseStation/Nrf24l019/Nrf24l01p.cpp:93-107 | after writeTXData's writes the TX FIFO holds just the payload clipped to 32 bytes (nothing if it is empty, or NOACK without EN_DYN_ACK) and the IRQ flags are clear |
| Nrf24l01pDriver.WriteTXDataCanFinish | BaseStation/Nrf24l019/Nrf24l01p.cpp:93-112 | writeTXData can finish only on a powered-up PTX chip with something queued: a non-empty payload, and EN_DYN_ACK for NOACK |
| Nrf24l01pDriver.AckLoaded | BaseStation/Nrf24l019/Nrf24l01p.cpp:114-125 | writeAckData flushes the TX FIFO, then for pipes 0 to 5 queues the payload with W_ACK_PAYLOAD + pipe |
| Nrf24l01pDriver.AckPayloadQueued | BaseStation/Nrf24l019/Nrf24l01p.cpp:114-125 | an ACK payload is queued exactly when the pipe exists, the payload is not empty and EN_ACK_PAY is set; the FIFO is flushed either way |
| Nrf24l01pDriver.RxAddressSettings | BaseStation/Nrf24l019/Nrf24l01p.cpp:461-485 | setRXAddress with five bytes: pipes 0 and 1 hold the address last byte first, pipes 2 to 5 only its last byte |
| Nrf24l01pDriver.OpenRXPipeSettings | BaseStation/Nrf24l019/Nrf24l01p.cpp:393-412 | openRXPipe on pipes 0 to 5: the address, pipe enabled with a static length and dynamic length off, auto-ACK as asked, EN_DYN_ACK set when both were asked (never cleared) |
| Nrf24l01pDriver.OpenRXPipeKeepsOtherPipes | BaseStation/Nrf24l019/Nrf24l01p.cpp:393-412 | openRXPipe leaves every other pipe's enable, auto-ACK, dynamic-length and static-length settings alone |
| Nrf24l01pDriver.AckStepRegs | BaseStation/Nrf24l019/Nrf24l01p.cpp:400-411 | the auto-ACK steps of openRXPipe change only EN_AA and FEATURE |
| Nrf24l01pDriver.OpeningKeepsOtherPipes | BaseStation/Nrf24l019/Nrf24l01p.cpp:393-398 | the first steps of openRXPipe leave the other pipes alone |
| Nrf24l01pDriver.OpenRXPipeOnMissingPipe | BaseStation/Nrf24l019/Nrf24l01p.cpp:393-412 | openRXPipe on a pipe above 5 touches no pipe, but still sets EN_DYN_ACK when auto-ACK and dynamic ACK were asked |
| Nrf24l01pDriver.OpenTXPipeMirrors | BaseStation/Nrf24l019/Nrf24l01p.cpp:376-384 | openTXPipe: TX_ADDR holds the address; with auto-ACK, pipe 0 listens on that address with the static length; EN_ACK_PAY and EN_DPL are untouched |
| Nrf24l01pDriver.DynamicOpeningSettings | BaseStation/Nrf24l019/Nrf24l01p.cpp:414-420 | the first steps of openDynamicRXPipe on pipes 0 to 5 leave the address, enable, auto-ACK and dynamic length set |
| Nrf24l01pDriver.DynamicRxPipeSettings | BaseStation/Nrf24l019/Nrf24l01p.cpp:414-435 | openDynamicRXPipe on pipes 0 to 5: address, pipe enabled with auto-ACK and dynamic length (EN_DPL on), EN_ACK_PAY as asked, EN_DYN_ACK when asked |
| Nrf24l01pDriver.FeatureTail | BaseStation/Nrf24l019/Nrf24l01p.cpp:422-433 | the FEATURE writes at the end of openDynamicRXPipe keep EN_DPL, set EN_ACK_PAY as asked and EN_DYN_ACK when asked |
| Nrf24l01pDriver.FeatureBits | BaseStation/Nrf24l019/Nrf24l01p.cpp:685-701 | the bit arithmetic of enable/disableAckPayload followed by enableDynamicAck yields those three bits |
| Nrf24l01pDriver.OrKeepsDynAck | BaseStation/Nrf24l019/Nrf24l01p.cpp:666-669 | setting EN_DPL leaves EN_DYN_ACK as it was |
| Nrf24l01pDriver.DynamicRxPipeOnMissingPipe | BaseStation/Nrf24l019/Nrf24l01p.cpp:414-435 | openDynamicRXPipe on a pipe above 5 touches no pipe, but still sets the FEATURE bits asked for |
| Nrf24l01pDriver.DynamicPipeReadsExactly | BaseStation/Nrf24l019/Nrf24l01p.cpp:135-168 | a payload arriving on a dynamically opened pipe of a listening chip with an empty RX FIFO is what readRXData reports: its pipe, its exact length and its bytes |
| Nrf24l01pDriver.ReceiveOnDynamicPipe | BaseStation/Nrf24l019/Nrf24l01p.cpp:135-168 | a payload received into an empty RX FIFO on an enabled pipe with dynamic payload length on (EN_DPL and its DYNPD bit) is the head, with its length |
| Nrf24l01pDriver.MaskShift | BaseStation/Nrf24l019/Nrf24l01p.cpp:597-604 | the per-pipe mask is the chip's shift of 1 by the pipe number |
| Nrf24l01pDriver.RxLengthMeaning | BaseStation/Nrf24l019/Nrf24l01p.cpp:135-168 | the length readRXData reports is exact for a dynamic-length pipe, and the pipe's static length otherwise |
| Nrf24l01pDriver.InitSettings | BaseStation/Nrf24l019/Nrf24l01p.cpp:18-27 | after init: powered up, channel capped at 125, the data rate, full output power, the address width, the CRC length, 15 retries 500 us apart; FIFOs and addresses untouched |
| Nrf24l01pDriver.WriteTXDataOutcome | BaseStation/Nrf24l019/Nrf24l01p.cpp:93-112 | the wait in writeTXData ends on TX_DS with ARC_CNT 0 when getAck is false or ENAA_P0 is clear; otherwise it ends on TX_DS (payload gone from the FIFO, ARC_CNT the retries used) exactly when acknowledged within the retry budget to a pipe 0 listening on TX_ADDR, and on MAX_RT (still queued, ARC_CNT the whole budget) otherwise |
| Nrf24l01pDriver.Nrf24l01p.constructor | BaseStation/Nrf24l019/Nrf24l01p.cpp:5-9 | the constructor runs SPI_Init: CSN high, CE low, nothing on the wires |
| Nrf24l01pDriver.Nrf24l01p.SetBits | BaseStation/Nrf24l019/Nrf24l01p.cpp:730-768 | SPI_Write_Byte(reg, SPI_Read_Byte(reg) OR bits): the register gains the bits, nothing else changes, and the trace is the read then the write |
| Nrf24l01pDriver.Nrf24l01p.ClearBits | BaseStation/Nrf24l019/Nrf24l01p.cpp:730-768 | SPI_Write_Byte(reg, SPI_Read_Byte(reg) AND NOT bits): the register loses the bits, nothing else changes |
| Nrf24l01pDriver.Nrf24l01p.Read | BaseStation/Nrf24l019/Nrf24l01p.cpp:756-768 | SPI_Read_Byte returns the register's value and changes nothing |
| Nrf24l01pDriver.Nrf24l01p.Write | BaseStation/Nrf24l019/Nrf24l01p.cpp:730-741 | SPI_Write_Byte stores the byte in the register and changes nothing else |
| Nrf24l01pDriver.Nrf24l01p.IsPoweredUp | BaseStation/Nrf24l019/Nrf24l01p.cpp:49-52 | true exactly when CONFIG's PWR_UP bit is set; the chip does not change |
| Nrf24l01pDriver.Nrf24l01p.PowerUp | BaseStation/Nrf24l019/Nrf24l01p.cpp:29-40 | when PWR_UP is clear: CE low, then PWR_UP set; when it is set: only the check's read goes out |
| Nrf24l01pDriver.Nrf24l01p.PowerDown | BaseStation/Nrf24l019/Nrf24l01p.cpp:42-47 | CE low, then PWR_UP cleared and nothing else |
| Nrf24l01pDriver.Nrf24l01p.SetModeRX | BaseStation/Nrf24l019/Nrf24l01p.cpp:55-73 | CE low, PRIM_RX set, IRQ flags reset; CE stays low and PWR_UP is kept |
| Nrf24l01pDriver.Nrf24l01p.SetModeTX | BaseStation/Nrf24l019/Nrf24l01p.cpp:75-91 | CE low, PRIM_RX cleared, IRQ flags reset |
| Nrf24l01pDriver.Nrf24l01p.StartListening | BaseStation/Nrf24l019/Nrf24l01p.cpp:251-256 | CE high; the chip does not change |
| Nrf24l01pDriver.Nrf24l01p.StopListening | BaseStation/Nrf24l019/Nrf24l01p.cpp:258-261 | CE low; the chip does not change |
| Nrf24l01pDriver.Nrf24l01p.GetStatus | BaseStation/Nrf24l019/Nrf24l01p.cpp:170-178 | a lone NOP whose answer is STATUS; the chip does not change |
| Nrf24l01pDriver.Nrf24l01p.MaskIRQ | BaseStation/Nrf24l019/Nrf24l01p.cpp:180-189 | CONFIG's three MASK bits set exactly as asked in one read-modify-write |
| Nrf24l01pDriver.Nrf24l01p.GetIRQStatus | BaseStation/Nrf24l019/Nrf24l01p.cpp:191-200 | each flag out-parameter is true exactly when that flag is raised, and the result is true exactly when any of them is |
| Nrf24l01pDriver.Nrf24l01p.ResetIRQFlags | BaseStation/Nrf24l019/Nrf24l01p.cpp:202-206 | 0x70 to STATUS: all three flags cleared |
| Nrf24l01pDriver.Nrf24l01p.FlushRX | BaseStation/Nrf24l019/Nrf24l01p.cpp:208-217 | the RX FIFO is emptied and nothing else changes |
| Nrf24l01pDriver.Nrf24l01p.FlushTX | BaseStation/Nrf24l019/Nrf24l01p.cpp:219-228 | the TX FIFO is emptied, reuse is cancelled, and nothing else changes |
| Nrf24l01pDriver.Nrf24l01p.ReuseTX | BaseStation/Nrf24l019/Nrf24l01p.cpp:230-236 | the last payload is marked for reuse |
| Nrf24l01pDriver.Nrf24l01p.IsSending | BaseStation/Nrf24l019/Nrf24l01p.cpp:238-249 | 0 exactly when TX_DS or MAX_RT is raised, 1 exactly when neither is |
| Nrf24l01pDriver.Nrf24l01p.FifoStatusByte | BaseStation/Nrf24l019/Nrf24l01p.cpp:263-286 | FIFO_STATUS is read and the chip does not change |
| Nrf24l01pDriver.Nrf24l01p.RXFifoFull | BaseStation/Nrf24l019/Nrf24l01p.cpp:263-266 | true exactly when the RX FIFO holds three payloads |
| Nrf24l01pDriver.Nrf24l01p.RXFifoEmpty | BaseStation/Nrf24l019/Nrf24l01p.cpp:268-271 | true exactly when the RX FIFO is empty |
| Nrf24l01pDriver.Nrf24l01p.TXFifoFull | BaseStation/Nrf24l019/Nrf24l01p.cpp:273-276 | true exactly when the TX FIFO holds three payloads |
| Nrf24l01pDriver.Nrf24l01p.TXFifoEmpty | BaseStation/Nrf24l019/Nrf24l01p.cpp:278-281 | true exactly when the TX FIFO is empty |
| Nrf24l01pDriver.Nrf24l01p.DataAvailable | BaseStation/Nrf24l019/Nrf24l01p.cpp:283-286 | true exactly when the RX FIFO is not empty |
| Nrf24l01pDriver.Nrf24l01p.GetRXPipeNumber | BaseStation/Nrf24l019/Nrf24l01p.cpp:288-291 | the pipe of the RX FIFO's head payload, or 7 with the RX FIFO empty |
| Nrf24l01pDriver.Nrf24l01p.SetChannel | BaseStation/Nrf24l019/Nrf24l01p.cpp:296-304 | RF_CH holds the channel clamped to 125 |
| Nrf24l01pDriver.Nrf24l01p.GetChannel | BaseStation/Nrf24l019/Nrf24l01p.cpp:306-309 | the value of RF_CH; the chip does not change |
| Nrf24l01pDriver.Nrf24l01p.SetAddressWidth | BaseStation/Nrf24l019/Nrf24l01p.cpp:311-322 | SETUP_AW holds the width clamped into 3..5, minus two |
| Nrf24l01pDriver.Nrf24l01p.GetAddressWidth | BaseStation/Nrf24l019/Nrf24l01p.cpp:324-327 | SETUP_AW plus two; the chip does not change |
| Nrf24l01pDriver.Nrf24l01p.SetCRCLength | BaseStation/Nrf24l019/Nrf24l01p.cpp:329-347 | EN_CRC and CRCO rewritten for the length in one read-modify-write of CONFIG |
| Nrf24l01pDriver.Nrf24l01p.GetCRCLength | BaseStation/Nrf24l019/Nrf24l01p.cpp:349-368 | the CRC length decoded from CONFIG and, only when EN_CRC is clear, EN_AA; the chip does not change |
| Nrf24l01pDriver.Nrf24l01p.DisableCRC | BaseStation/Nrf24l019/Nrf24l01p.cpp:370-373 | EN_CRC cleared and nothing else |
| Nrf24l01pDriver.Nrf24l01p.SetRetries | BaseStation/Nrf24l019/Nrf24l01p.cpp:488-505 | SETUP_RETR holds the clamped delay and count, packed in one write |
| Nrf24l01pDriver.Nrf24l01p.GetRetryCount | BaseStation/Nrf24l019/Nrf24l01p.cpp:507-510 | ARC_CNT, the retransmissions of the last payload |
| Nrf24l01pDriver.Nrf24l01p.SetPayloadLength | BaseStation/Nrf24l019/Nrf24l01p.cpp:512-523 | nothing for pipes above 5; otherwise RX_PW_Px holds the size clamped to 32 |
| Nrf24l01pDriver.Nrf24l01p.GetPayloadLength | BaseStation/Nrf24l019/Nrf24l01p.cpp:525-532 | the pipe's static payload length, and 0 with no SPI traffic for pipes above 5 |
| Nrf24l01pDriver.Nrf24l01p.GetDynamicPayloadLength | BaseStation/Nrf24l019/Nrf24l01p.cpp:534-537 | the width of the head payload, or 0 with the RX FIFO empty |
| Nrf24l01pDriver.Nrf24l01p.SetDataRate | BaseStation/Nrf24l019/Nrf24l01p.cpp:539-560 | RF_SETUP's rate bits rewritten for the rate in one read-modify-write |
| Nrf24l01pDriver.Nrf24l01p.GetDataRate | BaseStation/Nrf24l019/Nrf24l01p.cpp:562-581 | the data-rate selector decoded from RF_SETUP |
| Nrf24l01pDriver.Nrf24l01p.SetRFOutPower | BaseStation/Nrf24l019/Nrf24l01p.cpp:583-590 | RF_PWR holds the power clamped to 3, the rest of RF_SETUP is kept |
| Nrf24l01pDriver.Nrf24l01p.GetRFOutPower | BaseStation/Nrf24l019/Nrf24l01p.cpp:592-595 | the RF_PWR field of RF_SETUP |
| Nrf24l01pDriver.Nrf24l01p.UpdatePipe | BaseStation/Nrf24l019/Nrf24l01p.cpp:597-632 | the read-modify-write the per-pipe setters share: bit `pipe` of the register set or cleared |
| Nrf24l01pDriver.Nrf24l01p.EnableAutoAck | BaseStation/Nrf24l019/Nrf24l01p.cpp:597-604 | nothing for pipes above 5; otherwise EN_AA's bit for the pipe set |
| Nrf24l01pDriver.Nrf24l01p.DisableAutoAck | BaseStation/Nrf24l019/Nrf24l01p.cpp:606-613 | nothing for pipes above 5; otherwise EN_AA's bit for the pipe cleared |
| Nrf24l01pDriver.Nrf24l01p.EnableRXAddress | BaseStation/Nrf24l019/Nrf24l01p.cpp:616-623 | nothing for pipes above 5; otherwise EN_RXADDR's bit for the pipe set |
| Nrf24l01pDriver.Nrf24l01p.DisableRXAddress | BaseStation/Nrf24l019/Nrf24l01p.cpp:625-632 | nothing for pipes above 5; otherwise EN_RXADDR's bit for the pipe cleared |
| Nrf24l01pDriver.Nrf24l01p.CloseRXPipe | BaseStation/Nrf24l019/Nrf24l01p.cpp:437-440 | the same effect as disableRXAddress |
| Nrf24l01pDriver.Nrf24l01p.EnableDynamicPayloadLength | BaseStation/Nrf24l019/Nrf24l01p.cpp:635-646 | nothing for pipes above 5; otherwise EN_DPL, the pipe's EN_AA bit, then its DYNPD bit set |
| Nrf24l01pDriver.Nrf24l01p.DisableDynamicPayloadLength | BaseStation/Nrf24l019/Nrf24l01p.cpp:648-655 | the pipe's DYNPD bit cleared; FEATURE and EN_AA left alone |
| Nrf24l01pDriver.Nrf24l01p.HasDynamicPayloadLength | BaseStation/Nrf24l019/Nrf24l01p.cpp:657-664 | false with no SPI traffic for pipes above 5, otherwise the pipe's DYNPD bit |
| Nrf24l01pDriver.Nrf24l01p.EnableDynamicPayloadLengths | BaseStation/Nrf24l019/Nrf24l01p.cpp:666-669 | EN_DPL set |
| Nrf24l01pDriver.Nrf24l01p.DisableDynamicPayloadLengths | BaseStation/Nrf24l019/Nrf24l01p.cpp:671-677 | EN_DPL cleared, then DYNPD zeroed for every pipe |
| Nrf24l01pDriver.Nrf24l01p.HasDynamicPayloadLengths | BaseStation/Nrf24l019/Nrf24l01p.cpp:679-682 | true exactly when EN_DPL is set |
| Nrf24l01pDriver.Nrf24l01p.EnableAckPayload | BaseStation/Nrf24l019/Nrf24l01p.cpp:685-690 | EN_DPL set first, then EN_ACK_PAY |
| Nrf24l01pDriver.Nrf24l01p.DisableAckPayload | BaseStation/Nrf24l019/Nrf24l01p.cpp:692-695 | EN_ACK_PAY cleared; EN_DPL stays |
| Nrf24l01pDriver.Nrf24l01p.EnableDynamicAck | BaseStation/Nrf24l019/Nrf24l01p.cpp:698-701 | EN_DYN_ACK set |
| Nrf24l01pDriver.Nrf24l01p.DisableDynamicAck | BaseStation/Nrf24l019/Nrf24l01p.cpp:703-706 | EN_DYN_ACK cleared |
| Nrf24l01pDriver.Nrf24l01p.HasDynamicAck | BaseStation/Nrf24l019/Nrf24l01p.cpp:708-711 | true exactly when EN_DYN_ACK is set |
| Nrf24l01pDriver.Nrf24l01p.StreamReversed | BaseStation/Nrf24l019/Nrf24l01p.cpp:444-459 | address[n-1] down to address[0] go out inside the open bracket |
| Nrf24l01pDriver.Nrf24l01p.WriteReversed | BaseStation/Nrf24l019/Nrf24l01p.cpp:444-459 | the bracket W_REGISTER + reg followed by the address, last byte first |
| Nrf24l01pDriver.Nrf24l01p.SetTXAddress | BaseStation/Nrf24l019/Nrf24l01p.cpp:444-459 | TX_ADDR holds the first addrLen bytes of the address, last byte first |
| Nrf24l01pDriver.Nrf24l01p.SetRXAddress | BaseStation/Nrf24l019/Nrf24l01p.cpp:461-485 | pipes 0 and 1 take the whole address last byte first, pipes 2 to 5 only its last byte, higher pipes nothing |
| Nrf24l01pDriver.Nrf24l01p.OpenRXPipe | BaseStation/Nrf24l019/Nrf24l01p.cpp:393-412 | the chip ends as RxPipeOpened says |
| Nrf24l01pDriver.Nrf24l01p.OpenTXPipe | BaseStation/Nrf24l019/Nrf24l01p.cpp:376-384 | the chip ends as TxPipeOpened says |
| Nrf24l01pDriver.Nrf24l01p.PrepareDynamicPipe | BaseStation/Nrf24l019/Nrf24l01p.cpp:414-420 | the chip ends as DynamicOpening says |
| Nrf24l01pDriver.Nrf24l01p.OpenDynamicRXPipe | BaseStation/Nrf24l019/Nrf24l01p.cpp:414-435 | the chip ends as DynamicRxPipeOpened says |
| Nrf24l01pDriver.Nrf24l01p.SetAckPayload | BaseStation/Nrf24l019/Nrf24l01p.cpp:422-429 | EN_ACK_PAY enabled or disabled as asked |
| Nrf24l01pDriver.Nrf24l01p.OpenDynamicTXPipe | BaseStation/Nrf24l019/Nrf24l01p.cpp:386-390 | the chip ends as DynamicTxPipeOpened says |
| Nrf24l01pDriver.Nrf24l01p.Init | BaseStation/Nrf24l019/Nrf24l01p.cpp:18-27 | the chip ends as Initialized says, so InitSettings holds of it |
| Nrf24l01pDriver.Nrf24l01p.StartSending | BaseStation/Nrf24l019/Nrf24l01p.cpp:127-133 | a CE pulse: CE high then low, the chip unchanged |
| Nrf24l01pDriver.Nrf24l01p.WriteTXData | BaseStation/Nrf24l019/Nrf24l01p.cpp:93-112 | CE ends low and the chip is the air's transmission of what Loaded queued; the trace is FLUSH_TX, the flag reset, the payload bracket, the CE pulse, the air event and the polls; the wait ends exactly when a poll happens and the loaded chip could transmit, with the outcome WriteTXDataOutcome states |
| Nrf24l01pDriver.Nrf24l01p.Load | BaseStation/Nrf24l019/Nrf24l01p.cpp:93-107 | the chip ends as Loaded says |
| Nrf24l01pDriver.Nrf24l01p.WriteAckData | BaseStation/Nrf24l019/Nrf24l01p.cpp:114-125 | the chip ends as AckLoaded says |
| Nrf24l01pDriver.Nrf24l01p.ClockPayload | BaseStation/Nrf24l019/Nrf24l01p.cpp:160-163 | len bytes 0x00 clocked out in the open bracket, and `data` holds the head read, byte for byte |
| Nrf24l01pDriver.Nrf24l01p.ReadRXData | BaseStation/Nrf24l019/Nrf24l01p.cpp:135-168 | with the RX FIFO empty: length 0, pipe 0, nothing read; otherwise the head's pipe, its length as RxLengthMeaning says, its bytes in `data`, and the head popped |
| Nrf24l01pDriver.Nrf24l01p.PayloadLength | BaseStation/Nrf24l019/Nrf24l01p.cpp:144-153 | getDynamicPayloadLength for a dynamic-length pipe, otherwise getPayloadLength(pipe) |
| Nrf24l01pDriver.Nrf24l01p.ReadPayload | BaseStation/Nrf24l019/Nrf24l01p.cpp:155-167 | the R_RX_PAYLOAD bracket reads the head into `data` and pops it |
| NodeDriver.TxConfig | Nucleo/Nucleo_BS_Multi_ACK/main.cpp:259-270 | the TX-mode read-modify-writes clear PRIM_RX, set PWR_UP, MASK_TX_DS and MASK_MAX_RT, and keep every other CONFIG bit |
| NodeDriver.RxConfig | Nucleo/Nucleo_BS_Multi_ACK/main.cpp:272-283 | the RX-mode read-modify-writes set PWR_UP, PRIM_RX, MASK_TX_DS and MASK_MAX_RT, and keep every other CONFIG bit |
| NodeDriver.ModesDifferOnlyInPrimRx | Nucleo/Nucleo_BS_Multi_ACK/main.cpp:259-283 | the two mode switches leave CONFIG equal in every bit except PRIM_RX, whatever CONFIG held before |
| NodeDriver.ClearFlags | Nucleo/Nucleo_BS_Multi_ACK/main.cpp:429-435 | writing 0x70 to STATUS clears the three IRQ flags and changes nothing else |
| NodeDriver.EnterTx | Nucleo/Nucleo_BS_Multi_ACK/main.cpp:259-270 | after nRF_TX_Mode the chip is PTX, powered up, TX FIFO empty, IRQ flags clear, TX interrupts masked |
| NodeDriver.EnterRx | Nucleo/Nucleo_BS_Multi_ACK/main.cpp:272-283 | after nRF_RX_Mode the chip is PRX, powered up, RX FIFO empty, IRQ flags clear, TX interrupts masked |
| NodeDriver.Sending | Nucleo/Nucleo_BS_Multi_ACK/main.cpp:344-358 | nRF_is_Sending is 0 exactly when TX_DS or MAX_RT is set in the STATUS byte, 1 otherwise |
| NodeDriver.Outcome | Nucleo/Nucleo_BS_Multi_ACK/main.cpp:360-385 | nRF_send_Status gives TRANSMISSON_OK on TX_DS, MESSAGE_LOST on MAX_RT without TX_DS, 0xFF when neither is set |
| NodeDriver.OutcomeMatchesSending | Nucleo/Nucleo_BS_Multi_ACK/main.cpp:344-385 | the two classifiers agree: still sending exactly when the outcome is 0xFF |
| NodeDriver.TransmissionOutcome | Nucleo/Nucleo_BS_Multi_ACK/main.cpp:344-393 | after one transmission of a freshly queued payload the status is OK exactly when the chip saw it acknowledged (or did not wait: NOACK or ENAA_P0 clear) and LOST exactly otherwise; nRF_RT_Count gives the retries used, the whole budget on a loss |
| NodeDriver.RetriesRecorded | Nucleo/Nucleo_BS_Multi_ACK/main.cpp:387-393 | the OBSERVE_TX low nibble after a transmission is 0 when the chip does not wait (NOACK or ENAA_P0 clear), the retries used when acknowledged, the whole budget on a loss, and never more than the budget |
| NodeDriver.CountAA | AVR/N1_MAX_nRF/N1_MAX_nRF/main.c:479-492 | the number of 0xAA bytes is at most the payload's length |
| NodeDriver.CountAAAppend | AVR/N1_MAX_nRF/N1_MAX_nRF/main.c:479-492 | counting over a concatenation adds the two counts |
| NodeDriver.CountAAOfRequest | AVR/N1_MAX_nRF/N1_MAX_nRF/main.c:479-492 | a request of n bytes 0xAA counts exactly n |
| NodeDriver.CountAAIsPositions | AVR/N1_MAX_nRF/N1_MAX_nRF/main.c:479-492 | the count is exactly the number of positions holding 0xAA |
| NodeDriver.CountAAAll | AVR/N1_MAX_nRF/N1_MAX_nRF/main.c:479-492 | every byte counts exactly when every byte is 0xAA |
| NodeDriver.TallyOfRequest | AVR/N1_MAX_nRF/N1_MAX_nRF/main.c:479-492 | from a zero count, an n-byte payload brings the counter to n exactly when it is n bytes 0xAA |
| NodeDriver.ReadByte | Nucleo/Nucleo_BS_Multi_ACK/main.cpp:91-103 | SPI_Read_Byte is one bracket [R_REGISTER + reg, NOP]; it returns the register and changes nothing |
| NodeDriver.WriteByte | Nucleo/Nucleo_BS_Multi_ACK/main.cpp:105-115 | SPI_Write_Byte is one bracket [W_REGISTER + reg, data]; it stores the byte and changes nothing else |
| NodeDriver.WriteAddress | Nucleo/Nucleo_BS_Multi_ACK/main.cpp:177-216 | a five-byte address register is written in array order in one bracket and holds exactly those bytes |
| NodeDriver.FlushTx | Nucleo/Nucleo_BS_Multi_ACK/main.cpp:285-294 | FLUSH_TX in one bracket empties the TX FIFO and nothing else |
| NodeDriver.FlushRx | Nucleo/Nucleo_BS_Multi_ACK/main.cpp:296-305 | FLUSH_RX in one bracket empties the RX FIFO and nothing else |
| NodeDriver.ResetFlags | Nucleo/Nucleo_BS_Multi_ACK/main.cpp:429-435 | 0x70 to STATUS clears the three IRQ flags and nothing else |
| NodeDriver.SetConfig | Nucleo/Nucleo_BS_Multi_ACK/main.cpp:259-270 | one read-modify-write of CONFIG sets the given bits and keeps the rest |
| NodeDriver.ClearConfig | Nucleo/Nucleo_BS_Multi_ACK/main.cpp:259-270 | one read-modify-write of CONFIG clears the given bits and keeps the rest |
| NodeDriver.TxMode | Nucleo/Nucleo_BS_Multi_ACK/main.cpp:259-270 | nRF_TX_Mode leaves the chip as EnterTx says, with CE low and the brackets in source order on the trace |
| NodeDriver.PowerUpTx | Nucleo/Nucleo_BS_Multi_ACK/main.cpp:262-264 | PRIM_RX cleared, then PWR_UP set, as two separate read-modify-writes |
| NodeDriver.RxMode | Nucleo/Nucleo_BS_Multi_ACK/main.cpp:272-283 | nRF_RX_Mode leaves the chip as EnterRx says, with CE high at the end and the brackets in source order on the trace |
| NodeDriver.TxData | Nucleo/Nucleo_BS_Multi_ACK/main.cpp:318-333 | FLUSH_TX, then W_TX_PAYLOAD and the payload in one bracket, CE high, and CE low again only when the firmware pulses it |
| NodeDriver.GetStatus | Nucleo/Nucleo_BS_Multi_ACK/main.cpp:335-342 | a lone NOP whose answer is STATUS; the chip does not change |
| NodeDriver.IsSending | Nucleo/Nucleo_BS_Multi_ACK/main.cpp:344-358 | 0 exactly when TX_DS or MAX_RT is raised; the chip does not change |
| NodeDriver.SendStatus | Nucleo/Nucleo_BS_Multi_ACK/main.cpp:360-385 | TRANSMISSON_OK on TX_DS, otherwise MESSAGE_LOST on MAX_RT, otherwise 0xFF |
| NodeDriver.RetryCount | Nucleo/Nucleo_BS_Multi_ACK/main.cpp:387-393 | the ARC_CNT nibble of OBSERVE_TX, a value below 16 |
| NodeDriver.WaitWhileSending | Nucleo/Nucleo_BS_Multi_ACK/main.cpp:478 | `while(nRF_is_Sending());` leaves the chip alone and ends exactly when TX_DS or MAX_RT is already raised and there is a poll to make; then it polls once |
| NodeDriver.Exchange | AVR/N1_MAX_nRF/N1_MAX_nRF/main.c:479-492 | each byte of buf[..len] is clocked out and replaced by the head payload's byte, and the count of 0xAA bytes received is returned |
| NodeDriver.ExchangeByte | AVR/N1_MAX_nRF/N1_MAX_nRF/main.c:483-491 | buf[i] is replaced by byte i of the head payload, and the 0xAA count grows exactly when that byte is 0xAA |
| NodeDriver.ReadStep | AVR/N1_MAX_nRF/N1_MAX_nRF/main.c:483-491 | one more payload byte extends the head read and the 0xAA count by that byte |
| NodeDriver.ReadPayload | AVR/N1_MAX_nRF/N1_MAX_nRF/main.c:457-477 | R_RX_PAYLOAD and len exchanged bytes in one bracket, then RX_DR written to STATUS: buf[..len] holds the head of the RX FIFO, which is popped |
| NodeDriver.PopThenClear | AVR/N1_MAX_nRF/N1_MAX_nRF/main.c:457-477 | popping the head and then writing RX_DR to STATUS is the state AfterRead describes |
| NodeDriver.AfterRead | AVR/N1_MAX_nRF/N1_MAX_nRF/main.c:457-477 | after an interrupt-driven read only the RX FIFO head and RX_DR have changed |
| NodeDriver.IrqRead | AVR/N1_MAX_nRF/N1_MAX_nRF/main.c:457-477 | the IRQ handler: CE low, then the payload read into buf and RX_DR cleared |
| NodeDriver.Queued | Nucleo/Nucleo_BS_Multi_ACK/main.cpp:318-333 | the chip holds exactly that payload in its TX FIFO |
| NodeDriver.SetupRadio | Nucleo/Nucleo_BS_Multi_ACK/main.cpp:117-144 | nRF_Init's writes: auto-ACK and receiver on pipe 0 only, 5-byte addresses, channel 0x69, RF_SETUP as given |
| NodeDriver.SendAndWait | Nucleo/Nucleo_BS_Multi_ACK/main.cpp:477-478 | the payload pulsed out, the transmission on the air, and the wait ends after one poll because TX_DS or MAX_RT is already raised |
| NodeDriver.TransmitAndWait | Nucleo/Nucleo_BS_Multi_ACK/main.cpp:475-478 | TX mode, then the payload sent and waited for |
| NodeDriver.Listen | Nucleo/Nucleo_BS_Multi_ACK/main.cpp:503-507 | RX mode, flush RX, reset the flags and CE high: the chip listens with empty RX FIFO and clear flags |
| Nrf24Test.Masked | AVR/Test_nRF24L01/Test_nRF24L01_TX/Test_nRF24L01_TX/main.c:270-282 | a register number masked with 0x1F addresses a register below 32 |
| Nrf24Test.MaskKeepsRegister | AVR/Test_nRF24L01/Test_nRF24L01_TX/Test_nRF24L01_TX/Test_nRF24L01_TX.h:50-75 | every address of the register map, up to FEATURE (0x1D), is kept by the 0x1F mask |
| Nrf24Test.MaskAliases | AVR/Test_nRF24L01/Test_nRF24L01_TX/Test_nRF24L01_TX/Test_nRF24L01_TX.h:126 | a register number past the map aliases the register 32 below it |
| Nrf24Test.WriteCommand | AVR/Test_nRF24L01/Test_nRF24L01_TX/Test_nRF24L01_TX/main.c:270-282 | `W_REGISTER OR (0x1F AND reg)` is a register-write command for the masked register |
| Nrf24Test.ReadCommand | AVR/Test_nRF24L01/Test_nRF24L01_TX/Test_nRF24L01_TX/main.c:307-322 | `R_REGISTER OR (0x1F AND reg)` is a register-read command for the masked register |
| Nrf24Test.Echoes | AVR/Test_nRF24L01/Test_nRF24L01_TX/Test_nRF24L01_TX/main.c:325-344 | the chip answers exactly one byte for each of bytes 1 to n of a bracket |
| Nrf24Test.PayloadEchoes | old_data/AVR/Test_nRF24L01/Test_nRF24L01_RX/Test_nRF24L01_RX/main.c:358-382 | the answers in an R_RX_PAYLOAD bracket are the head payload, padded with zeros |
| Nrf24Test.PayloadWriteEchoes | AVR/Test_nRF24L01/Test_nRF24L01_TX/Test_nRF24L01_TX/main.c:347-384 | the answers in a W_TX_PAYLOAD bracket are all 0x00 |
| Nrf24Test.WriteReg | AVR/Test_nRF24L01/Test_nRF24L01_TX/Test_nRF24L01_TX/main.c:270-282 | one bracket: the masked write command, then the data byte; the chip takes the register write |
| Nrf24Test.ReadReg | AVR/Test_nRF24L01/Test_nRF24L01_TX/Test_nRF24L01_TX/main.c:307-322 | one bracket: the masked read command, then a NOP; the NOP's answer is returned and the chip does not change |
| Nrf24Test.SetReg | AVR/Test_nRF24L01/Test_nRF24L01_TX/Test_nRF24L01_TX/main.c:270-282 | Write_Reg on a plain register of the map: that register takes the value, nothing else changes |
| Nrf24Test.ClearStatus | AVR/Test_nRF24L01/Test_nRF24L01_TX/Test_nRF24L01_TX/main.c:270-282 | Write_Reg on STATUS: each interrupt flag set in the value is cleared, nothing else changes |
| Nrf24Test.SetAddress | AVR/Test_nRF24L01/Test_nRF24L01_TX/Test_nRF24L01_TX/main.c:285-304 | Write_Regs of a whole address to RX_ADDR_P0, RX_ADDR_P1 or TX_ADDR replaces that address |
| Nrf24Test.WriteThenRead | AVR/Test_nRF24L01/Test_nRF24L01_TX/Test_nRF24L01_TX/main.c:270-322 | a byte written to a plain register with Write_Reg reads back with Read_Reg |
| Nrf24Test.WriteRegs | AVR/Test_nRF24L01/Test_nRF24L01_TX/Test_nRF24L01_TX/main.c:285-304 | the masked write command, then data[..len] in index order, in one bracket |
| Nrf24Test.ClockNops | AVR/Test_nRF24L01/Test_nRF24L01_TX/Test_nRF24L01_TX/main.c:325-344 | n NOPs are clocked in the open bracket and buf[i] receives the i-th answer, the rest of buf unchanged |
| Nrf24Test.ClockNop | AVR/Test_nRF24L01/Test_nRF24L01_TX/Test_nRF24L01_TX/main.c:336-340 | one NOP of the loop: buf[i] receives answer i + 1 |
| Nrf24Test.ReadRegs | AVR/Test_nRF24L01/Test_nRF24L01_TX/Test_nRF24L01_TX/main.c:325-344 | the masked read command and len NOPs; byte i of data receives the i-th answer and the chip does not change |
| Nrf24Test.AddressReadsBack | AVR/Test_nRF24L01/Test_nRF24L01_TX/Test_nRF24L01_TX/main.c:285-344 | Write_Regs of a whole address, then Read_Regs of five bytes, returns the address |
| Nrf24Test.OneByteRead | AVR/Test_nRF24L01/Test_nRF24L01_TX/Test_nRF24L01_TX/main.c:307-344 | a one-byte Read_Regs returns what Read_Reg returns |
| Nrf24Test.RateOf | AVR/Test_nRF24L01/Test_nRF24L01_TX/Test_nRF24L01_TX/main.c:195-220 | RF_DR_LOW means 250 kbps, RF_DR_HIGH alone 2 Mbps, neither 1 Mbps |
| Nrf24Test.DataRate | AVR/Test_nRF24L01/Test_nRF24L01_TX/Test_nRF24L01_TX/main.c:195-220 | DR_Setup sets the rate bits for a known selector and keeps every other bit; an unknown selector writes the value back unchanged |
| Nrf24Test.PowerLevel | AVR/Test_nRF24L01/Test_nRF24L01_TX/Test_nRF24L01_TX/main.c:223-254 | the power selector is the (RF_PWR_1, RF_PWR_0) pair read as a number |
| Nrf24Test.PowerBits | AVR/Test_nRF24L01/Test_nRF24L01_TX/Test_nRF24L01_TX/main.c:223-254 | OP_Power sets (RF_PWR_1, RF_PWR_0) to 00, 01, 10, 11 for the four levels, every other bit kept, and an unknown selector changes nothing |
| Nrf24Test.FieldsIndependent | AVR/Test_nRF24L01/Test_nRF24L01_TX/Test_nRF24L01_TX/main.c:195-254 | setting the power keeps the data rate, and setting the rate keeps the power |
| Nrf24Test.DrSetup | AVR/Test_nRF24L01/Test_nRF24L01_TX/Test_nRF24L01_TX/main.c:195-220 | RF_SETUP read, its rate bits set for the selector, written back |
| Nrf24Test.OpPower | AVR/Test_nRF24L01/Test_nRF24L01_TX/Test_nRF24L01_TX/main.c:223-254 | RF_SETUP read, its power bits set for the level, written back |
| Nrf24Test.Moded | AVR/Test_nRF24L01/Test_nRF24L01_TX/Test_nRF24L01_TX/main.c:401-439 | power-down writes DEFAULT_CONFIG; TX mode clears the flags and powers up as PTX; RX mode flushes RX, clears the flags and powers up as PRX; other selectors do nothing |
| Nrf24Test.ModeEffects | AVR/Test_nRF24L01/Test_nRF24L01_TX/Test_nRF24L01_TX/main.c:401-439 | power-down can neither send nor receive; TX mode is ready to send with no flag raised; RX mode listens with no flag and an empty RX FIFO; all three have a one-byte CRC |
| Nrf24Test.Mode | AVR/Test_nRF24L01/Test_nRF24L01_TX/Test_nRF24L01_TX/main.c:401-439 | the chip ends as Moded says; CE low for power-down, high at the end of RX mode, untouched otherwise |
| Nrf24Test.ReceiveMode | AVR/Test_nRF24L01/Test_nRF24L01_TX/Test_nRF24L01_TX/main.c:423-437 | the RX branch: the chip ends as Moded says for RX mode, with CE high |
| Nrf24Test.RfSet | AVR/Test_nRF24L01/Test_nRF24L01_TX/Test_nRF24L01_TX/main.c:139-146 | channel 105, then the 2 Mbps and 0 dBm read-modify-writes of RF_SETUP |
| Nrf24Test.AddressSet | AVR/Test_nRF24L01/Test_nRF24L01_TX/Test_nRF24L01_TX/main.c:155-171 | RX_PW_P0 = 1, DYNPD = 0, five-byte addresses, then the pipe 0 and TX addresses |
| Nrf24Test.VerificationSet | AVR/Test_nRF24L01/Test_nRF24L01_TX/Test_nRF24L01_TX/main.c:177-181 | auto-acknowledgement on pipe 0 and no retransmission |
| Nrf24Test.Setup | AVR/Test_nRF24L01/Test_nRF24L01_TX/Test_nRF24L01_TX/main.c:133-181 | channel 105 at 2 Mbps and 0 dBm, one-byte payloads on pipe 0 without dynamic length, five-byte addresses, auto-ACK on pipe 0, no retransmission |
| Nrf24Test.SetupSettings | AVR/Test_nRF24L01/Test_nRF24L01_TX/Test_nRF24L01_TX/main.c:133-181 | after Setup each of those registers holds the promised value, and CONFIG, the FIFOs and the other registers are left alone |
| Nrf24Test.ConfigureRf | AVR/Test_nRF24L01/Test_nRF24L01_TX/Test_nRF24L01_TX/main.c:139-146 | the chip ends as RfSet says |
| Nrf24Test.ConfigureAddresses | AVR/Test_nRF24L01/Test_nRF24L01_TX/Test_nRF24L01_TX/main.c:155-171 | the chip ends as AddressSet says |
| Nrf24Test.Configure | AVR/Test_nRF24L01/Test_nRF24L01_TX/Test_nRF24L01_TX/main.c:133-181 | the chip ends as Setup says |
| Nrf24Test.ConfiguredFor | AVR/Test_nRF24L01/Test_nRF24L01_TX/Test_nRF24L01_TX/main.c:133-191 | Setup, then DEFAULT_CONFIG written to CONFIG, then the mode selected |
| Nrf24Test.ConfigureFor | AVR/Test_nRF24L01/Test_nRF24L01_TX/Test_nRF24L01_TX/main.c:133-191 | the chip ends as ConfiguredFor says for the selected mode |
| Nrf24TestTx.Configured | AVR/Test_nRF24L01/Test_nRF24L01_TX/Test_nRF24L01_TX/main.c:133-191 | the transmitter is ready to send without retransmission, addressed to TX_address, while pipe 0, where an ACK would arrive, listens on a different address |
| Nrf24TestTx.Config | AVR/Test_nRF24L01/Test_nRF24L01_TX/Test_nRF24L01_TX/main.c:133-191 | the chip ends as Configured says |
| Nrf24TestTx.Loaded | AVR/Test_nRF24L01/Test_nRF24L01_TX/Test_nRF24L01_TX/main.c:347-384 | Payload_TX leaves TX mode with the flags cleared and one payload of PAYLOAD_CNT NOP bytes queued; nothing of the caller's buffer reaches the FIFO |
| Nrf24TestTx.PayloadTx | AVR/Test_nRF24L01/Test_nRF24L01_TX/Test_nRF24L01_TX/main.c:347-384 | CE low, TX mode, FLUSH_TX, W_TX_PAYLOAD with PAYLOAD_CNT NOPs whose answers overwrite the buffer, CE left high; the chip ends as Loaded says |
| Nrf24TestTx.QueueNops | AVR/Test_nRF24L01/Test_nRF24L01_TX/Test_nRF24L01_TX/main.c:356-380 | the FLUSH_TX bracket, then the W_TX_PAYLOAD bracket with NOPs |
| Nrf24TestTx.TxDsFlag | AVR/Test_nRF24L01/Test_nRF24L01_TX/Test_nRF24L01_TX/main.c:387-398 | STATUS read with Read_Reg: 0 exactly when TX_DS or MAX_RT is up, else 1 |
| Nrf24TestTx.WaitSent | AVR/Test_nRF24L01/Test_nRF24L01_TX/Test_nRF24L01_TX/main.c:482 | `while(nRF24L01_TX_DS_Flag());` ends after one poll exactly when TX_DS or MAX_RT is already up, otherwise spends all its polls |
| Nrf24TestTx.NeverBlocks | AVR/Test_nRF24L01/Test_nRF24L01_TX/Test_nRF24L01_TX/main.c:347-398 | a transmission from Payload_TX always ends with exactly one of TX_DS and MAX_RT, and TX_DS exactly when ENAA_P0 is clear or the payload was acknowledged within the retry budget to a pipe 0 listening on TX_ADDR |
| Nrf24TestTx.NeverAcknowledged | AVR/Test_nRF24L01/Test_nRF24L01_TX/Test_nRF24L01_TX/main.c:165-178 | as configured, pipe 0 listens on RX_address rather than TX_address, so every transmission ends with MAX_RT and never TX_DS whatever the air does, and the payload stays queued |
| Nrf24TestTx.Step | AVR/Test_nRF24L01/Test_nRF24L01_TX/Test_nRF24L01_TX/main.c:476-482 | one pass: the ADC reading stored in TX_payload[0], Payload_TX, the transmission, the wait; the reading is overwritten by the answer bytes and never sent |
| Nrf24TestRx.Configured | old_data/AVR/Test_nRF24L01/Test_nRF24L01_RX/Test_nRF24L01_RX/main.c:144-203 | the receiver listens on pipe 0 at RX_address with the flags clear and the RX FIFO empty |
| Nrf24TestRx.Config | old_data/AVR/Test_nRF24L01/Test_nRF24L01_RX/Test_nRF24L01_RX/main.c:144-203 | the chip ends as Configured says, with CE high |
| Nrf24TestRx.AddressedToEachOther | old_data/AVR/Test_nRF24L01/Test_nRF24L01_RX/Test_nRF24L01_RX/main.c:59-60 | the receiver's pipe 0 is the transmitter's destination, both expect one-byte payloads, and the transmitter sends one byte |
| Nrf24TestRx.RxFifoEmpty | old_data/AVR/Test_nRF24L01/Test_nRF24L01_RX/Test_nRF24L01_RX/main.c:400-406 | FIFO_STATUS read with Read_Reg: nonzero exactly when the RX FIFO is empty |
| Nrf24TestRx.RxDrFlag | old_data/AVR/Test_nRF24L01/Test_nRF24L01_RX/Test_nRF24L01_RX/main.c:385-396 | 1 when STATUS shows RX_DR (one read); otherwise FIFO_STATUS is read too and the answer is 1 exactly when the RX FIFO is not empty |
| Nrf24TestRx.PayloadRx | old_data/AVR/Test_nRF24L01/Test_nRF24L01_RX/Test_nRF24L01_RX/main.c:358-382 | R_RX_PAYLOAD and PAYLOAD_CNT NOPs: the head payload lands in the buffer and goes to the UART in order, the head is popped and only RX_DR is cleared |
| Nrf24TestRx.Step | old_data/AVR/Test_nRF24L01/Test_nRF24L01_RX/Test_nRF24L01_RX/main.c:476-479 | when RX_DR_Flag answers 1, Payload_RX; a queued payload is always read, and with RX_DR over an empty FIFO a 0x00 byte is forwarded |
| Nrf24TestRx.ReceivedByteForwarded | old_data/AVR/Test_nRF24L01/Test_nRF24L01_RX/Test_nRF24L01_RX/main.c:358-478 | a one-byte payload arriving on pipe 0 of the configured receiver is the byte the next pass forwards, and the receiver is left listening, empty and with no flag raised |
| Nrf24TestRxDraft.Configured | AVR/Test_nRF24L01/Test_nRF24L01_RX/Test_nRF24L01_RX/main.c:93-150 | the draft's Config is Setup alone: CONFIG never written and no mode selected |
| Nrf24TestRxDraft.Config | AVR/Test_nRF24L01/Test_nRF24L01_RX/Test_nRF24L01_RX/main.c:93-150 | the chip ends as the draft's Configured says |
| Nrf24TestRxDraft.NeverPowersUp | AVR/Test_nRF24L01/Test_nRF24L01_RX/Test_nRF24L01_RX/main.c:93-150 | the draft never powers up: CONFIG keeps its value, so from power-on reset it neither listens nor transmits |
| Nrf24TestRxDraft.RetrSetting | AVR/Test_nRF24L01/Test_nRF24L01_RX/Test_nRF24L01_RX/Test_nRF24L01_RX.h:152 | NRF24L01_RETR is 0x47: a 1250 us delay and 7 retransmissions, not the 1500 us and 15 times its comment says |
| AvrPolled.RxKeepsTxIdle | AVR/Node_1/Node_1/main.c:318-334 | payload arrivals and reads touch only RX_DR, so the transmit flags stay as they were |
| AvrPolled.ArrivalIsPending | AVR/Node_1/Node_1/main.c:364-377 | a payload of the width the pipe takes, arriving on an enabled pipe of a listening chip with room in its RX FIFO, makes nrf24_dataReady report data |
| AvrPolled.FixedTx | AVR/Node_1/Node_1/main.c:233-239 | nRF_TX_mode leaves CONFIG = 0x1E (powered up, PTX) and the TX FIFO empty, and keeps the flags |
| AvrPolled.FixedRx | AVR/Node_1/Node_1/main.c:241-249 | nRF_RX_mode leaves CONFIG = 0x1F (powered up, PRX), the RX FIFO empty and the flags clear |
| AvrPolled.RxModeClears | AVR/Node_1/Node_1/main.c:241-249 | clearing the flags just before nRF_RX_mode changes nothing, because the mode switch clears them too |
| AvrPolled.FixedTxMode | AVR/Node_1/Node_1/main.c:233-239 | CE low, CONFIG = 0x1E, TX FIFO flushed; the chip ends as FixedTx says |
| AvrPolled.FixedRxMode | AVR/Node_1/Node_1/main.c:241-249 | CE low, CONFIG = 0x1F, RX FIFO flushed, 0x70 to STATUS, CE high; the chip ends as FixedRx says |
| AvrPolled.RxFifoEmpty | AVR/Node_1/Node_1/main.c:380-387 | 1 exactly when the RX FIFO is empty; the chip does not change |
| AvrPolled.DataReady | AVR/Node_1/Node_1/main.c:364-377 | 1 when STATUS shows RX_DR, otherwise 1 exactly when the RX FIFO is not empty |
| AvrPolled.SendHeld | AVR/Node_1/Node_1/main.c:284-316 | transmit_data leaving CE high, the transmission, then `while(nrf24_isSending());`, which ends after one poll with TX_DS or MAX_RT raised |
| AvrPolled.Strlen | AVR/Rbkyo_TX/Rbkyo_TX/main.c:197-205 | the length of a C string is the index of its first NUL, and no NUL comes before it |
| AvrPolled.StrlenOf | AVR/Rbkyo_TX/Rbkyo_TX/main.c:197-205 | a string's length depends only on its first NUL: what follows it does not matter |
| AvrPolled.Packet | AVR/Rbkyo_TX/Rbkyo_TX/main.c:171-187 | one transmit_data of a single byte queues that byte and the air acts on it |
| AvrPolled.Sent | AVR/Rbkyo_TX/Rbkyo_TX/main.c:197-205 | sending a string is sending its characters one packet each, in order |
| AvrPolled.Packets | AVR/Rbkyo_TX/Rbkyo_TX/main.c:197-205 | the wire events of a string are one packet's events per character |
| AvrPolled.PacketOrder | AVR/Rbkyo_TX/Rbkyo_TX/main.c:197-205 | character k goes out as the payload of packet k, in order, and every packet is one byte |
| AvrPolled.SentAppend | AVR/Rbkyo_TX/Rbkyo_TX/main.c:197-205 | sending a concatenation is sending its parts one after the other |
| AvrPolled.LostBlocksTheRest | AVR/Rbkyo_TX/Rbkyo_TX/main.c:171-205 | once MAX_RT is up nothing reaches the air: each later character is only queued, and the chip ends with the last one in its TX FIFO |
| AvrPolled.SentSnoc | AVR/Rbkyo_TX/Rbkyo_TX/main.c:197-205 | one more character appends one packet to what the chip went through |
| AvrPolled.PacketsAppend | AVR/Rbkyo_TX/Rbkyo_TX/main.c:197-205 | the wire events of a concatenation are those of its parts one after the other |
| AvrPolled.LostAt | AVR/Rbkyo_TX/Rbkyo_TX/main.c:171-187 | a character lost while the chip could send it with ENAA_P0 set leaves MAX_RT up after the string so far |
| AvrPolled.LostThenRest | AVR/Rbkyo_TX/Rbkyo_TX/main.c:171-205 | after a string that ended with MAX_RT up, every later character is only queued |
| AvrPolled.LostRaisesMaxRt | AVR/Rbkyo_TX/Rbkyo_TX/main.c:171-187 | a loss on a chip that can send raises MAX_RT exactly when the chip waits for an acknowledgement: the head payload asked for one and ENAA_P0 is set |
| AvrPolled.PutString | AVR/Rbkyo_TX/Rbkyo_TX/main.c:197-205 | one transmit_data per character up to the NUL, in order, each followed by its air event; the chip ends as Sent says and the trace is Packets |
| AvrPolled.PutChar | AVR/Rbkyo_TX/Rbkyo_TX/main.c:199-203 | character n of the string is sent after the characters before it |
| AvrPolled.SendChar | AVR/Rbkyo_TX/Rbkyo_TX/main.c:171-187 | transmit_data of one character with a CE pulse, then its air event |
| RbkyoRx.Initialised | AVR/Rbkyo_RX/Rbkyo_RX/main.c:130-201 | after Init_nrf and main's flush, reset and CE high the chip listens on pipe 0 for 32-byte payloads with the RX FIFO empty and no flag raised |
| RbkyoRx.Receiver.constructor | AVR/Rbkyo_RX/Rbkyo_RX/main.c:299-307 | main up to its loop leaves the chip as Initialised says, with CE high |
| RbkyoRx.Receiver.Poll | AVR/Rbkyo_RX/Rbkyo_RX/main.c:309-315 | when nrf24_dataReady reports data, nrf24_getData reads the 32-byte head into the buffer and clears RX_DR; otherwise nothing changes |
| RbkyoTx.MessageLength | AVR/Rbkyo_TX/Rbkyo_TX/main.c:224 | "Hmmmmmm...\n" is eleven characters, so eleven packets go out per pass |
| RbkyoTx.Initialised | AVR/Rbkyo_TX/Rbkyo_TX/main.c:76-147 | Init_nrf leaves EN_AA at its reset value (its write is commented out) and CONFIG = 0x1E, with the common register set |
| RbkyoTx.Init | AVR/Rbkyo_TX/Rbkyo_TX/main.c:76-147 | the chip ends as Initialised says |
| RbkyoTx.Addressing | AVR/Rbkyo_TX/Rbkyo_TX/main.c:96-144 | both addresses 01 02 03 04 05, one-byte payloads, CONFIG = 0x1E |
| RbkyoTx.Radio | AVR/Rbkyo_TX/Rbkyo_TX/main.c:84-93 | pipe 0 enabled, 5-byte addresses, channel 0x69, 2 Mbps at 0 dBm |
| RbkyoTx.Step | AVR/Rbkyo_TX/Rbkyo_TX/main.c:224-230 | the message sent one character per packet as PutString says, then the flags reset twice |
| RbkyoTx.SendMessage | AVR/Rbkyo_TX/Rbkyo_TX/main.c:224 | nRF_Put_String of the message: its eleven characters, one packet each |
| OldRbkyoTx.Initialised | old_data/AVR/Rbkyo_TX/Rbkyo_TX/main.c:87-158 | Init_nrf: the common register set and CONFIG = 0x1E |
| OldRbkyoTx.AddressedToRbkyoRx | old_data/AVR/Rbkyo_TX/Rbkyo_TX/main.c:87-158 | the 32-byte payload fills Rbkyo_RX's pipe 0 at the address Rbkyo_RX listens on |
| OldRbkyoTx.Sender.constructor | old_data/AVR/Rbkyo_TX/Rbkyo_TX/main.c:246-252 | Init_nrf from a chip with no transmit flag raised leaves it as Initialised says |
| OldRbkyoTx.Sender.Step | old_data/AVR/Rbkyo_TX/Rbkyo_TX/main.c:254-258 | transmit_data with CE left high, the wait, then reset: the payload delivered or lost, and the flags clear again |
| TestBnoTx.Initialised | AVR/Test_BNO_nRF_TX/Test_BNO_nRF_TX/main.c:145-216 | auto-ACK on pipe 0, both addresses 01 02 03 04 05, one-byte payloads, 750 us between at most 15 retransmissions, CONFIG = 0x1E; CE low and the flags kept |
| TestBnoTx.Init | AVR/Test_BNO_nRF_TX/Test_BNO_nRF_TX/main.c:145-216 | the chip ends as Initialised says |
| TestBnoTx.Degrees | AVR/Test_BNO_nRF_TX/Test_BNO_nRF_TX/main.c:319-323 | the float product truncated back to int is the raw reading divided by 16, rounded toward zero |
| TestBnoTx.DegreesOfWhole | AVR/Test_BNO_nRF_TX/Test_BNO_nRF_TX/main.c:319-321 | a reading that is a whole number of degrees comes out exactly |
| TestBnoTx.DegreesSymmetric | AVR/Test_BNO_nRF_TX/Test_BNO_nRF_TX/main.c:319-321 | a negated reading gives the negated angle |
| TestBnoTx.Digits | AVR/Test_BNO_nRF_TX/Test_BNO_nRF_TX/main.c:323 | the decimal digits of a number, most significant first, without leading zeros |
| TestBnoTx.Itoa | AVR/Test_BNO_nRF_TX/Test_BNO_nRF_TX/main.c:323 | itoa's text: a minus sign for negative values, then the digits of the magnitude |
| TestBnoTx.ValueOfDigits | AVR/Test_BNO_nRF_TX/Test_BNO_nRF_TX/main.c:323 | reading the digits back gives the number |
| TestBnoTx.ItoaRoundTrip | AVR/Test_BNO_nRF_TX/Test_BNO_nRF_TX/main.c:323 | itoa's text denotes its argument |
| TestBnoTx.UnsignedRoundTrip | AVR/Test_BNO_nRF_TX/Test_BNO_nRF_TX/main.c:323 | the digits of n alone denote n |
| TestBnoTx.SignedRoundTrip | AVR/Test_BNO_nRF_TX/Test_BNO_nRF_TX/main.c:323 | a minus sign and the digits of n denote -n |
| TestBnoTx.DigitsFit | AVR/Test_BNO_nRF_TX/Test_BNO_nRF_TX/main.c:292 | a number below 10^k has at most k digits |
| TestBnoTx.AngleFits | AVR/Test_BNO_nRF_TX/Test_BNO_nRF_TX/main.c:292-323 | every angle the firmware formats is at most five characters, so String_Data[16] holds it with its NUL |
| TestBnoTx.Until | AVR/Test_BNO_nRF_TX/Test_BNO_nRF_TX/main.c:266-274 | the index of the first stop character, or the end |
| TestBnoTx.Expect | AVR/Test_BNO_nRF_TX/Test_BNO_nRF_TX/main.c:325-369 | the rest of a string after a tag, or None when it does not start with it |
| TestBnoTx.ExpectOf | AVR/Test_BNO_nRF_TX/Test_BNO_nRF_TX/main.c:325-369 | a tag is read off the front of a string that starts with it |
| TestBnoTx.FieldOf | AVR/Test_BNO_nRF_TX/Test_BNO_nRF_TX/main.c:323-326 | itoa's text followed by a terminator it cannot contain is read back as its value |
| TestBnoTx.LineRoundTrip | AVR/Test_BNO_nRF_TX/Test_BNO_nRF_TX/main.c:319-369 | the line "Y: <yaw> R: <roll> P: <pitch>\n" gives back the three angles it was made of |
| TestBnoTx.SendMore | AVR/Test_BNO_nRF_TX/Test_BNO_nRF_TX/main.c:266-274 | nRF_Put_String of a string without NUL: its characters follow the earlier ones in the packets |
| TestBnoTx.SendField | AVR/Test_BNO_nRF_TX/Test_BNO_nRF_TX/main.c:325-326 | a tag and the text of an angle, as two nRF_Put_String calls |
| TestBnoTx.Step | AVR/Test_BNO_nRF_TX/Test_BNO_nRF_TX/main.c:319-369 | one pass: the three raw words as int16_t, each turned into degrees and text, and the line sent one character per packet |
| TestBnoTx.Reading | AVR/Test_BNO_nRF_TX/Test_BNO_nRF_TX/main.c:319-365 | the three angles of one pass from the (MSB, LSB) pairs of the Euler registers |
| TestBnoTx.Report | AVR/Test_BNO_nRF_TX/Test_BNO_nRF_TX/main.c:325-369 | the seven nRF_Put_String calls of one pass send exactly the line |
| TestBnoTx.StalledForever | AVR/Test_BNO_nRF_TX/Test_BNO_nRF_TX/main.c:258-264 | nothing clears MAX_RT: once a character is lost, every later line only queues characters and the chip keeps the final newline in its TX FIFO |
| AvrBaseStation.Initialised | AVR/Base_Station/Base_Station/main.c:161-230 | nRF_Init leaves the common register set, ENAA_P0 set, SETUP_RETR = 0x2F and the chip in TX mode |
| AvrBaseStation.AddressedToNode1 | AVR/Base_Station/Base_Station/main.c:32-34 | the station and Node_1 address each other: each one's TX address is the other's pipe 0 address, and both expect eight-byte payloads |
| AvrBaseStation.RequestTriggersNode1 | AVR/Base_Station/Base_Station/main.c:25-29 | the request, eight bytes 0xAA, brings Node_1's counter from zero to eight, and no other eight bytes do |
| AvrBaseStation.NeverAcknowledged | AVR/Base_Station/Base_Station/main.c:164-210 | with ENAA_P0 set, as nRF_Init leaves it, pipe 0 listens on RX_ADDRESS while requests go to TX_ADDRESS, so every request ends with MAX_RT after the whole retry budget whatever the air does, and the pass keeps both addresses for the next request |
| AvrBaseStation.Request | AVR/Base_Station/Base_Station/main.c:427-443 | the request sent and waited for, the flags reset, RX mode and CE high: the chip listens with the request delivered or lost |
| AvrBaseStation.Station.constructor | AVR/Base_Station/Base_Station/main.c:403-415 | main up to its loop: the chip as Initialised says, mode 0, interrupts disabled |
| AvrBaseStation.Station.Isr | AVR/Base_Station/Base_Station/main.c:361-393 | CE low, the eight bytes read into BS_payload_RX and echoed to the UART in order, RX_DR cleared, and mode set back to 0 so main sends the next request |
| AvrBaseStation.Station.Step | AVR/Base_Station/Base_Station/main.c:418-450 | in mode 0: TX mode, the request sent (transmit_data ignores its argument) and waited for, the flags reset, mode 1, RX mode, CE high, interrupts on; in mode 1 nothing changes |
| AvrNode.Addressed | old_data/AVR/N2_ACK_INT/N2_ACK_INT/main.c:235-267 | the radio set-up, the pipe-0 receive address, the transmit address and RX_PW_P0, as the nodes write them |
| AvrNode.Configured | old_data/AVR/N2_ACK_INT/N2_ACK_INT/main.c:235-270 | the registers nRF_Init sets before its switch to RX mode, including SETUP_RETR |
| AvrNode.WriteAddresses | old_data/AVR/N2_ACK_INT/N2_ACK_INT/main.c:278-314 | the pipe-0 receive address and the transmit address, each in its own bracket and in array order, land in RX_ADDR_P0 and TX_ADDR |
| AvrNode.Init | old_data/AVR/N2_ACK_INT/N2_ACK_INT/main.c:235-276 | auto-ACK and RX on pipe 0, 5-byte addresses, channel 0x69, RF_SETUP 0x26, the two addresses, RX_PW_P0, SETUP_RETR, then RX mode with CE high |
| AvrNode.Setup | old_data/AVR/N2_ACK_INT/N2_ACK_INT/main.c:235-270 | the chip ends as Configured says |
| AvrNode.SetupAddressed | old_data/AVR/N2_ACK_INT/N2_ACK_INT/main.c:235-267 | the chip ends as Addressed says |
| AvrNode.StartListening | old_data/AVR/N2_ACK_INT/N2_ACK_INT/main.c:521-523 | flush RX, reset the flags, CE high: the node listens with an empty RX FIFO and clear flags |
| AvrNode.TxModeIsReady | old_data/AVR/N2_ACK_INT/N2_ACK_INT/main.c:316-327 | after TX mode the chip is powered up as PTX with an empty TX FIFO, ready for nRF_TX_Data |
| AvrNode.Answer | old_data/AVR/N2_ACK_INT/N2_ACK_INT/main.c:533-564 | TX mode, the payload sent and waited for, then RX mode, flush, reset and CE high |
| AvrNode.ResetThenListen | AVR/N1_MAX_nRF/N1_MAX_nRF/main.c:552-557 | nRF_Reset, RX mode, a second RX flush, CE high |
| AvrNode.TriggerIsRequest | AVR/N1_MAX_nRF/N1_MAX_nRF/main.c:479-492 | from a zero count the reply is due exactly when the head payload starts with len bytes 0xAA |
| GaugeNode.TestNodeNeverTriggered | old_data/AVR/Test_MAX17043_N1_TX/Test_MAX17043_N1_TX/main.c:241 | with RX_PW_P0 = 8 and no dynamic payload length, the station's four-byte request never enters Test_MAX17043_N1_TX's RX FIFO: the chip, its flags and the count stay as they were, so no reply is ever sent |
| GaugeNode.RequestTriggers | AVR/N1_MAX_nRF/N1_MAX_nRF/main.c:457-477 | with RX_PW_P0 = 4, the request arriving at a listening N1_MAX_nRF with pipe 0 enabled and an empty RX FIFO is queued with RX_DR, and the handler's read brings the count to 4, so the reply is due |
| GaugeNode.ConfiguredWidth | AVR/N1_MAX_nRF/N1_MAX_nRF/main.c:338 | nRF_Init sets pipe 0 to the firmware's width and leaves dynamic payload length as it was, then RX mode listens |
| GaugeNode.Node.constructor | AVR/N1_MAX_nRF/N1_MAX_nRF/main.c:507-532 | nRF_Init with the firmware's RX_PW_P0, the counter cleared, flush, reset, CE high |
| GaugeNode.Node.Isr | AVR/N1_MAX_nRF/N1_MAX_nRF/main.c:457-477 | CE low, four bytes read with one count per 0xAA byte, RX_DR cleared |
| GaugeNode.Node.Step | AVR/N1_MAX_nRF/N1_MAX_nRF/main.c:537-558 | only when the count is exactly 4: count cleared, TX mode, the gauge reading stored in the reply, the reply sent and waited for, reset, RX mode, flush, CE high |
| N2AckInt.RetrySetting | old_data/AVR/N2_ACK_INT/N2_ACK_INT/main.c:268-269 | SETUP_RETR = 0xFF is a 4000 us delay with 15 retransmissions, not the 750 us its comment says |
| N2AckInt.Node.constructor | old_data/AVR/N2_ACK_INT/N2_ACK_INT/main.c:508-523 | nRF_Init ending in RX mode, the counter cleared, flush, reset, CE high |
| N2AckInt.Node.Isr | old_data/AVR/N2_ACK_INT/N2_ACK_INT/main.c:458-477 | CE low, ten bytes read with one count per 0xAA byte, RX_DR cleared |
| N2AckInt.Node.Step | old_data/AVR/N2_ACK_INT/N2_ACK_INT/main.c:526-566 | only when the count is exactly 10: count cleared, TX mode, the fixed payload sent and waited for, RX mode, flush, reset, CE high |
| N1BnoMax.Node.constructor | old_data/AVR/N1_BNO_MAX_nRF/N1_BNO_MAX_nRF/main.c:619-636 | nRF_Init with N1_address and BS_address ending in RX mode, NODE_ID and IMU_ID in bytes 0 and 1 of the reply, flush, reset, CE high |
| N1BnoMax.Node.Isr | old_data/AVR/N1_BNO_MAX_nRF/N1_BNO_MAX_nRF/main.c:569-588 | CE low, ten bytes read with one count per 0xAA byte, RX_DR cleared |
| N1BnoMax.Node.Step | old_data/AVR/N1_BNO_MAX_nRF/N1_BNO_MAX_nRF/main.c:639-686 | only when the count is exactly 10: count cleared, the quaternion in bytes 2 to 9 (bytes 0 and 1 kept), TX mode, the reply sent and waited for, RX mode, flush, reset, CE high |
| N1BnoMax.Node.Prepare | old_data/AVR/N1_BNO_MAX_nRF/N1_BNO_MAX_nRF/main.c:274-288 | the quaternion bytes land in bytes 2 to 9 of the reply and bytes 0 and 1 are kept |
| EgFinal.NextSensor | old_data/AVR/EG_Final/EG_Final/main.c:636-641 | `Sensor_cnt++` with the wrap back to 1 past MAX_IMU_COUNT keeps the count within 1..6 |
| EgFinal.SensorAfter | old_data/AVR/EG_Final/EG_Final/main.c:608-641 | Sensor_cnt after k replies is within 1..6 |
| EgFinal.SensorCycle | old_data/AVR/EG_Final/EG_Final/main.c:608-641 | reply k (from 0) reads IMU k mod 6 + 1, so the IMUs take turns 1, 2, ..., 6, 1, ... |
| EgFinal.ReplyNamesRoutedImu | old_data/AVR/EG_Final/EG_Final/main.c:625-628 | every reply names the IMU the multiplexer lines route onto the bus |
| EgFinal.Node.constructor | old_data/AVR/EG_Final/EG_Final/main.c:591-612 | nRF_Init ending in RX mode, counter cleared, NODE_ID in byte 0, Sensor_cnt 1, flush, reset, CE high |
| EgFinal.Node.Isr | old_data/AVR/EG_Final/EG_Final/main.c:541-560 | CE low, the payload read into N2_payload_RX with one count per 0xAA byte, RX_DR cleared |
| EgFinal.Node.Step | old_data/AVR/EG_Final/EG_Final/main.c:615-649 | only when the count is exactly PAYLOAD_LEN: count cleared, TX mode, IMU Sensor_cnt selected and reported, the reply sent and waited for, Sensor_cnt advanced with the wrap, back to listening |
| EgFinal.Node.Prepare | old_data/AVR/EG_Final/EG_Final/main.c:625-630 | BNO_MUX_Select(Sensor_cnt), Sensor_cnt into byte 1, the quaternion into bytes 2 to 9 |
| Node1.Initialised | AVR/Node_1/Node_1/main.c:160-231 | Init_nrf leaves the common register set with ENAA_P0 set and SETUP_RETR at its value, then RX mode |
| Node1.ListenAgainIsIdle | AVR/Node_1/Node_1/main.c:476-478 | the flush, reset and CE high in main repeat what nRF_RX_mode has just done |
| Node1.OvershootNeedsWrap | AVR/Node_1/Node_1/main.c:337-351 | once the uint8_t counter has passed eight it can reach eight again only by wrapping, after at least 264 - c more 0xAA bytes |
| Node1.NeverAcknowledged | AVR/Node_1/Node_1/main.c:165-210 | with ENAA_P0 set, as Init_nrf leaves it, pipe 0 listens on RX_ADDRESS while answers go to TX_ADDRESS, so every answer from an idle transmitter ends with MAX_RT and never TX_DS whatever the air does, and RX mode keeps both addresses |
| Node1.Node.constructor | AVR/Node_1/Node_1/main.c:461-481 | Init_nrf, then flush, reset, CE high, and the counter cleared |
| Node1.Node.Poll | AVR/Node_1/Node_1/main.c:486-489 | when nrf24_dataReady reports data, nrf24_getData reads eight bytes counting each 0xAA and clears RX_DR; otherwise nothing changes |
| Node1.Node.Step | AVR/Node_1/Node_1/main.c:493-522 | only when the count is exactly eight: count cleared, quaternion read, TX mode, the payload sent with CE left high and waited for, flags reset, RX mode |
| Node1.Node.ReadQuaternions | AVR/Node_1/Node_1/main.c:397-454 | the eight quaternion bytes, W to Z, LSB first, land in the payload in order |
| Node1.Node.Reply | AVR/Node_1/Node_1/main.c:503-519 | nRF_TX_mode, transmit_data, the wait, reset and nRF_RX_mode |
| Sensors.GaugePayload | AVR/N1_MAX_nRF/N1_MAX_nRF/main.c:164-195 | the reply holds VCELL MSB, VCELL LSB, SOC MSB, SOC LSB at indices 0 to 3 |
| Sensors.StoreGauge | AVR/N1_MAX_nRF/N1_MAX_nRF/main.c:164-195 | each register's MSB and LSB are stored in the reply, VCELL at 0 and 1, SOC at 2 and 3, and nothing else changes |
| Sensors.CellReading | Nucleo/Nucleo_MAX17043_BS_RX/main.cpp:321-329 | the station's raw cell reading is the big-endian word shifted right by 4, below 4096 |
| Sensors.SocPercent | Nucleo/Nucleo_MAX17043_BS_RX/main.cpp:331-336 | the whole-percent part of the printed state of charge is the MSB |
| Sensors.GaugeRoundTrip | Nucleo/Nucleo_MAX17043_BS_RX/main.cpp:321-336 | the reading the station decodes from a node's payload is the gauge's 12-bit cell voltage and the whole-percent state of charge |
| Sensors.RawWord | old_data/AVR/EG_BNO_MUX/EG_BNO_MUX/main.c:321-323 | `(MSB << 8) OR LSB` read as int16_t is the two's-complement value of the byte pair |
| Sensors.Pattern | old_data/AVR/EG_BNO_MUX/EG_BNO_MUX/main.c:321-323 | the 16-bit pattern of an int16_t value is below 65536 |
| Sensors.WordRoundTrip | old_data/AVR/EG_BNO_MUX/EG_BNO_MUX/main.c:321-323 | assembling the word from the high and low byte recovers every int16_t the IMU can report |
| Sensors.WordInjective | old_data/AVR/EG_BNO_MUX/EG_BNO_MUX/main.c:321-323 | no two byte pairs give the same word |
| Sensors.StoreQuaternion | old_data/AVR/EG_Final/EG_Final/main.c:248-262 | the eight bytes of one burst read land at payload indices 2 to 9, and indices 0 and 1 are not touched |
| Sensors.SplitCalibration | old_data/AVR/EG_BNO_MUX/EG_BNO_MUX/main.c:270-305 | sys = bits 7-6, gyro = bits 5-4, acc = bits 3-2, mag = bits 1-0, each below 4 |
| Sensors.CalibrationRoundTrip | old_data/AVR/EG_BNO_MUX/EG_BNO_MUX/main.c:270-305 | the four fields put back together give the calibration byte, and each field reads back on its own |
| Sensors.MuxInput | old_data/AVR/EG_Final/EG_Final/main.c:197-246 | the select lines address input 4*S2 + 2*S1 + S0, below 8 |
| Sensors.MuxWiring | old_data/AVR/EG_Final/EG_Final/main.c:197-246 | IMUs 1..6 sit on inputs Y5, Y4, Y2, Y1, Y0, Y3 |
| Sensors.LinesAddress | old_data/AVR/EG_Final/EG_Final/main.c:197-246 | driving the three lines to given levels addresses the input they spell and touches no other pin |
| Sensors.MuxSelectsWiring | old_data/AVR/EG_Final/EG_Final/main.c:197-246 | for channels 1..6 the select lines address the IMU's input; any other channel leaves the port unchanged; other PORTD pins never change |
| Sensors.WiringIsInjective | old_data/AVR/EG_Final/EG_Final/main.c:197-246 | no two IMUs share an input |
| Sensors.PortD.MuxSelect | old_data/AVR/EG_Final/EG_Final/main.c:197-246 | three read-modify-writes of PORTD, one per select line, leave the port as MuxSelectsWiring says |
| Sensors.CellOfWord | Nucleo/Nucleo_MAX17043_BS_RX/main.cpp:321-329 | the VCELL word split into MSB and LSB gives back the word shifted right by 4 |
| Sensors.SocOfWord | Nucleo/Nucleo_MAX17043_BS_RX/main.cpp:331-336 | the MSB of the SOC word is its whole-percent part |
| Sensors.PortD.constructor | old_data/AVR/EG_Final/EG_Final/main.c:197-246 | PORTD starts with the given pin values |
| NucleoStation.AddressBytes | Nucleo/Nucleo_BS_Multi_ACK/main.cpp:177-257 | nRF_Set_Addr_TX/RX clock out the node's five address bytes exactly for ids 0x01 and 0x02, and nothing for any other id |
| NucleoStation.AddressesDistinct | Nucleo/Nucleo_BS_Multi_ACK/main.cpp:39-40 | N1_address and N2_address differ, so selecting one node never reaches the other |
| NucleoStation.Selected | Nucleo/Nucleo_BS_Multi_ACK/main.cpp:150-175 | after nRF_Node_Select a known node's address is in TX_ADDR and RX_ADDR_P0; an unknown id leaves the chip unchanged; registers and FIFOs are never touched |
| NucleoStation.SetAddress | Nucleo/Nucleo_BS_Multi_ACK/main.cpp:177-257 | one bracket: the write command then the node's address bytes; a known id lands in the named address register, an unknown one changes nothing |
| NucleoStation.NodeSelect | Nucleo/Nucleo_BS_Multi_ACK/main.cpp:150-175 | for ids 0x01 and 0x02 the same address goes to TX_ADDR and then RX_ADDR_P0; any other id writes nothing and leaves the chip as it was |
| NucleoStation.Init | Nucleo/Nucleo_BS_Multi_ACK/main.cpp:117-148 | EN_AA and EN_RXADDR 0x01, SETUP_AW 0x03, RF_CH 0x69, RF_SETUP 0x26, RX_PW_P0, SETUP_RETR 0xFF, then TX mode with clear flags and an empty TX FIFO; addresses and RX FIFO untouched |
| NucleoStation.Setup | Nucleo/Nucleo_BS_Multi_ACK/main.cpp:117-141 | the seven register writes, in order, and nothing else |
| NucleoStation.RequestOutcome | Nucleo/Nucleo_BS_Multi_ACK/main.cpp:360-384 | after a request to a node nRF_send_Status reports TRANSMISSON_OK exactly when ENAA_P0 is clear or the node acknowledged within the SETUP_RETR budget to a station pipe 0 listening on its address, and MESSAGE_LOST exactly otherwise; never 0xFF once the wait has ended |
| NucleoStation.SelectedMatches | Nucleo/Nucleo_BS_Multi_ACK/main.cpp:177-240 | selecting a known node writes its address to both TX_ADDR and RX_ADDR_P0, so the station can see the node's acknowledgement |
| NucleoStation.PollNode | Nucleo/Nucleo_BS_Multi_ACK/main.cpp:471-478 | select, TX mode, the request queued and sent over the air; the chip ends as the transmission leaves it |
| NucleoStation.PollAndListen | Nucleo/Nucleo_BS_Multi_ACK/main.cpp:471-507 | a poll of the node, then RX mode, flush, reset, CE high: the chip listens, still addressed to the node |
| NucleoMultiAck.Polled | Nucleo/Nucleo_BS_Multi_ACK/main.cpp:464-467 | the cursor check always leaves a valid table index, and keeps a cursor that is one |
| NucleoMultiAck.CursorAfter | Nucleo/Nucleo_BS_Multi_ACK/main.cpp:451-498 | the cursor never passes NRF_TOTAL_NODES |
| NucleoMultiAck.RoundRobin | Nucleo/Nucleo_BS_Multi_ACK/main.cpp:457-511 | pass k polls table entry k mod 2: the nodes are polled 0x01, 0x02, 0x01, ... |
| NucleoMultiAck.BaseStation.constructor | Nucleo/Nucleo_BS_Multi_ACK/main.cpp:437-454 | nRF_Init with RX_PW_P0 = PAYLOAD_LEN and SETUP_RETR 0xFF, powered up as PTX, mode 0, cursor 0 |
| NucleoMultiAck.BaseStation.Round | Nucleo/Nucleo_BS_Multi_ACK/main.cpp:457-511 | with mode 0: the node under the wrapped cursor polled, the cursor advanced, mode 1, listening; with mode 1 nothing changes |
| NucleoMultiAck.BaseStation.TxPass | Nucleo/Nucleo_BS_Multi_ACK/main.cpp:464-508 | the node polled is NRF_NODES[Polled(cursor)], the cursor ends one past it, and the chip listens addressed to that node |
| NucleoMultiAck.BaseStation.Irq | Nucleo/Nucleo_BS_Multi_ACK/main.cpp:395-415 | the reply is the head RX payload's first PAYLOAD_LEN bytes, the entry leaves the FIFO, RX_DR is cleared, CE is low and mode is 0 |
| NucleoBnoMax.Polled | old_data/Nucleo/Nucleo_BNO_MAX_nRF/main.cpp:492-495 | with a one-entry table the cursor check always leaves index 0 |
| NucleoBnoMax.CursorAfter | old_data/Nucleo/Nucleo_BNO_MAX_nRF/main.cpp:473-536 | the cursor never passes NRF_TOTAL_NODES |
| NucleoBnoMax.AlwaysNodeOne | old_data/Nucleo/Nucleo_BNO_MAX_nRF/main.cpp:485-547 | every pass polls node 0x01, and after the first pass the cursor is 1 at the end of every pass |
| NucleoBnoMax.BaseStation.constructor | old_data/Nucleo/Nucleo_BNO_MAX_nRF/main.cpp:459-482 | nRF_Init with RX_PW_P0 = 0x0A and RF_SETUP 0x26, mode 0, cursor 0 |
| NucleoBnoMax.BaseStation.Round | old_data/Nucleo/Nucleo_BNO_MAX_nRF/main.cpp:485-547 | with mode 0: node 0x01 polled, the cursor advanced, mode 1, listening; with mode 1 nothing changes |
| NucleoBnoMax.BaseStation.Irq | old_data/Nucleo/Nucleo_BNO_MAX_nRF/main.cpp:388-408 | the reply read from the head RX payload, the entry popped, RX_DR cleared, CE low, mode 0 |
| NucleoBsFinal.Selects | Nucleo/Nucleo_BS_Final/main.cpp:466-477 | cursor 0 always selects entry 0; entry 1 is selected exactly when the cursor is 1 and the change flag is 1; nothing else is selected |
| NucleoBsFinal.Next | Nucleo/Nucleo_BS_Final/main.cpp:466-495 | one round keeps the schedule in range: cursor 0 or 1, flag 0 or 1, IMU_cnt 1..7 |
| NucleoBsFinal.SelectedFor | Nucleo/Nucleo_BS_Final/main.cpp:466-477 | the chip after the select step is a valid chip state |
| NucleoBsFinal.Run | Nucleo/Nucleo_BS_Final/main.cpp:446-495 | the schedule after any number of rounds stays in range |
| NucleoBsFinal.RunIsPeriodic | Nucleo/Nucleo_BS_Final/main.cpp:461-495 | the schedule repeats with period 7 rounds |
| NucleoBsFinal.OnceThenSixTimes | Nucleo/Nucleo_BS_Final/main.cpp:461-495 | round k polls node 0x01 when k mod 7 is 0 and node 0x02 otherwise; an address is written exactly in rounds with k mod 7 of 0 or 1 |
| NucleoBsFinal.SendAndListen | Nucleo/Nucleo_BS_Final/main.cpp:481-503 | TX mode, the request sent and waited for, RX mode, flush, reset, CE high; the TX address is the one already in the chip |
| NucleoBsFinal.BaseStation.constructor | Nucleo/Nucleo_BS_Final/main.cpp:427-458 | nRF_Init with RX_PW_P0 = PAYLOAD_LEN, powered up as PTX, mode 0, button released, schedule at its start |
| NucleoBsFinal.BaseStation.ButtonInterrupt | Nucleo/Nucleo_BS_Final/main.cpp:420-425 | Button_State becomes 1 |
| NucleoBsFinal.BaseStation.Round | Nucleo/Nucleo_BS_Final/main.cpp:461-504 | nothing happens unless mode is 0 and the button was pressed; then select per the schedule, send and listen, the schedule advanced, mode 1 |
| NucleoBsFinal.BaseStation.SelectStep | Nucleo/Nucleo_BS_Final/main.cpp:466-477 | the schedule moves as AfterSelect says, IMU_cnt kept, and the chip is SelectedFor the old schedule |
| NucleoBsFinal.BaseStation.Irq | Nucleo/Nucleo_BS_Final/main.cpp:378-397 | the reply read from the head RX payload, the entry popped, RX_DR cleared, CE low, mode 0 |
| NextionFrame.Store | Nucleo/Nucleo_BNO_MAX_Nex_nRF/main.cpp:103-111 | one byte stored at the count, and the count advances modulo NEX_UART_RX_LEN |
| NextionFrame.StoreAll | Nucleo/Nucleo_BNO_MAX_Nex_nRF/main.cpp:103-111 | a sequence of bytes keeps the receiver well formed |
| NextionFrame.Accumulate | Nucleo/Nucleo_BNO_MAX_Nex_nRF/main.cpp:103-111 | bytes that do not complete a frame land at consecutive positions, and no prefix of them completes one |
| NextionFrame.FullFrame | Nucleo/Nucleo_BNO_MAX_Nex_nRF/main.cpp:103-112 | from count 0, the first six bytes of a frame do not complete it, the seventh does, and buffer byte 2 is then frame byte 2 |
| NextionFrame.Entries | Nucleo/Nucleo_BNO_MAX_Nex_nRF/main.cpp:142-154 | the START frame appends 0x01 exactly when button 1 is on and 0x02 exactly when button 2 is on, 0x01 first |
| NucleoNex.Press | Nucleo/Nucleo_BNO_MAX_Nex_nRF/main.cpp:109-177 | START appends the enabled ids, clears both buttons and starts polling; any other key keeps the table and the start flag; an unknown key changes nothing |
| NucleoNex.ToggleTwice | Nucleo/Nucleo_BNO_MAX_Nex_nRF/main.cpp:112-140 | pressing a node button twice leaves the panel as it was |
| NucleoNex.TableOnlyGrows | Nucleo/Nucleo_BNO_MAX_Nex_nRF/main.cpp:142-166 | any sequence of frames only appends to the table, only ids 0x01 and 0x02, and polling once started stays started |
| NucleoNex.BothNodesOnce | Nucleo/Nucleo_BNO_MAX_Nex_nRF/main.cpp:112-166 | node 1, e-glove, START builds the table {0x01, 0x02}; a second START with no button on appends nothing |
| NucleoNex.NodeAt | Nucleo/Nucleo_BNO_MAX_Nex_nRF/main.cpp:250-276 | an entry written so far reads back; past the entries written the zero value selects no node |
| NucleoNex.Polled | Nucleo/Nucleo_BNO_MAX_Nex_nRF/main.cpp:628-631 | a cursor equal to Max_Node_Count restarts at 0, so a non-empty table always yields a valid index |
| NucleoNex.CursorAfter | Nucleo/Nucleo_BNO_MAX_Nex_nRF/main.cpp:516-631 | with every reply arriving the cursor never passes the table's length |
| NucleoNex.VisitsInOrder | Nucleo/Nucleo_BNO_MAX_Nex_nRF/main.cpp:516-631 | with every reply arriving, pass k polls entry k mod count: the table is visited in order, over and over |
| NucleoNex.PollAndReport | Nucleo/Nucleo_BNO_MAX_Nex_nRF/main.cpp:636-654 | select, TX mode, send and wait; the status is TRANSMISSON_OK exactly when the node acknowledged within the retry budget and MESSAGE_LOST exactly otherwise |
| NucleoNex.BaseStation.constructor | Nucleo/Nucleo_BNO_MAX_Nex_nRF/main.cpp:596-616 | nRF_Init with RX_PW_P0 = PAYLOAD_LEN, mode 0, cursor 0, an empty table, both buttons off, not started |
| NucleoNex.BaseStation.Callback | Nucleo/Nucleo_BNO_MAX_Nex_nRF/main.cpp:103-179 | the byte is stored as NextionFrame.Store says, and a completed frame acts on the panel as Press says |
| NucleoNex.BaseStation.Round | Nucleo/Nucleo_BNO_MAX_Nex_nRF/main.cpp:619-698 | nothing happens unless polling has started and mode is 0; then the TX pass, mode 1 and listening |
| NucleoNex.BaseStation.PassAndListen | Nucleo/Nucleo_BNO_MAX_Nex_nRF/main.cpp:628-695 | the wrapped cursor's entry polled with the outcome reported, then the chip listening |
| NucleoNex.BaseStation.TxPass | Nucleo/Nucleo_BNO_MAX_Nex_nRF/main.cpp:628-646 | the cursor wrapped, the entry under it selected and polled, and the outcome status as PollAndReport says |
| NucleoNex.BaseStation.Irq | Nucleo/Nucleo_BNO_MAX_Nex_nRF/main.cpp:494-518 | the reply read from the head RX payload, the entry popped, RX_DR cleared, the 8-bit cursor advanced, mode 0 |
| NucleoUartRx.Rewritten | old_data/Nucleo/Nucleo_UART_RX_INT/main.cpp:58-82 | a START writes the enabled ids from entry 0 and keeps the other entries |
| NucleoUartRx.StartStaysInTable | old_data/Nucleo/Nucleo_UART_RX_INT/main.cpp:58-82 | entries 2 to 4 are never written, no button writes nothing, and an e-glove-only START overwrites the node-1 entry 0 |
| NucleoUartRx.Receiver.constructor | old_data/Nucleo/Nucleo_UART_RX_INT/main.cpp:10-17 | every global starts at zero |
| NucleoUartRx.Receiver.Callback | old_data/Nucleo/Nucleo_UART_RX_INT/main.cpp:19-84 | the byte stored as NextionFrame.Store says; a completed frame toggles a button or, for START, rewrites the table from entry 0 and clears both buttons |
| NucleoGaugeStation.Configured | Nucleo/Nucleo_MAX17043_BS_RX/main.cpp:103-168 | EN_AA and EN_RXADDR 0x01, SETUP_AW 0x03, RF_CH 0x69, RF_SETUP 0x26, RX_PW_P0 8, SETUP_RETR 0x2F, the two addresses; every other register, the FIFOs and pipe 1 untouched |
| NucleoGaugeStation.Init | Nucleo/Nucleo_MAX17043_BS_RX/main.cpp:103-175 | the chip ends as Configured says, then in TX mode |
| NucleoGaugeStation.WriteAddresses | Nucleo/Nucleo_MAX17043_BS_RX/main.cpp:127-162 | RX_ADDR_P0 = 11 12 13 14 15 and TX_ADDR = AA BB CC DD EE, nothing else |
| NucleoGaugeStation.ReplyNeverArrives | Nucleo/Nucleo_MAX17043_BS_RX/main.cpp:165 | with RX_PW_P0 = 8 and no dynamic payload length, a node's four-byte gauge reply never enters the station's RX FIFO: no RX_DR, no interrupt, and the station stays in mode 1 |
| NucleoGaugeStation.InitWidth | Nucleo/Nucleo_MAX17043_BS_RX/main.cpp:103-175 | nRF_Init leaves pipe 0 eight bytes wide and dynamic payload length as it was |
| NucleoGaugeStation.RoundKeepsWidth | Nucleo/Nucleo_MAX17043_BS_RX/main.cpp:355-377 | a request round keeps pipe 0's width and its dynamic length setting, so every later reply is dropped the same way |
| NucleoGaugeStation.GaugeReachesStation | Nucleo/Nucleo_MAX17043_BS_RX/main.cpp:277-336 | a gauge payload at the head of the RX FIFO (which needs a pipe four bytes wide) decodes at the station to the 12-bit cell reading and the whole percentage the node sent |
| NucleoGaugeStation.BaseStation.constructor | Nucleo/Nucleo_MAX17043_BS_RX/main.cpp:338-352 | nRF_Init (ending in TX mode) and mode 0 |
| NucleoGaugeStation.BaseStation.Round | Nucleo/Nucleo_MAX17043_BS_RX/main.cpp:355-377 | with mode 0: TX mode, the four request bytes with a CE pulse, the wait, the flags reset, mode 1, RX mode, CE high; with mode 1 nothing changes |
| NucleoGaugeStation.BaseStation.Irq | Nucleo/Nucleo_MAX17043_BS_RX/main.cpp:277-299 | four bytes of the head RX payload read, the entry popped, RX_DR cleared, CE low, mode 0 |
| StationLoop.Toggled | Code/BaseStation/main.cpp:111-123 | the mode stays 0 or 1 and a press always changes it |
| StationLoop.ReadyKept | Code/BaseStation/main.cpp:223-227 | a chip stays ready to poll when its setup registers are unchanged |
| StationLoop.QueuedAnswer | Code/BaseStation/main.cpp:145 | on a ready chip whose pipe 0 listens on the node's address, as openDynamicTXPipe leaves it, the chip sees an acknowledgement and an ACK payload exactly when the air delivers them within the budget |
| StationLoop.UnpairedNeverAnswered | Code/BaseStation/main.cpp:296-297 | a poll from a ready chip whose pipe 0 listens elsewhere than TX_ADDR ends with MAX_RT and never TX_DS |
| StationLoop.Queued | BaseStation/Nrf24l019/Nrf24l01p.cpp:93-112 | writeTXData(&request, 1) keeps the chip valid; QueuedIsLoaded states what it queues |
| StationLoop.QueuedIsLoaded | BaseStation/Nrf24l019/Nrf24l01p.cpp:93-112 | queueing the one-byte request is exactly the driver's W_TX_PAYLOAD of that byte, with ACK requested |
| StationLoop.Sent | Code/BaseStation/main.cpp:223 | the transmission of the request keeps the chip valid; PollOutcome states its flags and FIFO |
| StationLoop.PollOutcome | Code/BaseStation/main.cpp:223-227 | after a poll of a ready chip paired with the node exactly one of TX_DS and MAX_RT is set (TX_DS exactly when acknowledged within the retry budget), RX_DR exactly when an ACK payload came back, which is then appended to the RX FIFO on pipe 0; setup and addresses unchanged |
| StationLoop.ClearKeepsSetup | BaseStation/Nrf24l019/Nrf24l01p.cpp:202-206 | resetIRQFlags changes STATUS only |
| StationLoop.Heard | Code/BaseStation/main.cpp:223-227 | after the request and resetIRQFlags no flag is raised |
| StationLoop.HeardFacts | Code/BaseStation/main.cpp:223-227 | a poll of a ready, paired chip leaves it ready, with the same setup and addresses, and the ACK payload, if any, appended to the RX FIFO |
| StationLoop.Poll | Code/BaseStation/main.cpp:223-227 | writeTXData, getIRQStatus and resetIRQFlags on a paired chip: the wait ends, txDone exactly when acknowledged, maxTry exactly when not, rx exactly when an ACK payload came back, and the chip as Heard says |
| StationLoop.ForwardedWhole | Code/BaseStation/main.cpp:231-259 | with only ACK payloads waiting, every payload is forwarded whole and in FIFO order |
| StationLoop.LastLengthOfAcks | Code/BaseStation/main.cpp:229-259 | a drain that reads anything ends with rxLen the last payload's length, never 0; an empty drain keeps rxLen |
| StationLoop.DrainStep | Code/BaseStation/main.cpp:235-258 | each readRXData moves one payload from the FIFO to the forwarded list, so forwarded plus what is left stays the same |
| StationLoop.AfterNext | Code/BaseStation/main.cpp:248-256 | each forwarded payload switches to the other receive buffer |
| StationLoop.DrainingStep | Code/BaseStation/main.cpp:235-258 | one readRXData keeps the drain invariant |
| StationLoop.Drain | Code/BaseStation/main.cpp:231-259 | the RX FIFO ends empty with nothing else changed, every non-empty payload forwarded in order, rxLen the last length read, and the buffer switched once per forwarded payload |
| StationLoop.ReadOne | Code/BaseStation/main.cpp:237-257 | one payload popped, forwarded when non-empty, and the buffer switched after forwarding |
| StationLoop.Discard | BaseStation/Nrf24l019/Nrf24l01p.cpp:283-286 | the RX FIFO ends empty and nothing else changes |
| StationLoop.Aimed | Code/BaseStation/main.cpp:296-297 | setTXAddress and setRXAddress(0, …) keep the chip valid; AimedAt states what they change |
| StationLoop.AimedAt | BaseStation/Nrf24l019/Nrf24l01p.cpp:444-485 | after aiming, TX_ADDR and RX_ADDR_P0 both hold the address as sent on air, and nothing else changed |
| StationLoop.Aim | Code/BaseStation/main.cpp:296-297 | the chip ends as Aimed says |
| StationLoop.LinkOpened | Code/BaseStation/main.cpp:145-155 | the shared set-up keeps the chip valid; LinkSettings states its effect |
| StationLoop.LinkTail | Code/BaseStation/main.cpp:149-155 | maskIRQ, setModeTX and flushTX keep the chip valid; LinkTailSettings states their effect |
| StationLoop.LinkTailSettings | BaseStation/Nrf24l019/Nrf24l01p.cpp:180-189 | CONFIG gets every IRQ mask and PRIM_RX cleared; the flags and TX FIFO are cleared; every other register, the RX FIFO and the addresses are kept |
| StationLoop.LinkSettings | Code/BaseStation/main.cpp:145-155 | after the shared set-up the chip is ready, aimed at the address, auto-ACK and RX on pipe 0, ACK payloads and dynamic length on, every IRQ masked, no flag, TX FIFO empty, RX FIFO kept |
| StationLoop.PipeZeroOpened | BaseStation/Nrf24l019/Nrf24l01p.cpp:386-436 | openDynamicTXPipe aims TX and pipe 0 at the address and turns on auto-ACK, RX, dynamic length and ACK payloads for pipe 0 |
| StationLoop.OpenKeepsWidth | BaseStation/Nrf24l019/Nrf24l01p.cpp:414-436 | opening pipe 0 leaves the static widths of pipes 1 to 5 alone |
| StationLoop.InitKeepsWidths | BaseStation/Nrf24l019/Nrf24l01p.cpp:18-27 | init leaves every RX_PW_Px as it was |
| StationLoop.LinkKeepsRadio | Code/BaseStation/main.cpp:145-155 | the link set-up keeps channel, rate, address width and retry settings |
| StationLoop.TailKeepsRadio | BaseStation/Nrf24l019/Nrf24l01p.cpp:180-225 | so does the tail of the set-up |
| StationLoop.OpeningKeepsRadio | BaseStation/Nrf24l019/Nrf24l01p.cpp:414-436 | openDynamicRXPipe(0, …) touches only the pipe registers and FEATURE |
| StationLoop.OpenLink | Code/BaseStation/main.cpp:145-155 | the chip ends as LinkOpened says |
| PollingStation.RequestIsMode | Code/BaseStation/main.cpp:13-41 | the request byte BS_payload_TX[mode] equals the mode in both modes |
| PollingStation.Next | Code/BaseStation/main.cpp:290-294 | the next cursor is always a valid node index |
| PollingStation.NextVisitsAll | Code/BaseStation/main.cpp:290-294 | the cursor always moves, and with two nodes comes back after two moves |
| PollingStation.AddressesExist | Code/BaseStation/main.cpp:11-33 | every cursor value has a five-byte address row in NRF_address |
| PollingStation.Configured | Code/BaseStation/main.cpp:141-142 | init and setRetries keep the chip valid; ConfiguredSettings states their effect |
| PollingStation.SetUp | Code/BaseStation/main.cpp:141-156 | main's set-up keeps the chip valid; SetUpSettings states its effect |
| PollingStation.ConfiguredSettings | Code/BaseStation/main.cpp:141-142 | powered up on channel 0x69 at 1 Mbps with 5-byte addresses, one retry 500 us apart, widths within the buffers, RX FIFO kept |
| PollingStation.SetUpSettings | Code/BaseStation/main.cpp:141-156 | after set-up the chip is ready, aimed at node 0, one retry 500 us apart on channel 0x69, no flag raised, TX FIFO empty and the RX FIFO as it was |
| PollingStation.StartRadio | Code/BaseStation/main.cpp:141-156 | the chip ends as SetUp says and aimed at node 0 |
| PollingStation.Boot | Code/BaseStation/main.cpp:129-171 | the radio set up, mode 0, cursor 0, nothing forwarded yet |
| PollingStation.Settled | Code/BaseStation/main.cpp:229-299 | the rest of a pass keeps the chip valid and the cursor a valid index |
| PollingStation.Moved | Code/BaseStation/main.cpp:261-298 | the end of a pass keeps the chip valid and the cursor a valid index |
| PollingStation.MovedKeeps | Code/BaseStation/main.cpp:261-298 | the move keeps the registers and the RX FIFO, points the chip at the node the cursor names, and moves the cursor exactly when told to |
| PollingStation.Polled | Code/BaseStation/main.cpp:185-299 | a pass keeps the chip valid and the cursor a valid index |
| PollingStation.SameRegisters | Code/BaseStation/main.cpp:229-259 | readiness and the setup live in the registers alone, so a drain keeps them |
| PollingStation.ListenThenMove | Code/BaseStation/main.cpp:223-299 | the pass is the request and the drain, then the move that txDone, maxTry and rxLen decide, and it leaves the station aimed at its cursor |
| PollingStation.SettledKeeps | Code/BaseStation/main.cpp:229-299 | the drain and move keep the setup and leave the chip aimed at the node the cursor names, which moved on exactly when the pass advanced |
| PollingStation.PolledKeeps | Code/BaseStation/main.cpp:185-299 | a pass keeps the station's invariant: ready, one retry, the same setup, aimed at the cursor's node, the cursor moved exactly when the pass advanced |
| PollingStation.AckLast | Code/BaseStation/main.cpp:223-259 | after a poll that brought an ACK payload, that payload is the last one in the RX FIFO, and every payload waiting is on pipe 0 |
| PollingStation.AdvancesUnlessAckPayload | Code/BaseStation/main.cpp:261 | with only ACK payloads waiting on a paired chip, the station moves on exactly when no ACK payload came back |
| PollingStation.ForwardsTheAck | Code/BaseStation/main.cpp:223-259 | from an empty RX FIFO of a paired chip the serial port gets the node's ACK payload exactly when one came back, and the FIFO is empty again |
| PollingStation.SettledEmpties | Code/BaseStation/main.cpp:229-259 | from an empty RX FIFO the rest of a pass forwards the one ACK payload, if any, and empties the FIFO |
| PollingStation.AckedWithOneRetry | Code/BaseStation/main.cpp:142 | with setRetries(500, 1) a request is acknowledged exactly when the air delivered it on the first or second try |
| PollingStation.Station.constructor | Code/BaseStation/main.cpp:138-181 | mode 0, cursor 0, buffer 1 in use, nothing forwarded |
| PollingStation.Station.Button | Code/BaseStation/main.cpp:111-123 | the mode flips and nothing else changes |
| PollingStation.Station.Round | Code/BaseStation/main.cpp:185-299 | the chip, cursor and outcome are as Polled says, the serial port gets the forwarded payloads, and the buffer switches once per payload |
| PollingStation.Station.Listen | Code/BaseStation/main.cpp:223-259 | the request and the drain: txDone and maxTry as the air decides, the buffer switched per payload, and the outcome as Polled says |
| PollingStation.Station.Move | Code/BaseStation/main.cpp:261-298 | the cursor and chip as Moved says, and nothing else changes |
| DiscoveryStation.RequestIsMode | BaseStation/main.cpp:23 | the poll request BS_payload_TX[mode] is the mode itself, and the discovery probe byte BS_payload_TX[2] is neither mode |
| DiscoveryStation.DataAddress | BaseStation/main.cpp:36 | a data address is five bytes: BA 5E DA 7A and the node number |
| DiscoveryStation.AddressesDistinct | BaseStation/main.cpp:36-37 | two node numbers share an air address exactly when they are equal, and no node's address is the broadcast address |
| DiscoveryStation.Renumbered | BaseStation/main.cpp:288 | writing a node number into byte 4 of any data address gives that node's address |
| DiscoveryStation.NextNode | BaseStation/main.cpp:388-394 | the next cursor is 0 or below numNodes, and is node + 1 unless it wrapped |
| DiscoveryStation.WrapsAfterLast | BaseStation/main.cpp:388-394 | while the cursor stays within the nodes, it wraps exactly after the last node, never through the 8-bit overflow |
| DiscoveryStation.Cursor | BaseStation/main.cpp:388-394 | the cursor after any number of moves is 0 or below numNodes |
| DiscoveryStation.CursorCounts | BaseStation/main.cpp:388-394 | within the first round the cursor after k moves is k |
| DiscoveryStation.RoundRobin | BaseStation/main.cpp:388-394 | numNodes moves bring the cursor back to where it was: every node is polled in turn |
| DiscoveryStation.LastAnswered | BaseStation/main.cpp:286-323 | numNodes after discovery is one more than the last node that acknowledged its probe, 0 when none did: no later probe was acknowledged |
| DiscoveryStation.LastAnsweredStep | BaseStation/main.cpp:300-304 | each acknowledged probe of node i sets numNodes to i + 1, an unacknowledged one keeps it |
| DiscoveryStation.Probe | BaseStation/main.cpp:288-322 | node i's address in nrf_data_address, TX_ADDR and RX_ADDR_P0; the probe sent, the flags reset and the RX FIFO drained; txDone exactly when acknowledged; the setup kept |
| DiscoveryStation.SetUp | BaseStation/main.cpp:235-282 | main's set-up keeps the chip valid; SetUpSettings states its effect |
| DiscoveryStation.RetriesKeepReady | BaseStation/Nrf24l019/Nrf24l01p.cpp:488-505 | setRetries keeps the chip ready and sets the retry budget and delay to the clamped values |
| DiscoveryStation.SetUpSettings | BaseStation/main.cpp:235-282 | after set-up the chip is ready, aimed at the broadcast address, five retries 500 us apart on channel 0x69, both FIFOs empty and no flag raised |
| DiscoveryStation.DiscoveryRetries | BaseStation/main.cpp:248-282 | flushRX, resetIRQFlags and setRetries(500, 5) keep the chip ready with five retries 500 us apart, an empty RX FIFO, no flag, the addresses and channel kept |
| DiscoveryStation.BroadcastLinkOpened | BaseStation/main.cpp:235-247 | init and the link to the broadcast address leave the chip ready, aimed there, on channel 0x69 with an empty TX FIFO |
| DiscoveryStation.StartRadio | BaseStation/main.cpp:235-282 | the chip ends as SetUp says |
| DiscoveryStation.BroadcastSent | BaseStation/main.cpp:174-188 | do_broadcast's transmission keeps the chip valid; BroadcastFlags states its flags |
| DiscoveryStation.Reply | BaseStation/main.cpp:190-211 | do_broadcast returns 0 or 1 |
| DiscoveryStation.Broadcasted | BaseStation/main.cpp:172-212 | the chip after do_broadcast stays valid; BroadcastOutcome states what it holds |
| DiscoveryStation.BroadcastPayload | BaseStation/main.cpp:174-179 | the broadcast queues {mode, numNodes, sessionID} with ACK requested, aimed at the broadcast address, sendable exactly when powered up in TX mode |
| DiscoveryStation.BroadcastLoaded | BaseStation/main.cpp:174-179 | from a ready chip the queued broadcast is sendable, with no flag, the RX FIFO and retry budget kept, and only STATUS among the registers changed |
| DiscoveryStation.BroadcastFlags | BaseStation/main.cpp:179-188 | MAX_RT exactly when the broadcast was not acknowledged, RX_DR exactly when the acknowledgement carried a payload, which is then all the RX FIFO holds |
| DiscoveryStation.BroadcastOutcome | BaseStation/main.cpp:172-212 | do_broadcast returns 1 exactly when a node acknowledged with a payload, reads that payload, and leaves the chip ready, drained, with its settings, aimed at the broadcast address |
| DiscoveryStation.DoBroadcast | BaseStation/main.cpp:172-212 | the chip as Broadcasted says; the return value 1 exactly when an ACK payload came back, which is then in RX_buffer_broadcast |
| DiscoveryStation.Listened | BaseStation/main.cpp:350-384 | a pass's request and drain keep the chip valid; ListenedFacts states what they do |
| DiscoveryStation.ListenedFacts | BaseStation/main.cpp:350-384 | from a drained ready chip paired with the node a pass forwards the ACK payload exactly when one came back, moves on exactly when none did, and keeps the chip ready, drained, with its settings and addresses |
| DiscoveryStation.OneAckDrained | BaseStation/main.cpp:359-382 | a drain of one ACK payload forwards it whole, ends with rxLen non-zero and leaves the chip ready |
| DiscoveryStation.AdvancedWraps | BaseStation/main.cpp:391-413 | a wrapping move is the broadcast, then node 0 aimed at, with numNodes grown exactly when do_broadcast returned more than 0 |
| DiscoveryStation.AdvancedSteps | BaseStation/main.cpp:388-413 | a move that does not wrap aims at node + 1 and changes nothing else |
| DiscoveryStation.AdvancedFacts | BaseStation/main.cpp:388-413 | the move keeps the chip ready and drained with its settings, aims it at the node the cursor names, and grows numNodes by one exactly when the cursor wrapped and a node answered the broadcast with a payload |
| DiscoveryStation.PolledStays | BaseStation/main.cpp:384 | a pass that does not move on leaves the cursor, numNodes and the listened chip as they are |
| DiscoveryStation.PolledMoves | BaseStation/main.cpp:384-418 | a pass that moves on is the move from the listened chip |
| DiscoveryStation.PolledKeeps | BaseStation/main.cpp:336-419 | a pass keeps the station's invariant: the chip ready with its settings, aimed at the cursor's node once it moved, and the cursor below numNodes or 0 |
| DiscoveryStation.PolledMeaning | BaseStation/main.cpp:336-419 | the serial port gets the node's ACK payload exactly when one came back; the station stays exactly while the node answers with a payload; otherwise the cursor moves round-robin and numNodes grows exactly when it wrapped and the broadcast was answered with a payload |
| DiscoveryStation.MovedMeaning | BaseStation/main.cpp:384-418 | the move after a pass grows numNodes on the same broadcast outcome as from the chip before the pass |
| DiscoveryStation.FirstPassMisaimed | BaseStation/main.cpp:286-336 | as written the first loop pass is aimed at node 15 while nRF_Node is 0: with nodes 0 and 1 present it is lost and the cursor moves to node 1 |
| DiscoveryStation.Station.constructor | BaseStation/main.cpp:23-37 | nrf_data_address BA 5E DA 7A FF, mode 0, cursor 0, numNodes 0, buffer 1 in use, nothing forwarded |
| DiscoveryStation.Station.DiscoverOne | BaseStation/main.cpp:288-322 | one probe keeps the discovery invariant: numNodes is LastAnswered of the probes so far |
| DiscoveryStation.Station.Discover | BaseStation/main.cpp:286-323 | after 16 probes numNodes is LastAnswered of them, the chip ready and drained with its setup, aimed at node 15 |
| DiscoveryStation.Station.Start | BaseStation/main.cpp:231-323 | the set-up then discovery: numNodes LastAnswered from the set-up chip, and the chip aimed at node 15 |
| DiscoveryStation.Station.PollRetries | BaseStation/main.cpp:326 | setRetries(500, 1) changes SETUP_RETR only and establishes the loop invariant |
| DiscoveryStation.Station.AimAtCursor | BaseStation/main.cpp:409-413 | the chip aimed at node 0, where the cursor is |
| DiscoveryStation.Station.Button | BaseStation/main.cpp:154-166 | the mode flips and nothing else changes |
| DiscoveryStation.Station.Round | BaseStation/main.cpp:336-419 | chip, cursor, numNodes and forwarded payloads as Polled says; nrf_data_address names the cursor after a move and is unchanged otherwise |
| DiscoveryStation.Station.Settle | BaseStation/main.cpp:384-418 | the end of a pass as Polled says, with the invariant restored |
| DiscoveryStation.Station.Listen | BaseStation/main.cpp:350-382 | the chip and forwarded payloads as Listened says, the buffer switched once per payload |
| DiscoveryStation.Station.Advance | BaseStation/main.cpp:388-413 | the cursor, numNodes and chip as Advanced says, and nrf_data_address names the new node |
| DiscoveryStation.Station.Wrap | BaseStation/main.cpp:391-413 | cursor 0, do_broadcast(mode, numNodes, 1), numNodes grown when it returned more than 0, node 0 aimed at |
| DiscoveryStation.Station.Broadcast | BaseStation/main.cpp:396-405 | do_broadcast(mode, numNodes, 1), and ++numNodes exactly when it returned more than 0 |
| DiscoveryStation.Station.Retarget | BaseStation/main.cpp:409-413 | byte 4 of nrf_data_address set to the node and the chip aimed at it, as Pointed says |
| DiscoveryStation.Boot | BaseStation/main.cpp:220-336 | as written: set-up, discovery and setRetries(500, 1); numNodes LastAnswered, mode 0, cursor 0, but the chip aimed at node 15 |
| DiscoveryStation.BootAtFirstNode | BaseStation/main.cpp:220-336 | as Boot, but the chip aimed at node 0, where the cursor is |
| GloveReader.PacketLength | Code/Python_Reader/read_glove.py:70-100 | a layout exists exactly for modes 0 and 1 with devices 0 to 2 (glove_v2 packets 1..2 in mode 0, 1..3 in mode 1), and every layout has at least one sample and no more samples than bytes |
| GloveReader.PacketIdIgnored | Code/Python_Reader/read_glove.py:70-91 | single nodes and glove_v1 get the same layout whatever the packet number |
| GloveReader.ValidWithoutLength | Code/Python_Reader/read_glove.py:103-113 | isPacketValid as written accepts (0, 3, 1), (1, 7, 2) and (0, glove_v2, 3), for which getPacketLength returns -1 |
| GloveReader.AcceptedIffLength | Code/Python_Reader/read_glove.py:266-278 | the corrected check accepts exactly the triples isPacketValid accepts that have a layout, and never a mode-1 third packet |
| GloveReader.ThirdPacketUnreachable | Code/Python_Reader/read_glove.py:96-97 | the mode-1 third-packet layout exists for devices 0 to 2, but isPacketValid rejects every mode-1 third packet |
| GloveReader.Decode | Code/Python_Reader/read_glove.py:259-263 | the decoded header fields fit their bit widths |
| GloveReader.Encode | Code/Python_Reader/read_glove.py:259-263 | a header is two bytes |
| GloveReader.DecodeEncode | Code/Python_Reader/read_glove.py:251-263 | a header with clear reserved bits is encoded back to the same two bytes |
| GloveReader.EncodeDecode | Code/Python_Reader/read_glove.py:251-263 | every header that fits its fields encodes with clear reserved bits and decodes to itself |
| GloveReader.SampleSize | Code/Python_Reader/read_glove.py:298-350 | a glove sample is 6 bytes in mode 0 and 12 in mode 1 |
| GloveReader.PySlice | Code/Python_Reader/read_glove.py:285-286 | Python slicing returns the bytes between the clipped bounds |
| GloveReader.SecondPacketOverrun | Code/Python_Reader/read_glove.py:364-376 | the second mode-1 glove_v2 packet is valid and has 3 samples of 12 bytes, but its third slice packet[24:36] holds only 6 bytes |
| GloveReader.SamplesTile | Code/Python_Reader/read_glove.py:70-100 | every glove payload is whole samples plus, for the later mode-1 glove_v2 packets, a 6-byte trailer; only those carry one, and they are 30 bytes |
| GloveReader.WholeSamplesFit | Code/Python_Reader/read_glove.py:297-393 | every whole-sample slice of a glove payload lies inside the payload |
| GloveReader.SampleIdKeepsNode | Code/Python_Reader/read_glove.py:306-309 | a sample ID holds the node in its high nibble and a sample index below 9 |
| GloveReader.SampleIdsDistinct | Code/Python_Reader/read_glove.py:306-309 | two samples of one node, device and mode share an ID only if they are the same sample of the same packet |
| GloveReader.FindSync | Code/Python_Reader/read_glove.py:208 | bytes.find(syncBytes) returns an offset where AB CD fits inside the buffer, None for -1 |
| GloveReader.FindSyncFirst | Code/Python_Reader/read_glove.py:208 | the offset found holds AB CD and no earlier one does; None only when AB CD occurs nowhere |
| GloveReader.SyncFrom | Code/Python_Reader/read_glove.py:206-211 | each synchronisation read uses up one read of the port, and what is left is a suffix of the reads |
| GloveReader.BufferedStep | Code/Python_Reader/read_glove.py:207 | the first read moves into the buffer |
| GloveReader.SyncFound | Code/Python_Reader/read_glove.py:206-211 | a successful synchronisation keeps exactly what follows the first AB CD of what was buffered by then |
| GloveReader.SyncFirst | Code/Python_Reader/read_glove.py:206-211 | it stops at the first read after which the buffer holds AB CD |
| GloveReader.SyncMissed | Code/Python_Reader/read_glove.py:206-211 | a synchronisation that runs out of reads keeps the whole stream, which holds no AB CD |
| GloveReader.SyncDropsThroughFirstMarker | Code/Python_Reader/read_glove.py:221-228 | the synchronisation stops at the first read that brings AB CD and keeps what follows the first AB CD; when the reads run out, everything is buffered and no AB CD was seen |
| GloveReader.Filled | Code/Python_Reader/read_glove.py:282-283 | the wait loop uses no extra reads and, when it succeeds, the buffer holds at least n bytes |
| GloveReader.FillTakesWhatIsNeeded | Code/Python_Reader/read_glove.py:282-283 | the wait loop appends whole reads in order and stops at the first read that brings the buffer to n bytes, or when the reads run out |
| GloveReader.HeaderAt | Code/Python_Reader/read_glove.py:238-249 | the buffer is an optional AB CD, the two header bytes and the rest, and the AB CD is skipped exactly when the buffer starts with it |
| GloveReader.RowsKeepCounted | Code/Python_Reader/read_glove.py:289-399 | storing samples never rewrites a row below count and adds at most one row per sample |
| GloveReader.RowsWritten | old_data/Python_Reader/read_glove_v2.py:245-325 | in read_glove_v2.py sample i of a packet lands in row count + i under its ID and count grows by one per sample |
| GloveReader.StoredRows | old_data/Python_Reader/read_glove_v2.py:236-331 | a packet stored as the scripts intend keeps every counted row; in read_glove_v2.py it adds one row per whole sample, plus one for the split sample 5, each under its sample ID (as written the loop raises before that row: OverrunEnds) |
| GloveReader.Resynced | Code/Python_Reader/read_glove.py:220-228 | a requested synchronisation uses no extra reads |
| GloveReader.ReadOnce | Code/Python_Reader/read_glove.py:233 | one serial read uses up exactly one read while any remain |
| GloveReader.Parsed | Code/Python_Reader/read_glove.py:234-399 | the rest of a pass, as written or corrected, uses no extra reads |
| GloveReader.Taken | Code/Python_Reader/read_glove.py:278-399 | waiting for and storing a payload, as written or corrected, uses no extra reads |
| GloveReader.Iterated | Code/Python_Reader/read_glove.py:218-399 | every pass uses up at least one read while the port is open |
| GloveReader.Ran | Code/Python_Reader/read_glove.py:218-423 | the receive loop runs until the reads are used up or an exception ends the recording |
| GloveReader.ConcatSplit | Code/Python_Reader/read_glove.py:207 | concatenating a split list of reads gives the same bytes |
| GloveReader.SyncFoundSuffix | Code/Python_Reader/read_glove.py:221-228 | a successful synchronisation drops a prefix of the stream |
| GloveReader.SyncMissedSuffix | Code/Python_Reader/read_glove.py:221-228 | a missed synchronisation buffers the whole stream and drops nothing |
| GloveReader.ResyncedSuffix | Code/Python_Reader/read_glove.py:220-228 | a requested synchronisation drops a prefix of the stream |
| GloveReader.ReadOnceSuffix | Code/Python_Reader/read_glove.py:233 | a read moves the next chunk into the buffer and leaves the stream unchanged |
| GloveReader.FilledSuffix | Code/Python_Reader/read_glove.py:282-283 | the wait loop leaves the stream unchanged |
| GloveReader.TakenSuffix | Code/Python_Reader/read_glove.py:282-286 | waiting for a payload and slicing it off drops a prefix of the stream |
| GloveReader.ParsedSuffix | Code/Python_Reader/read_glove.py:234-399 | the rest of a pass drops a prefix of the stream |
| GloveReader.ParsedCases | Code/Python_Reader/read_glove.py:234-278 | the rest of a pass leaves a short buffer alone, takes an accepted header, and drops any other header keeping the rows and the reads (and, corrected, never ending the recording) |
| GloveReader.PassKeepsSuffix | Code/Python_Reader/read_glove.py:218-399 | a pass never invents bytes: what is left is a suffix of what was left before |
| GloveReader.PassKeepsCounted | Code/Python_Reader/read_glove.py:289-399 | a pass never rewrites a counted row |
| GloveReader.TakenKeepsCounted | Code/Python_Reader/read_glove.py:289-399 | waiting for and storing a payload, as written or corrected, never rewrites a counted row |
| GloveReader.RanKeepsCounted | Code/Python_Reader/read_glove.py:218-399 | the whole receive loop never rewrites a counted row |
| GloveReader.CorrectedNeverEnds | Code/Python_Reader/read_glove.py:266-278 | a corrected pass never raises |
| GloveReader.PassAgrees | Code/Python_Reader/read_glove.py:218-399 | a pass that raises nothing as written is exactly the corrected pass |
| GloveReader.RanAgrees | Code/Python_Reader/read_glove.py:218-423 | a recording that no exception ends is exactly the corrected recording, and the corrected recording never ends by an exception |
| GloveReader.UnknownLayoutEnds | Code/Python_Reader/read_glove.py:276-278 | as written, a valid header without a layout raises at the unpack of -1 and ends the recording with the rows and reads as they were; corrected, it is skipped and a resynchronisation requested |
| GloveReader.OverrunEnds | Code/Python_Reader/read_glove.py:364-376 | as written, a complete payload with a trailer ends the recording after its whole samples without rewriting a counted row; in read_glove_v2.py that is two rows where the corrected loop stores three |
| GloveReader.PacketConsumed | Code/Python_Reader/read_glove.py:238-399 | a well-formed header with a layout and a complete payload drops exactly the header (with its AB CD) and packetLength payload bytes; the packet is stored, except that as written a payload with a trailer stores only its whole samples and ends the recording |
| GloveReader.Reader.constructor | Code/Python_Reader/read_glove.py:195-201 | an open port with an empty buffer, count 0, no rows and glove_v2_sample_5_pos -1 |
| GloveReader.Reader.Read | Code/Python_Reader/read_glove.py:233 | the buffer and port as ReadOnce says |
| GloveReader.Reader.Synchronize | Code/Python_Reader/read_glove.py:206-211 | the buffer and port as SyncFrom says, and found exactly when AB CD was seen |
| GloveReader.Reader.Start | Code/Python_Reader/read_glove.py:205-211 | the state as Started says |
| GloveReader.Reader.Resync | Code/Python_Reader/read_glove.py:220-228 | the state as Resynced says |
| GloveReader.Reader.WaitFor | Code/Python_Reader/read_glove.py:282-283 | the buffer and port as Filled says, and enough exactly when the buffer holds n bytes |
| GloveReader.Reader.WriteRow | Code/Python_Reader/read_glove.py:289-399 | the rows as Row says |
| GloveReader.Reader.Store | Code/Python_Reader/read_glove.py:289-399 | a glove payload is unpacked numSamples times: with a 6-byte trailer the whole samples' rows are written and then the short slice ends the recording; otherwise the rows as Stored says and the recording goes on |
| GloveReader.Reader.Parse | Code/Python_Reader/read_glove.py:234-278 | the state as Parsed says for the loop as written: a valid header without a layout ends the recording |
| GloveReader.Reader.Take | Code/Python_Reader/read_glove.py:278-399 | the state as Taken says for the loop as written |
| GloveReader.Reader.Iterate | Code/Python_Reader/read_glove.py:218-399 | the state as Iterated says for the loop as written |
| GloveReader.Reader.Run | Code/Python_Reader/read_glove.py:218-423 | the state as Ran says for the loop as written: it stops when the reads run out or an exception has been raised |
| GloveReader.Record | Code/Python_Reader/read_glove.py:195-423 | the whole recording: the state as the as-written loop run from Started says, ended by the port running dry or by an exception |

## Left out

- Delays and timing (`_delay_us`, `_delay_ms`, `wait_us`, `wait_ms`, the SPIF busy-wait) are not modelled. A register write takes effect when its CSN bracket ends, and nothing else in the model depends on time.
- The unbounded `while(isSending());` and `while(nRF_is_Sending());` waits are bounded by a `fuel` count of polls. Each transmission completes on the air before the first poll, so the wait ends after one poll whenever fuel is positive.
- NodeDriver.WaitWhileSending: states the wait for at most `fuel` polls, not the source's wait without bound, because a loop without a bound cannot be proved to end.
- Nrf24l01pDriver.Nrf24l01p.WriteTXData: returns within `fuel` polls instead of "only after TX done or max retries", for the same reason.
- The air is a parameter. Each transmission names, as an `Air` value, whether the receiver acknowledged and what ACK payload came back. Retransmission timing, the ARC counter's progress and radio noise are not modelled. Only the final OBSERVE_TX count is modelled.
- Interrupts and concurrency are not modelled: `sei`/`cli`, `InterruptIn` enable and disable, and `volatile` globals shared with ISRs. Each ISR body and each button handler is a method that the model calls at chosen points, and no interleaving inside a method is modelled.
- Serial and display output is not modelled. `pc.printf`, the UART transmit routines, `serial_write`'s asynchronous callback and the Nextion `printf` text are left out. Where a station forwards a payload, the model records that payload in a `forwarded` list. The bytes AVR Base_Station echoes to its UART are recorded in an `echoed` list.
- I2C is not modelled. The BNO055 and MAX17043 reads over `i2c_*`/TWI are parameters: the bytes they return are inputs, and the model states where those bytes land in the payload.
- Floating point is not modelled: Euler and quaternion scaling, the VCELL volts and the fractional state of charge. Only their integer parts are modelled, as the firmware computes them before scaling.
- Board bring-up is not modelled: clock prescaler, DDR and PORT setup, LEDs, the ADC and UART initialisation.
- nrf.h is not part of this model. It holds the node table and the frame constants of Nucleo_BNO_MAX_Nex_nRF. The model takes the frame length and the button ids of old_data/Nucleo/Nucleo_UART_RX_INT/main.cpp (7, 0x01, 0x02, 0x03). It takes the table as a sequence that only grows, read as 0 past its end.
- nRF24L01.h, the header that old_data N1_BNO_MAX_nRF includes, is not part of this model. Its PAYLOAD_LEN is taken to be the 10 bytes that RX_PW_P0 and the payload layout use. Its two addresses are parameters.
- AVR/Test_nRF24L01/Test_nRF24L01_RX/Test_nRF24L01_RX/main.c is a draft that does not compile. Its configuration is modelled as it evidently means. Its Payload_RX and main loop do nothing and are modelled as such.
- In the Python readers, the serial port is a finite list of reads. The receive loop ends when the list is used up or when an exception is raised, after which `finally` closes the port. Which exception was raised and its printed message are not modelled; the model only records that one ended the recording. `serial.Serial`, timestamps (`time.time`), the `keyboard` stop key, the plotting, the CSV writer and `print` are left out.
- GloveReader.Reader.Store: rows hold sample IDs and the node and device fields, not the floating-point quaternion and acceleration values decoded from the payload.
- GloveReader.StoredRows: does not model the `dataCount` capacity of 1 000 000 rows. The rows are an unbounded map, so the IndexError a full table would raise is not modelled.
- Code/Python_Reader/read_glove.py counts rows unevenly, and the model keeps this as written. It counts a mode-0 glove row only inside `if ID == 0`. It never counts a row of a mode-1 single node. old_data/Python_Reader/read_glove_v2.py counts every row.
- Nucleo_MAX17043_BS_RX sets RX_PW_P0 to 8, and both gauge nodes send 4-byte payloads. old_data Test_MAX17043_N1_TX also sets RX_PW_P0 to 8 while the station sends a 4-byte request. The model keeps these values as written. A static-width pipe drops a payload of any other width, so the station never receives a reply and Test_MAX17043_N1_TX never receives a request.
- old_data N2_ACK_INT writes SETUP_RETR = 0xFF: a 4000 us delay with 15 retries, not the 750 us its comment states. The header of the Test_nRF24L01 RX program defines NRF24L01_RETR as 0x47: delay code 4 with 7 retries, not the "1500uS, 15 times" its comment states. The model keeps both values as written.
- Address widths are not modelled. Every firmware sets SETUP_AW to 5-byte addresses, and the model always compares all five bytes of TX_ADDR and RX_ADDR_P0 when it decides whether an acknowledgement is seen.
- The chip does not model the acknowledgement sent by a receiver. On the transmitting side, the model decides whether an acknowledgement is seen from the `Air` value and the transmitter's own RX_ADDR_P0, TX_ADDR and FEATURE register. A transmitter whose ENAA_P0 bit is clear does not wait for an acknowledgement: it sends once and raises TX_DS with ARC_CNT 0.
- CE plays no part in the chip's decisions. A real receiver listens, and a real transmitter starts, only while CE is high. Every driver in the model raises CE before a payload comes in or goes out on the air, so no stated property depends on this.
- AvrBaseStation.Station: AVR/Base_Station/Base_Station/main.c declares `volatile uint8_t nRF_mode` (main.c:39) but reads and writes an undeclared `mode` (main.c:380, :412, :420, :441). That name can only come from its "nrf.h", which is not part of this model. The model reads `mode` as one flag shared by main and the interrupt handler, with every write seen by the other side. It does not model a build in which `mode` is not volatile and main's `if(mode == 0)` never sees the handler's write.

## Findings

| source | as written | input that shows it | evidently intended | confidence | as-written member | corrected member |
|---|---|---|---|---|---|---|
| Code/Python_Reader/read_glove.py:103-113 | isPacketValid accepts every device id 0..7 and mode-0 glove_v2 packet 3, but getPacketLength has no layout for them and returns -1, so the tuple unpack at line 278 raises | header with mode 0, device 3, packet 1; or mode 0, device 2 (glove_v2), packet 3 | a header is accepted only when a layout exists for it | not executed | GloveReader.ValidWithoutLength | GloveReader.AcceptedIffLength |
| Code/Python_Reader/read_glove.py:364-376 | the mode-1 glove_v2 loop slices numSamples samples of 12 bytes from a 30-byte payload | mode 1, device 2 (glove_v2), packet 2: 3 samples of 12 bytes, so the third slice packet[24:36] holds 6 bytes | only whole samples are sliced, and the 6-byte trailer is read on its own | not executed | GloveReader.SecondPacketOverrun | GloveReader.WholeSamplesFit |
| BaseStation/main.cpp:286-336 | discovery leaves the chip aimed at node 15 (the last probe), while the poll loop starts with nRF_Node = 0 and aims at the cursor only after it moves | nodes 0 and 1 present: the first request goes to address BA 5E DA 7A 0F, is lost, and the cursor moves to node 1 without node 0 being polled | the first poll goes to node 0, where the cursor is | not executed | DiscoveryStation.FirstPassMisaimed | DiscoveryStation.BootAtFirstNode |
