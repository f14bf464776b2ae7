/**
 * EG_Final: the glove node 0x02 with six BNO055 IMUs behind a multiplexer.
 * It boots as a receiver; each time the interrupt handler has counted
 * PAYLOAD_LEN request bytes, the main loop switches to TX mode, routes IMU
 * `Sensor_cnt` onto the I2C bus, sends [NODE_ID, Sensor_cnt, quaternion],
 * waits, moves on to the next IMU (1..6, round and round) and listens again.
 */
module EgFinal {
  import opened Nrf24Chip
  import opened Spi
  import opened NodeDriver
  import opened AvrNode
  import opened Sensors

  const NODE_ID: bv8 := 0x02
  const MAX_IMU_COUNT: int := 6
  const PAYLOAD_LEN: nat := 10

  /** N2_address (pipe 0) and BS_address (transmit): the same five bytes. */
  const N2_ADDRESS: seq<bv8> := [0x21, 0x22, 0x23, 0x24, 0x25]
  const BS_ADDRESS: seq<bv8> := [0x21, 0x22, 0x23, 0x24, 0x25]

  /** The reply for IMU `sensor`: node number, IMU number, quaternion bytes. */
  function Reply(sensor: int, quat: seq<bv8>): seq<bv8>
    requires 1 <= sensor <= MAX_IMU_COUNT && |quat| == 8
  {
    [NODE_ID, sensor as bv8] + quat
  }

  /** `Sensor_cnt++` and the wrap to 1 once it passes MAX_IMU_COUNT. */
  function NextSensor(sensor: int): (n: int)
    requires 1 <= sensor <= MAX_IMU_COUNT
    ensures 1 <= n <= MAX_IMU_COUNT
  {
    var c := sensor + 1;
    if c > MAX_IMU_COUNT then 1 else c
  }

  /** Sensor_cnt after `k` replies; main starts it at 1. */
  function SensorAfter(k: nat): (sensor: int)
    ensures 1 <= sensor <= MAX_IMU_COUNT
  {
    if k == 0 then 1 else NextSensor(SensorAfter(k - 1))
  }

  /** Reply `k` (from 0) reads IMU k mod 6 + 1: the IMUs take turns 1, 2, ..., 6, 1, ... */
  lemma {:induction false} SensorCycle(k: nat)
    ensures SensorAfter(k) == k % MAX_IMU_COUNT + 1
  {
    if k > 0 {
      SensorCycle(k - 1);
    }
  }

  /** Every reply routes the IMU it names: the MUX lines address that IMU's input. */
  lemma ReplyNamesRoutedImu(port: bv8, k: nat)
    ensures MuxInput(MuxPort(port, SensorAfter(k))) == MuxWiring(SensorAfter(k))
    ensures MuxPort(port, SensorAfter(k)) & !MUX_PINS == port & !MUX_PINS
  {
    MuxSelectsWiring(port, SensorAfter(k));
  }

  class Node {
    const bus: Bus
    /** N2_payload_TX. */
    const tx: array<bv8>
    /** N2_payload_RX. */
    const rx: array<bv8>
    /** PORTD, holding the multiplexer's select lines. */
    const port: PortD
    /** RX_Payload_cnt, a uint8_t. */
    var count: nat
    /** Sensor_cnt. */
    var sensor: int

    ghost predicate Valid()
      reads this, bus, tx
    {
      && bus.Valid() && !bus.selected
      && tx.Length == PAYLOAD_LEN && rx.Length == PAYLOAD_LEN && tx != rx
      && count < 256 && 1 <= sensor <= MAX_IMU_COUNT
      && tx[0] == NODE_ID
    }

    /**
     * main up to its loop: nRF_Init (which ends in RX mode), the counter
     * cleared, NODE_ID in byte 0 of the reply, Sensor_cnt 1, then
     * nRF_Flush_RX, nRF_Reset and CE high.
     */
    constructor (bus: Bus, port: PortD)
      requires bus.Valid() && !bus.selected
      modifies bus
      ensures Valid() && this.bus == bus && this.port == port && fresh(tx) && fresh(rx)
      ensures count == 0 && sensor == 1
      ensures bus.chip == ClearFlags(EnterRx(Configured(old(bus.chip), N2_ADDRESS, BS_ADDRESS, PAYLOAD_LEN as bv8, 0xFF)))
      ensures bus.ce && Listening(bus.chip)
    {
      this.bus := bus;
      this.port := port;
      tx := new bv8[PAYLOAD_LEN](_ => 0);
      rx := new bv8[PAYLOAD_LEN](_ => 0);
      count := 0;
      sensor := 1;
      new;
      Init(bus, N2_ADDRESS, BS_ADDRESS, PAYLOAD_LEN as bv8, 0xFF);
      tx[0] := NODE_ID;
      StartListening(bus);
    }

    /**
     * ISR(INT6_vect): CE low, the payload read into N2_payload_RX with one
     * count per 0xAA byte, RX_DR cleared.
     */
    method Isr()
      requires Valid()
      modifies this`count, bus, rx
      ensures Valid()
      ensures rx[..] == RxHead(old(bus.chip), PAYLOAD_LEN)
      ensures count == Tally(old(count), rx[..])
      ensures bus.chip == AfterRead(old(bus.chip)) && !bus.ce
    {
      var aa := IrqRead(bus, rx, PAYLOAD_LEN);
      count := (count + aa) % 256;
    }

    /**
     * One pass of the main loop. Only when the count is exactly PAYLOAD_LEN:
     * the count cleared, TX mode, IMU `sensor` selected, its number and the
     * quaternion `quat` it reports put in the reply, the reply sent and
     * waited for, the next IMU chosen, RX mode, flush, reset and CE high.
     */
    method Step(quat: seq<bv8>, air: Air, fuel: nat) returns (replied: bool, done: bool)
      requires Valid() && |quat| == 8
      modifies this`count, this`sensor, bus, tx, port
      ensures Valid()
      ensures replied <==> old(count) == PAYLOAD_LEN
      ensures !replied ==>
        count == old(count) && sensor == old(sensor) && bus.chip == old(bus.chip)
        && tx[..] == old(tx[..]) && port.value == old(port.value) && !done
      ensures replied ==>
        && count == 0
        && sensor == NextSensor(old(sensor))
        && tx[..] == Reply(old(sensor), quat)
        && port.value == MuxPort(old(port.value), old(sensor))
        && bus.chip == EnterRx(Transmit(Queued(EnterTx(old(bus.chip)), Reply(old(sensor), quat)), air))
        && bus.ce && (done <==> fuel > 0)
    {
      replied, done := false, false;
      if count != PAYLOAD_LEN {
        return;
      }
      replied := true;
      count := 0;
      TxMode(bus);
      Prepare(quat);
      TxModeIsReady(old(bus.chip));
      done := SendAndWait(bus, tx[..], air, fuel);
      sensor := NextSensor(sensor);
      Listen(bus);
    }

    /** BNO_MUX_Select(Sensor_cnt), Sensor_cnt into byte 1, BNO_Read_Quaternions into bytes 2 to 9. */
    method Prepare(quat: seq<bv8>)
      requires Valid() && |quat| == 8
      modifies tx, port
      ensures Valid()
      ensures tx[..] == Reply(sensor, quat)
      ensures port.value == MuxPort(old(port.value), sensor)
    {
      port.MuxSelect(sensor);
      tx[1] := sensor as bv8;
      StoreQuaternion(tx, quat);
    }
  }
}
