/**
 * Nucleo_BS_Final: a base station that, once the user button has been
 * pressed, polls node 0x01 once and then node 0x02 six times, over and over.
 * The schedule lives in three globals: the cursor nRF_Node, the flag
 * nRF_Node_change and the round counter IMU_cnt. A node is selected (its
 * address written) only when the schedule says so; the other rounds reuse
 * the address already in the chip.
 */
module NucleoBsFinal {
  import opened Nrf24Chip
  import opened Spi
  import opened NodeDriver
  import opened NucleoStation

  const NRF_TOTAL_NODES: bv8 := 2
  const MAX_IMU_COUNT: int := 7
  const NRF_NODES: seq<bv8> := [0x01, 0x02]

  datatype Option<T> = None | Some(value: T)

  /** nRF_Node, nRF_Node_change and IMU_cnt (the latter two are int8). */
  datatype Schedule = Schedule(node: bv8, change: int, imuCnt: int)

  /** The values main starts its loop with. */
  const START: Schedule := Schedule(0, 0, 1)

  /** The ranges the schedule stays in. */
  predicate InRange(s: Schedule)
  {
    s.node <= 1 && 0 <= s.change <= 1 && 1 <= s.imuCnt <= MAX_IMU_COUNT
  }

  /** The table index a round selects, if any: cursor 0 always, cursor 1 only while the change flag is 1. */
  function Selects(s: Schedule): (i: Option<nat>)
    ensures i.Some? ==> i.value < |NRF_NODES|
    ensures s.node == 0 ==> i == Some(0)
    ensures i.Some? && i.value == 1 <==> s.node == 1 && s.change == 1
  {
    if s.node == 0 then Some(0)
    else if s.node == 1 && s.change == 1 then Some(1)
    else None
  }

  /** The schedule after one round: the select step, then IMU_cnt++ and the reset once it passes MAX_IMU_COUNT. */
  function Next(s: Schedule): (t: Schedule)
    requires InRange(s)
    ensures InRange(t)
  {
    var afterSelect := AfterSelect(s);
    var cnt := afterSelect.imuCnt + 1;
    if cnt > MAX_IMU_COUNT then Schedule(0, 0, 1) else afterSelect.(imuCnt := cnt)
  }

  /** The select step: cursor 0 moves to 1 and raises the change flag; cursor 1 with the flag drops it. */
  function AfterSelect(s: Schedule): Schedule
  {
    if s.node == 0 then Schedule(1, 1, s.imuCnt)
    else if s.node == 1 && s.change == 1 then s.(change := 0)
    else s
  }

  /** The chip after the select step of a round. */
  function SelectedFor(s: Schedule, chip: State): (t: State)
    requires Valid(chip)
    ensures Valid(t)
  {
    match Selects(s)
    case Some(i) => Selected(chip, NRF_NODES[i])
    case None => chip
  }

  /** The schedule after `k` rounds from START. */
  function Run(k: nat): (s: Schedule)
    ensures InRange(s)
  {
    if k == 0 then START else Next(Run(k - 1))
  }

  /** Where in its 7-round cycle the schedule is. */
  function Phase(j: nat): Schedule
    requires j < 7
  {
    Schedule(if j == 0 then 0 else 1, if j == 1 then 1 else 0, j + 1)
  }

  lemma {:induction false} RunIsPeriodic(k: nat)
    ensures Run(k) == Phase(k % 7)
  {
    if k > 0 {
      RunIsPeriodic(k - 1);
      var j := (k - 1) % 7;
      assert k % 7 == if j == 6 then 0 else j + 1;
    }
  }

  /** The node whose address the chip holds during round `k`. */
  function TargetOf(k: nat): bv8
  {
    match Selects(Run(k))
    case Some(i) => NRF_NODES[i]
    case None => if k == 0 then 0 else TargetOf(k - 1)
  }

  /**
   * Each 7-round cycle polls node 0x01 in its first round and node 0x02 in
   * the other six; the address is written only in the first two rounds.
   */
  lemma {:induction false} OnceThenSixTimes(k: nat)
    ensures TargetOf(k) == if k % 7 == 0 then NODE_1_ID else NODE_2_ID
    ensures Selects(Run(k)).Some? <==> k % 7 <= 1
  {
    RunIsPeriodic(k);
    if k > 0 {
      OnceThenSixTimes(k - 1);
    }
  }

  /** The radio work of a pass: the request sent and waited for, then the radio back to listening. */
  method SendAndListen(bus: Bus, air: Air, fuel: nat) returns (done: bool)
    requires bus.Valid() && !bus.selected
    modifies bus
    ensures bus.Valid() && !bus.selected && bus.ce
    ensures bus.chip == EnterRx(Transmit(Queued(EnterTx(old(bus.chip)), BS_PAYLOAD_TX), air))
    ensures bus.chip.txAddr == old(bus.chip).txAddr
    ensures done <==> fuel > 0
  {
    done := TransmitAndWait(bus, BS_PAYLOAD_TX, air, fuel);
    Listen(bus);
  }

  class BaseStation {
    const bus: Bus
    const rx: array<bv8>
    var mode: bv8
    var schedule: Schedule
    /** Button_State: set by the user button, never cleared. */
    var buttonState: int

    ghost predicate Valid()
      reads this, bus
    {
      bus.Valid() && !bus.selected && rx.Length == PAYLOAD_LEN && InRange(schedule)
      && (buttonState == 0 || buttonState == 1)
    }

    /** main up to its loop: nRF_Init, button released, mode 0, schedule at its start. */
    constructor (bus: Bus)
      requires bus.Valid() && !bus.selected
      modifies bus
      ensures Valid() && this.bus == bus && fresh(rx)
      ensures mode == 0 && schedule == START && buttonState == 0
      ensures bus.chip.regs[RX_PW_P0] == PAYLOAD_LEN as bv8
      ensures bus.chip.regs[CONFIG] & PWR_UP != 0 && bus.chip.regs[CONFIG] & PRIM_RX == 0
    {
      this.bus := bus;
      rx := new bv8[PAYLOAD_LEN];
      mode := 0;
      schedule := START;
      buttonState := 0;
      new;
      Init(bus, PAYLOAD_LEN as bv8);
    }

    /** Button_Interrupt. */
    method ButtonInterrupt()
      requires Valid()
      modifies this`buttonState
      ensures Valid() && buttonState == 1
    {
      buttonState := 1;
    }

    /**
     * One pass of the main loop. It acts only with mode 0 and the button
     * pressed: select per the schedule, TX mode, transmit and wait, advance
     * the schedule, mode 1, listen.
     */
    method Round(air: Air, fuel: nat) returns (done: bool)
      requires Valid()
      modifies this`mode, this`schedule, bus
      ensures Valid()
      ensures !(old(mode) == 0 && buttonState == 1) ==>
        mode == old(mode) && schedule == old(schedule) && bus.chip == old(bus.chip) && !done
      ensures old(mode) == 0 && buttonState == 1 ==>
        var before := SelectedFor(old(schedule), old(bus.chip));
        && schedule == Next(old(schedule))
        && mode == 1
        && bus.chip == EnterRx(Transmit(Queued(EnterTx(before), BS_PAYLOAD_TX), air))
        && bus.chip.txAddr == before.txAddr
        && Listening(bus.chip) && bus.ce
        && (done <==> fuel > 0)
    {
      done := false;
      if !(mode == 0 && buttonState == 1) {
        return;
      }
      SelectStep();
      done := SendAndListen(bus, air, fuel);
      schedule := schedule.(imuCnt := schedule.imuCnt + 1);
      if schedule.imuCnt > MAX_IMU_COUNT {
        schedule := Schedule(0, 0, 1);
      }
      mode := 1;
    }

    /** The select step of the main loop: the address written when the schedule says so, the cursor and flag moved. */
    method SelectStep()
      requires Valid()
      modifies this`schedule, bus
      ensures bus.Valid() && !bus.selected && rx.Length == PAYLOAD_LEN && bus.ce == old(bus.ce)
      ensures schedule == AfterSelect(old(schedule)) && schedule.imuCnt == old(schedule).imuCnt
      ensures schedule.node <= 1 && 0 <= schedule.change <= 1
      ensures bus.chip == SelectedFor(old(schedule), old(bus.chip))
    {
      if schedule.node == 0 {
        NodeSelect(bus, NRF_NODES[0]);
        schedule := schedule.(change := 1, node := 1);
      } else if schedule.node == 1 && schedule.change == 1 {
        NodeSelect(bus, NRF_NODES[1]);
        schedule := schedule.(change := 0);
      }
    }

    /** nRF_IRQ_vect: stop listening, read the reply, clear RX_DR, back to mode 0. */
    method Irq()
      requires Valid()
      modifies this`mode, bus, rx
      ensures Valid()
      ensures mode == 0
      ensures rx[..] == RxHead(old(bus.chip), PAYLOAD_LEN)
      ensures bus.chip == AfterRead(old(bus.chip)) && !bus.ce
    {
      var _ := IrqRead(bus, rx, PAYLOAD_LEN);
      mode := 0;
    }
  }
}
