/** The application task (Source/zcl_app.c): the phased sensor-reading cycle
    `zclApp_ReadSensors`, the timer arming of `zclApp_Report` and the event
    dispatch of `zclApp_event_loop`. OSAL services (power hints, timers,
    event clearing) and ZCL reports are recorded as effects, in order; the
    meter is reached through the driver of module Mercury200 and its port. */
module App {
  import opened CTypes
  import opened Bcd
  import opened ModbusCrc
  import opened Uart
  import opened AppTypes
  import opened AppData
  import opened Mercury200

  /** The meter commands the cycle sends. */
  const CmdCurrentValues: byte := 0x63
  const CmdEnergy: byte := 0x27

  /** The period in milliseconds `zclApp_Report` arms the read timer with. */
  const ReadSensorsPeriod := 500

  /** The phase whose call ends a cycle. */
  const TerminalPhase: uint8 := 4

  /** `PWRMGR_HOLD` / `PWRMGR_CONSERVE`. */
  datatype PowerHint = Hold | Conserve

  /** One `zclReport_t`: attribute id, ZCL type and the value it points at. */
  datatype ReportAttr = ReportAttr(id: uint16, dataType: ZclType, value: int)

  /** What the task asks of the stack, in the order it asks. */
  datatype Effect =
    | PowerState(hint: PowerHint)                          // osal_pwrmgr_task_state
    | StopTimer(event: bv16)                               // osal_stop_timerEx
    | ClearEvent(event: bv16)                              // osal_clear_event
    | SendReport(cluster: uint16, attrs: seq<ReportAttr>)  // zcl_SendReportCmd
    | StartReloadTimer(event: bv16, period: nat)           // osal_start_reload_timer
    | DrainMessages                                        // the SYS_EVENT_MSG queue loop
    | SaveAttributes                                       // zclApp_SaveAttributesToNV

  /** Everything a step of the task reads or writes: the static phase
      counter, the three globals, the port and the effect log. */
  datatype Machine = Machine(
    phase: uint8,
    config: AppConfig,
    currentValues: CurrentValues,
    energies: Energy,
    rx: seq<byte>,
    tx: seq<seq<byte>>,
    effects: seq<Effect>)

  /** The electrical-measurement report of the terminal phase. */
  function ElectricalReport(cv: CurrentValues): Effect {
    SendReport(ClusterElectrical, [
      ReportAttr(AttrRmsVoltage, Uint16, cv.voltage),
      ReportAttr(AttrRmsCurrent, Uint16, cv.current),
      ReportAttr(AttrActivePower, Int16, cv.power)])
  }

  /** The metering report of the terminal phase: tier n carries `Energy_Tn`. */
  function MeteringReport(e: Energy): Effect {
    SendReport(ClusterSeMetering, [
      ReportAttr(AttrTier1SummDlvd, Uint32, e.t1),
      ReportAttr(AttrTier2SummDlvd, Uint32, e.t2),
      ReportAttr(AttrTier3SummDlvd, Uint32, e.t3),
      ReportAttr(AttrTier4SummDlvd, Uint32, e.t4)])
  }

  /** The cache after a current-values read: replaced unless the voltage is
      the sentinel. */
  function KeepValidCurrent(cache: CurrentValues, read: CurrentValues): CurrentValues {
    if read.voltage == InvalidResponse then cache else read
  }

  /** The cache after an energy read: replaced unless tariff 1 is the sentinel. */
  function KeepValidEnergy(cache: Energy, read: Energy): Energy {
    if read.t1 == InvalidResponse then cache else read
  }

  /** One call of `zclApp_ReadSensors`. The switch is on the counter's value
      before its 8-bit post-increment; the default branch sets it back to 0. */
  function ReadSensorsStep(m: Machine): Machine {
    var next := (m.phase + 1) % 0x100;
    if m.phase == 0 then
      m.(phase := next,
         tx := m.tx + [RequestFrame(m.config.deviceAddress, CmdCurrentValues)],
         effects := m.effects + [PowerState(Hold)])
    else if m.phase == 1 then
      var reply := CurrentValuesReply(m.rx);
      m.(phase := next, rx := reply.1,
         currentValues := KeepValidCurrent(m.currentValues, reply.0),
         effects := m.effects + [PowerState(Conserve)])
    else if m.phase == 2 then
      m.(phase := next,
         tx := m.tx + [RequestFrame(m.config.deviceAddress, CmdEnergy)],
         effects := m.effects + [PowerState(Hold)])
    else if m.phase == 3 then
      var reply := EnergyReply(m.rx);
      m.(phase := next, rx := reply.1,
         energies := KeepValidEnergy(m.energies, reply.0),
         effects := m.effects + [PowerState(Conserve)])
    else
      m.(phase := 0,
         effects := m.effects + [StopTimer(AppReadSensorsEvt), ClearEvent(AppReadSensorsEvt),
                                 ElectricalReport(m.currentValues), MeteringReport(m.energies)])
  }

  /** `n` calls in a row. */
  function ReadSensorsSteps(m: Machine, n: nat): Machine
    decreases n
  {
    if n == 0 then m else ReadSensorsSteps(ReadSensorsStep(m), n - 1)
  }

  /** One call of `zclApp_Report`: the read timer is (re)armed, nothing else. */
  function ReportStep(m: Machine): Machine {
    m.(effects := m.effects + [StartReloadTimer(AppReadSensorsEvt, ReadSensorsPeriod)])
  }

  /** `zclApp_Report` arms the read timer with period 500 and touches
      neither the phase counter, the caches, the configuration nor the port. */
  lemma ReportOnlyArmsTimer(m: Machine)
    ensures var s := ReportStep(m);
      && s.phase == m.phase && s.config == m.config
      && s.currentValues == m.currentValues && s.energies == m.energies
      && s.rx == m.rx && s.tx == m.tx
      && s.effects[..|m.effects|] == m.effects
      && s.effects[|m.effects|..] == [StartReloadTimer(AppReadSensorsEvt, 500)]
  {
    var s := ReportStep(m);
    assert s.effects[..|m.effects|] == m.effects;
  }

  // ------------------------------------------------------------ the cycle

  /** From any phase in 0..4 the counter moves one step round a cycle of five,
      and the configuration is never touched. */
  lemma PhaseCycle(m: Machine)
    requires m.phase <= TerminalPhase
    ensures ReadSensorsStep(m).phase == if m.phase == TerminalPhase then 0 else m.phase + 1
    ensures ReadSensorsStep(m).config == m.config
  {
    if m.phase == 1 {
      var reply := CurrentValuesReply(m.rx);
      assert ReadSensorsStep(m) == m.(phase := 2, rx := reply.1,
        currentValues := KeepValidCurrent(m.currentValues, reply.0),
        effects := m.effects + [PowerState(Conserve)]);
    } else if m.phase == 3 {
      var reply := EnergyReply(m.rx);
      assert ReadSensorsStep(m) == m.(phase := 4, rx := reply.1,
        energies := KeepValidEnergy(m.energies, reply.0),
        effects := m.effects + [PowerState(Conserve)]);
    }
  }

  /** Requests go out only in phases 0 and 2 and input is read only in phases
      1 and 3; every other step leaves the port alone. */
  lemma PortUseByPhase(m: Machine)
    ensures m.phase != 0 && m.phase != 2 ==> ReadSensorsStep(m).tx == m.tx
    ensures m.phase == 0 || m.phase == 2 ==> |ReadSensorsStep(m).tx| == |m.tx| + 1
    ensures m.phase != 1 && m.phase != 3 ==> ReadSensorsStep(m).rx == m.rx
  {
  }

  /** Phases 0 and 2 hold the power manager, phases 1 and 3 release it once
      on both branches, and the terminal phase issues no hint. */
  lemma PowerHints(m: Machine)
    ensures var s := ReadSensorsStep(m);
      m.phase <= 3 ==>
        |s.effects| == |m.effects| + 1
        && s.effects[..|m.effects|] == m.effects
        && s.effects[|m.effects|] == PowerState(if m.phase == 0 || m.phase == 2 then Hold else Conserve)
    ensures var s := ReadSensorsStep(m);
      m.phase > 3 ==>
        s.effects[..|m.effects|] == m.effects
        && forall i :: |m.effects| <= i < |s.effects| ==> !s.effects[i].PowerState?
  {
    var s := ReadSensorsStep(m);
    if m.phase > 3 {
      assert s.effects[|m.effects|..] == [StopTimer(AppReadSensorsEvt), ClearEvent(AppReadSensorsEvt),
                                        ElectricalReport(m.currentValues), MeteringReport(m.energies)];
      forall i | |m.effects| <= i < |s.effects| ensures !s.effects[i].PowerState? {
        assert s.effects[i] == s.effects[|m.effects|..][i - |m.effects|];
      }
    }
  }

  /** Phase 1 replaces the current-values cache exactly when the 14-byte frame
      passes the CRC check, and then with its fields; otherwise the cache
      keeps its old value. */
  lemma CurrentCacheUpdate(m: Machine)
    requires m.phase == 1
    ensures var frame := Received(m.rx, CvResponseLength);
      ReadSensorsStep(m).currentValues
        == if CrcMatches(frame) then CurrentFields(frame) else m.currentValues
  {
    var frame := Received(m.rx, CvResponseLength);
    CurrentValuesReplySpec(m.rx);
    assert CurrentValuesReply(m.rx).0 == DecodeCurrentValues(frame);
  }

  /** Phase 3 replaces the energy cache exactly when the 23-byte frame passes
      the CRC check and its first tariff is not 0xFFFF. */
  lemma EnergyCacheUpdate(m: Machine)
    requires m.phase == 3
    ensures var frame := Received(m.rx, EResponseLength);
      ReadSensorsStep(m).energies
        == if CrcMatches(frame) && TariffsOf(frame).t1 != InvalidResponse then TariffsOf(frame) else m.energies
  {
    var frame := Received(m.rx, EResponseLength);
    EnergyReplySpec(m.rx);
    assert EnergyReply(m.rx).0 == DecodeEnergy(frame);
  }

  /** A reply from the meter with valid CRC and valid BCD digits whose first
      tariff reads 655.35 kWh (bytes 00 06 55 35) is taken for a failed read:
      the energy cache is left as it was. */
  lemma ValidReadingDiscarded(m: Machine, header: seq<byte>)
    requires m.phase == 3 && |header| == 5
    requires m.rx == WithCrc(header + [0x00, 0x06, 0x55, 0x35] + Zeros(12))
    ensures var frame := Received(m.rx, EResponseLength);
      && CrcMatches(frame) && IsBcd(frame[5..21]) && TariffsOf(frame).t1 == 65535
      && ReadSensorsStep(m).energies == m.energies
  {
    var tariffs: seq<byte> := [0x00, 0x06, 0x55, 0x35] + Zeros(12);
    var payload := header + [0x00, 0x06, 0x55, 0x35] + Zeros(12);
    var frame := Received(m.rx, EResponseLength);
    assert frame == m.rx;
    WithCrcMatches(payload);
    assert frame[..21] == payload;
    assert frame[5..21] == tariffs by { assert payload == header + tariffs; }
    assert frame[5..9] == tariffs[..4];
    TariffBytesBcd(tariffs);
    BcdValue4(frame[5..9]);
    EnergyCacheUpdate(m);
  }

  /** The tariff bytes of the sample reply are valid BCD. */
  lemma TariffBytesBcd(tariffs: seq<byte>)
    requires tariffs == [0x00, 0x06, 0x55, 0x35] + Zeros(12)
    ensures IsBcd(tariffs)
  {
    forall i | 0 <= i < |tariffs| ensures IsBcdByte(tariffs[i]) {
      if i >= 4 { assert tariffs[i] == Zeros(12)[i - 4]; }
    }
  }

  /** The terminal phase reports whatever the caches hold, read or not read
      in this cycle, and changes neither the caches nor the port. */
  lemma TerminalReportsCache(m: Machine)
    requires m.phase == TerminalPhase
    ensures var s := ReadSensorsStep(m);
      && s.phase == 0
      && s.effects == m.effects + [StopTimer(AppReadSensorsEvt), ClearEvent(AppReadSensorsEvt),
                                   ElectricalReport(m.currentValues), MeteringReport(m.energies)]
      && s.currentValues == m.currentValues && s.energies == m.energies
      && s.rx == m.rx && s.tx == m.tx
  {
  }

  /** Tier n of the terminal report carries `Energy_Tn`, while an attribute
      read of any tier yields `Energy_T1`: tiers 2-4 read and report
      different values whenever the tariffs differ. */
  lemma TierReadAndReport(cfg: AppConfig, cv: CurrentValues, e: Energy, dateCode: string)
    ensures var report := MeteringReport(e);
      var tiers := [e.t1, e.t2, e.t3, e.t4];
      && report.cluster == ClusterSeMetering && |report.attrs| == 4
      && forall t :: 0 <= t < 4 ==>
           && report.attrs[t].id == TierAttrIds[t]
           && report.attrs[t].value == tiers[t]
           && ReadAttribute(ClusterSeMetering, TierAttrIds[t], cfg, cv, e, dateCode) == Some(Num(e.t1))
  {
    TierAttributesReadT1(cfg, cv, e, dateCode);
  }

  /** Nothing guards against a call after the terminal phase: the next call
      starts a new cycle and sends the current-values request again. */
  lemma CallAfterTerminalRestarts(m: Machine)
    requires m.phase == TerminalPhase
    ensures var s := ReadSensorsSteps(m, 2);
      s.phase == 1 && s.tx == m.tx + [RequestFrame(m.config.deviceAddress, CmdCurrentValues)]
  {
    var m1 := ReadSensorsStep(m);
    StepTerminal(m);
    StepRequest(m1, CmdCurrentValues);
    StepsFrom(m, 1, m1);
    StepsFrom(m1, 0, ReadSensorsStep(m1));
  }

  /** Five calls from phase 0 make a whole cycle: the counter is back at 0,
      exactly two requests went out to the configured address, current values
      then energy, and the two reports carry the caches as the reads left them. */
  lemma {:induction false} FullCycle(m: Machine)
    requires m.phase == 0
    ensures var a := m.config.deviceAddress;
      var cvReply := CurrentValuesReply(m.rx);
      var eReply := EnergyReply(cvReply.1);
      var cv := KeepValidCurrent(m.currentValues, cvReply.0);
      var e := KeepValidEnergy(m.energies, eReply.0);
      ReadSensorsSteps(m, 5) == m.(
        rx := eReply.1,
        tx := m.tx + [RequestFrame(a, CmdCurrentValues), RequestFrame(a, CmdEnergy)],
        currentValues := cv,
        energies := e,
        effects := m.effects + [PowerState(Hold), PowerState(Conserve), PowerState(Hold), PowerState(Conserve),
                                StopTimer(AppReadSensorsEvt), ClearEvent(AppReadSensorsEvt),
                                ElectricalReport(cv), MeteringReport(e)])
  {
    var a := m.config.deviceAddress;
    var cvReply := CurrentValuesReply(m.rx);
    var cv := KeepValidCurrent(m.currentValues, cvReply.0);
    var m1 := m.(phase := 1, tx := m.tx + [RequestFrame(a, CmdCurrentValues)],
                 effects := m.effects + [PowerState(Hold)]);
    var m2 := m1.(phase := 2, rx := cvReply.1, currentValues := cv,
                  effects := m1.effects + [PowerState(Conserve)]);
    var eReply := EnergyReply(m2.rx);
    var e := KeepValidEnergy(m2.energies, eReply.0);
    assert ReadSensorsSteps(m2, 3) == m2.(
        phase := 0,
        rx := eReply.1,
        tx := m2.tx + [RequestFrame(a, CmdEnergy)],
        energies := e,
        effects := m2.effects + [PowerState(Hold), PowerState(Conserve),
                                 StopTimer(AppReadSensorsEvt), ClearEvent(AppReadSensorsEvt),
                                 ElectricalReport(cv), MeteringReport(e)]) by { CycleFromEnergyRequest(m2); }
    assert ReadSensorsSteps(m1, 4) == ReadSensorsSteps(m2, 3) by { StepCurrentValues(m1); StepsFrom(m1, 3, m2); }
    assert ReadSensorsSteps(m, 5) == ReadSensorsSteps(m1, 4) by { StepRequest(m, CmdCurrentValues); StepsFrom(m, 4, m1); }
    AppendTwo(m.tx, RequestFrame(a, CmdCurrentValues), RequestFrame(a, CmdEnergy));
    AppendEight(m.effects, PowerState(Hold), PowerState(Conserve), PowerState(Hold), PowerState(Conserve),
                StopTimer(AppReadSensorsEvt), ClearEvent(AppReadSensorsEvt), ElectricalReport(cv), MeteringReport(e));
  }

  /** The second half of a cycle: from phase 2, three calls request and read
      the energy, then report. */
  lemma CycleFromEnergyRequest(m: Machine)
    requires m.phase == 2
    ensures var a := m.config.deviceAddress;
      var eReply := EnergyReply(m.rx);
      var e := KeepValidEnergy(m.energies, eReply.0);
      ReadSensorsSteps(m, 3) == m.(
        phase := 0,
        rx := eReply.1,
        tx := m.tx + [RequestFrame(a, CmdEnergy)],
        energies := e,
        effects := m.effects + [PowerState(Hold), PowerState(Conserve),
                                StopTimer(AppReadSensorsEvt), ClearEvent(AppReadSensorsEvt),
                                ElectricalReport(m.currentValues), MeteringReport(e)])
  {
    var a := m.config.deviceAddress;
    var eReply := EnergyReply(m.rx);
    var e := KeepValidEnergy(m.energies, eReply.0);
    var m3 := m.(phase := 3, tx := m.tx + [RequestFrame(a, CmdEnergy)],
                 effects := m.effects + [PowerState(Hold)]);
    var m4 := m3.(phase := 4, rx := eReply.1, energies := e,
                  effects := m3.effects + [PowerState(Conserve)]);
    var m5 := m4.(phase := 0,
                  effects := m4.effects + [StopTimer(AppReadSensorsEvt), ClearEvent(AppReadSensorsEvt),
                                           ElectricalReport(m.currentValues), MeteringReport(e)]);
    assert ReadSensorsSteps(m4, 1) == m5 by { StepTerminal(m4); StepsFrom(m4, 0, m5); }
    assert ReadSensorsSteps(m3, 2) == m5 by { StepEnergy(m3); StepsFrom(m3, 1, m4); }
    assert ReadSensorsSteps(m, 3) == m5 by { StepRequest(m, CmdEnergy); StepsFrom(m, 2, m3); }
    AppendSix(m.effects, PowerState(Hold), PowerState(Conserve),
              StopTimer(AppReadSensorsEvt), ClearEvent(AppReadSensorsEvt), ElectricalReport(m.currentValues), MeteringReport(e));
  }

  /** Phases 0 and 2: one request to the configured address, power held. */
  lemma StepRequest(m: Machine, cmd: byte)
    requires (m.phase == 0 && cmd == CmdCurrentValues) || (m.phase == 2 && cmd == CmdEnergy)
    ensures ReadSensorsStep(m) == m.(phase := m.phase + 1,
      tx := m.tx + [RequestFrame(m.config.deviceAddress, cmd)],
      effects := m.effects + [PowerState(Hold)])
  {
  }

  /** Phase 1: the current-values reply is consumed and, if valid, cached. */
  lemma StepCurrentValues(m: Machine)
    requires m.phase == 1
    ensures var reply := CurrentValuesReply(m.rx);
      ReadSensorsStep(m) == m.(phase := 2, rx := reply.1,
        currentValues := KeepValidCurrent(m.currentValues, reply.0),
        effects := m.effects + [PowerState(Conserve)])
  {
  }

  /** Phase 3: the energy reply is consumed and, if valid, cached. */
  lemma StepEnergy(m: Machine)
    requires m.phase == 3
    ensures var reply := EnergyReply(m.rx);
      ReadSensorsStep(m) == m.(phase := 4, rx := reply.1,
        energies := KeepValidEnergy(m.energies, reply.0),
        effects := m.effects + [PowerState(Conserve)])
  {
  }

  lemma AppendTwo<T>(s: seq<T>, x: T, y: T)
    ensures s + [x] + [y] == s + [x, y]
  {
  }

  lemma AppendSix<T>(s: seq<T>, a: T, b: T, c: T, d: T, e: T, f: T)
    ensures s + [a] + [b] + [c, d, e, f] == s + [a, b, c, d, e, f]
  {
  }

  lemma AppendEight<T>(s: seq<T>, a: T, b: T, c: T, d: T, e: T, f: T, g: T, h: T)
    ensures s + [a] + [b] + [c, d, e, f, g, h] == s + [a, b, c, d, e, f, g, h]
  {
  }

  /** The default branch (phase 4, or any larger value) as a state update. */
  lemma StepTerminal(m: Machine)
    requires m.phase >= TerminalPhase
    ensures ReadSensorsStep(m) == m.(phase := 0,
      effects := m.effects + [StopTimer(AppReadSensorsEvt), ClearEvent(AppReadSensorsEvt),
                              ElectricalReport(m.currentValues), MeteringReport(m.energies)])
  {
  }

  /** `n + 1` calls are one call, to `next`, followed by `n`. */
  lemma StepsFrom(m: Machine, n: nat, next: Machine)
    requires ReadSensorsStep(m) == next
    ensures ReadSensorsSteps(m, n + 1) == ReadSensorsSteps(next, n)
  {
  }

  // ------------------------------------------------------- event dispatch

  /** The four event bits `zclApp_event_loop` serves, highest priority first. */
  const EventPriority: seq<bv16> := [SysEventMsg, AppReportEvt, AppSaveAttrsEvt, AppReadSensorsEvt]

  /** Event `b` is pending in the mask. */
  predicate Pending(events: bv16, b: bv16) {
    events & b != 0
  }

  /** The one event a call of `zclApp_event_loop` serves, or 0 for none. */
  function HandledEvent(events: bv16): bv16 {
    if Pending(events, SysEventMsg) then SysEventMsg
    else if Pending(events, AppReportEvt) then AppReportEvt
    else if Pending(events, AppSaveAttrsEvt) then AppSaveAttrsEvt
    else if Pending(events, AppReadSensorsEvt) then AppReadSensorsEvt
    else 0
  }

  /** The mask `zclApp_event_loop` returns: the served bit toggled off, or 0. */
  function EventLoopResult(events: bv16): bv16 {
    var b := HandledEvent(events);
    if b == 0 then 0 else events ^ b
  }

  /** Reference definition of priority: the position of the first event of
      `priority` that is pending, or `|priority|` when none is. */
  function FirstPendingIndex(events: bv16, priority: seq<bv16>): (i: nat)
    ensures i <= |priority|
    ensures i < |priority| ==> Pending(events, priority[i])
    ensures forall j :: 0 <= j < i ==> !Pending(events, priority[j])
    decreases |priority|
  {
    if priority == [] then 0
    else if Pending(events, priority[0]) then 0
    else 1 + FirstPendingIndex(events, priority[1..])
  }

  /** The served event is the first pending one of the priority list, and
      none is served exactly when none of the four is pending. */
  lemma HandledEventPriority(events: bv16)
    ensures var i := FirstPendingIndex(events, EventPriority);
      HandledEvent(events) == if i < |EventPriority| then EventPriority[i] else 0
  {
    var p0 := EventPriority;
    var p1 := [AppReportEvt, AppSaveAttrsEvt, AppReadSensorsEvt];
    var p2 := [AppSaveAttrsEvt, AppReadSensorsEvt];
    var p3 := [AppReadSensorsEvt];
    assert p0[1..] == p1 && p1[1..] == p2 && p2[1..] == p3 && p3[1..] == [];
    assert FirstPendingIndex(events, p3) == if Pending(events, AppReadSensorsEvt) then 0 else 1;
    assert FirstPendingIndex(events, p2) == if Pending(events, AppSaveAttrsEvt) then 0 else 1 + FirstPendingIndex(events, p3);
    assert FirstPendingIndex(events, p1) == if Pending(events, AppReportEvt) then 0 else 1 + FirstPendingIndex(events, p2);
  }

  /** One event per call: the returned mask is the input with exactly the
      served bit cleared; with none of the four bits set every pending bit is
      dropped. */
  lemma EventLoopClearsOneBit(events: bv16)
    ensures var b := HandledEvent(events);
      b != 0 ==> events & b == b && EventLoopResult(events) & b == 0
                 && EventLoopResult(events) | b == events
    ensures HandledEvent(events) == 0 ==> EventLoopResult(events) == 0
  {
    if Pending(events, SysEventMsg) {
      ToggleSetBit(events, SysEventMsg);
    } else if Pending(events, AppReportEvt) {
      ToggleSetBit(events, AppReportEvt);
    } else if Pending(events, AppSaveAttrsEvt) {
      ToggleSetBit(events, AppSaveAttrsEvt);
    } else if Pending(events, AppReadSensorsEvt) {
      ToggleSetBit(events, AppReadSensorsEvt);
    }
  }

  /** Toggling a set single-bit flag clears it and touches no other bit. */
  lemma ToggleSetBit(x: bv16, b: bv16)
    requires b in {SysEventMsg, AppReportEvt, AppSaveAttrsEvt, AppReadSensorsEvt} && x & b != 0
    ensures x & b == b && (x ^ b) & b == 0 && (x ^ b) | b == x
  {
  }

  /** What one call of `zclApp_event_loop` does to the state. */
  function Dispatch(m: Machine, events: bv16): Machine {
    var b := HandledEvent(events);
    if b == SysEventMsg then m.(effects := m.effects + [DrainMessages])
    else if b == AppReportEvt then ReportStep(m)
    else if b == AppSaveAttrsEvt then m.(effects := m.effects + [SaveAttributes])
    else if b == AppReadSensorsEvt then ReadSensorsStep(m)
    else m
  }

  /** The application task: the phase counter and the effect log, with the
      globals and the meter's port it works on. */
  class ZclApp {
    /** `currentSensorsReadingPhase`, the static counter of `zclApp_ReadSensors`. */
    var phase: uint8
    var effects: seq<Effect>
    const globals: Globals
    const port: SerialPort

    constructor (g: Globals, p: SerialPort)
      ensures phase == 0 && effects == [] && globals == g && port == p
    {
      phase := 0;
      effects := [];
      globals := g;
      port := p;
    }

    function State(): Machine
      reads this, globals, port
    {
      Machine(phase, globals.config, globals.currentValues, globals.energies, port.rx, port.tx, effects)
    }

    /** `zclApp_ReadSensors`: the switch on the phase counter; each branch,
        post-increment included, is one of the methods below. */
    method ReadSensors()
      modifies this, globals, port
      ensures State() == ReadSensorsStep(old(State()))
    {
      if phase == 0 {
        SendRequest(CmdCurrentValues);
      } else if phase == 1 {
        ReceiveCurrentValues();
      } else if phase == 2 {
        SendRequest(CmdEnergy);
      } else if phase == 3 {
        ReceiveEnergy();
      } else {
        SendReports();
      }
    }

    /** Phases 0 and 2: hold the power manager and send the request. */
    method SendRequest(cmd: byte)
      requires (phase == 0 && cmd == CmdCurrentValues) || (phase == 2 && cmd == CmdEnergy)
      modifies this, port
      ensures State() == ReadSensorsStep(old(State()))
    {
      phase := phase + 1;
      effects := effects + [PowerState(Hold)];
      RequestMeasure(port, globals.config.deviceAddress, cmd);
    }

    /** Phase 1: read the reply; cache it unless the voltage is the sentinel. */
    method ReceiveCurrentValues()
      requires phase == 1
      modifies this, globals, port
      ensures State() == ReadSensorsStep(old(State()))
    {
      phase := 2;
      var cv := ReadCurrentValues(port);
      if cv.voltage == InvalidResponse {
        effects := effects + [PowerState(Conserve)];
      } else {
        globals.currentValues := cv;
        effects := effects + [PowerState(Conserve)];
      }
    }

    /** Phase 3: read the reply; cache it unless tariff 1 is the sentinel. */
    method ReceiveEnergy()
      requires phase == 3
      modifies this, globals, port
      ensures State() == ReadSensorsStep(old(State()))
    {
      phase := 4;
      var e := ReadEnergy(port);
      if e.t1 == InvalidResponse {
        effects := effects + [PowerState(Conserve)];
      } else {
        globals.energies := e;
        effects := effects + [PowerState(Conserve)];
      }
    }

    /** The default branch: stop and clear the read event, reset the counter
        and report both caches. */
    method SendReports()
      requires phase >= TerminalPhase
      modifies this
      ensures State() == ReadSensorsStep(old(State()))
    {
      effects := effects + [StopTimer(AppReadSensorsEvt), ClearEvent(AppReadSensorsEvt)];
      phase := 0;
      effects := effects + [ElectricalReport(globals.currentValues)];
      effects := effects + [MeteringReport(globals.energies)];
    }

    /** `zclApp_Report`. */
    method Report()
      modifies this
      ensures State() == ReportStep(old(State()))
    {
      effects := effects + [StartReloadTimer(AppReadSensorsEvt, ReadSensorsPeriod)];
    }

    /** `zclApp_event_loop`: serves one event and returns the events left. */
    method EventLoop(events: bv16) returns (rest: bv16)
      modifies this, globals, port
      ensures rest == EventLoopResult(events)
      ensures State() == Dispatch(old(State()), events)
    {
      if Pending(events, SysEventMsg) {
        effects := effects + [DrainMessages];
        return events ^ SysEventMsg;
      }
      if Pending(events, AppReportEvt) {
        Report();
        return events ^ AppReportEvt;
      }
      if Pending(events, AppSaveAttrsEvt) {
        effects := effects + [SaveAttributes];
        return events ^ AppSaveAttrsEvt;
      }
      if Pending(events, AppReadSensorsEvt) {
        ReadSensors();
        return events ^ AppReadSensorsEvt;
      }
      return 0;
    }
  }
}
