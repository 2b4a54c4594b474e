/**
 * The fan controller (pocisys-gpu-runtime/fan_controller.py): one tick as a function, and the class that
 * computes it.
 */
module Fan {
  import opened Common
  import opened FanCurve

  const BUSY_THRESHOLD_PERCENT: real := 10.0
  const BUSY_HOLD_SECONDS: real := 60.0
  const RECONNECT_HOLD_SECONDS: real := 10.0
  const COMMAND_HEARTBEAT_SECONDS: real := 30.0
  const RPM_SETTLE_SECONDS: real := 5.0
  const CALIBRATION_ORDER: seq<int> := [100, 70, 50, 40]
  const MAXSAMPLES: nat := 15

  // What one tick reads.

  datatype Sample = Sample(temperature: real, utilization: real)

  /** Python's float of a field: it can raise, and it can be infinite or not a number. */
  datatype Number = Raises | NotFinite | Finite(value: real)

  datatype Action =
    | Manual(duty: Option<int>, duration: Number)
    | Automatic(enabled: bool)
    | Force100
    | Other

  /** The command file: absent or malformed, readable only with an uncaught error, or a command. */
  datatype CommandFile = Nothing | Unreadable | Command(id: string, action: Action)

  /**
   * Everything a tick sees: the clock at its start and at its later readings, the GPU sample, the command
   * file, the reported RPM when the controller is discovered, and whether each write is accepted. The
   * last two fields belong to the full-speed attempt the loop makes when a tick raises.
   */
  datatype Input = Input(
    now: real, gpu: Option<Sample>,
    command: CommandFile, checks: nat -> real, startedAt: real, expiresFrom: real,
    rpm: Option<int>, reconnectOk: bool, observedAt: real, writeOk: bool, fallbackOk: bool,
    forceFound: bool, forceOk: bool)

  // What it keeps and what it does.

  datatype ManualTest = ManualTest(
    duty: int, calibration: bool, startedAt: real, expiresAt: real, commandedAt: Option<real>,
    startTemperature: Option<real>, minRpm: Option<int>, maxRpm: Option<int>, maxTemperature: Option<real>)

  datatype Controller = Controller(
    calibration: map<int, bool>, automatic: bool, lastCommandId: string, hubOnline: bool,
    lastSentDuty: Option<int>, lastSentAt: real, busyUntil: real, reconnectUntil: real,
    manual: Option<ManualTest>, temperatures: seq<(real, real)>)

  datatype Mode =
    | InvalidTelemetry | GpuBusy | TemperatureFailsafe | GpuCooldown | ControllerReconnect
    | CalibrationAborted | ForcedFullSpeedComplete | CalibrationComplete | RpmFailsafe | ManualCalibration
    | AutomaticCurve | AutomaticDisabled | ControllerUnavailable | CommandFailed

  datatype Cause = Reconnect | Commanded | Fallback | Forced

  /** One speed command sent to the hub. */
  datatype Write = Write(at: real, duty: int, cause: Cause, ok: bool)

  datatype Status = Status(online: bool, healthy: bool, mode: Mode, targetPercent: int)

  /** The end of a tick; `status` is None when it raised. */
  datatype Outcome = Outcome(c: Controller, writes: seq<Write>, status: Option<Status>)

  // The tick, stage by stage.

  function LastSamples(s: seq<(real, real)>): seq<(real, real)> {
    if |s| > MAXSAMPLES then s[|s| - MAXSAMPLES..] else s
  }

  function Sampled(c: Controller, i: Input): Controller {
    if i.gpu.None? then c
    else c.(temperatures := LastSamples(c.temperatures + [(i.now, i.gpu.value.temperature)]))
  }

  /** The samples at most 15 s old, each compared with its own clock reading. */
  function Recent(s: seq<(real, real)>, checks: nat -> real): seq<(real, real)> {
    if s == [] then []
    else
      var last := |s| - 1;
      Recent(s[..last], checks) + if checks(last) - s[last].0 <= 15.0 then [s[last]] else []
  }

  /** At least four samples over at least six seconds, no two more than two degrees apart. */
  predicate Stable(recent: seq<(real, real)>) {
    && |recent| >= 4 && recent[|recent| - 1].0 - recent[0].0 >= 6.0
    && forall j, k :: 0 <= j < |recent| && 0 <= k < |recent| ==> recent[j].1 - recent[k].1 <= 2.0
  }

  predicate Succeeded(calibration: map<int, bool>, duty: int) {
    duty in calibration && calibration[duty]
  }

  /** A calibration duty whose predecessors in the calibration order have all succeeded. */
  predicate OnLadder(calibration: map<int, bool>, duty: int) {
    && duty in CALIBRATION_ORDER
    && forall d :: d in CALIBRATION_ORDER && d > duty ==> Succeeded(calibration, d)
  }

  predicate Grants(c: Controller, i: Input, duty: Option<int>, duration: Number) {
    && duty.Some? && duration.Finite? && 20.0 <= duration.value <= 30.0
    && OnLadder(c.calibration, duty.value)
    && (duty.value < 100 ==> Stable(Recent(c.temperatures, i.checks)))
  }

  function Temperature(i: Input): Option<real> {
    if i.gpu.Some? then Some(i.gpu.value.temperature) else None
  }

  function NewTest(i: Input, duty: int, calibration: bool, duration: real): ManualTest {
    ManualTest(duty, calibration, i.startedAt, i.expiresFrom + duration, None, Temperature(i), None, None,
               Temperature(i))
  }

  predicate Calibrated(calibration: map<int, bool>) {
    forall d :: d in CALIBRATION_ORDER ==> Succeeded(calibration, d)
  }

  predicate IsNew(c: Controller, i: Input) {
    i.command.Command? && i.command.id != "" && i.command.id != c.lastCommandId
  }

  predicate CommandRaises(c: Controller, i: Input) {
    || i.command.Unreadable?
    || (IsNew(c, i) && i.command.action.Manual? && (i.command.action.duty.None? || i.command.action.duration.Raises?))
  }

  function Tested(c: Controller, i: Input, duty: Option<int>, duration: Number): Controller {
    if Grants(c, i, duty, duration)
    then c.(manual := Some(NewTest(i, duty.value, true, duration.value)), lastSentDuty := None) else c
  }

  /** What _consume_command leaves behind. */
  function Consumed(c: Controller, i: Input): Controller {
    if !IsNew(c, i) then c
    else
      var c1 := c.(lastCommandId := i.command.id);
      match i.command.action
      case Manual(duty, duration) => Tested(c1, i, duty, duration)
      case Automatic(enabled) => c1.(automatic := enabled && Calibrated(c.calibration))
      case Force100 => c1.(manual := Some(NewTest(i, 100, false, 30.0)), lastSentDuty := None)
      case Other => c1
  }

  /** A successful write: remembered, and the start of a test waiting for it. */
  function Sent(c: Controller, now: real, duty: int): Controller {
    var c1 := c.(lastSentDuty := Some(duty), lastSentAt := now);
    if c.manual.Some? && c.manual.value.duty == duty && c.manual.value.commandedAt.None?
    then c1.(manual := Some(c.manual.value.(commandedAt := Some(now)))) else c1
  }

  /** Discovery, with full speed and a hold when the hub was offline before. */
  function Connected(c: Controller, i: Input): Controller {
    if c.hubOnline then c
    else if !i.reconnectOk then c
    else Sent(c, i.now, 100).(reconnectUntil := i.now + RECONNECT_HOLD_SECONDS, hubOnline := true)
  }

  function MinMaybe(known: Option<int>, x: int): Option<int> {
    if known.None? then Some(x) else Some(Min(known.value, x))
  }

  function MaxMaybe(known: Option<int>, x: int): Option<int> {
    if known.None? then Some(x) else Some(Max(known.value, x))
  }

  function Hotter(known: Option<real>, seen: Option<real>): Option<real> {
    if seen.None? then known else if known.None? || known.value < seen.value then seen else known
  }

  function Observed(c: Controller, i: Input, rpm: int): Controller {
    if c.manual.None? || c.manual.value.commandedAt.None?
       || i.observedAt - c.manual.value.commandedAt.value < RPM_SETTLE_SECONDS then c
    else
      var m := c.manual.value;
      c.(manual := Some(m.(minRpm := if rpm > 0 then MinMaybe(m.minRpm, rpm) else m.minRpm,
                           maxRpm := if rpm > 0 then MaxMaybe(m.maxRpm, rpm) else m.maxRpm,
                           maxTemperature := Hotter(m.maxTemperature, Temperature(i)))))
  }

  function Finished(c: Controller, success: bool): Controller {
    if c.manual.None? then c
    else if !c.manual.value.calibration then c.(manual := None)
    else c.(calibration := c.calibration[c.manual.value.duty := success], manual := None)
  }

  /** A running test below full speed fails. */
  function Abandoned(c: Controller): Controller {
    if c.manual.Some? && c.manual.value.duty < 100 then Finished(c, false) else c
  }

  datatype Choice = Choice(c: Controller, duty: int, mode: Mode)

  function Selected(c: Controller, i: Input): Choice {
    if i.gpu.None? then Choice(c, 100, InvalidTelemetry)
    else
      var Sample(temperature, utilization) := i.gpu.value;
      if utilization >= BUSY_THRESHOLD_PERCENT then
        Choice(Abandoned(c.(busyUntil := i.now + BUSY_HOLD_SECONDS)), 100, GpuBusy)
      else if temperature >= 70.0 then Choice(Abandoned(c), 100, TemperatureFailsafe)
      else if i.now < c.busyUntil then Choice(c, 100, GpuCooldown)
      else if i.now < c.reconnectUntil then Choice(c, 100, ControllerReconnect)
      else if c.manual.Some? then SelectedByTest(c, c.manual.value, i.now, temperature)
      else if c.automatic then Choice(c, TemperatureDuty(temperature), AutomaticCurve)
      else Choice(c, 100, AutomaticDisabled)
  }

  function SelectedByTest(c: Controller, m: ManualTest, now: real, temperature: real): Choice {
    if m.duty < 100 && m.startTemperature.Some? && temperature >= m.startTemperature.value + 5.0 then
      Choice(Finished(c, false), 100, CalibrationAborted)
    else if now >= m.expiresAt then
      if !m.calibration then Choice(Finished(c, true), 100, ForcedFullSpeedComplete)
      else if m.minRpm.Some? && m.minRpm.value != 0 then Choice(Finished(c, true), 100, CalibrationComplete)
      else Choice(Finished(c, false), 100, RpmFailsafe)
    else Choice(c, m.duty, ManualCalibration)
  }

  /** A fan that stands still long enough after a write overrides the choice. */
  function Checked(ch: Choice, i: Input, rpm: int): Choice {
    if rpm <= 0 && ch.c.lastSentAt != 0.0 && i.now - ch.c.lastSentAt >= RPM_SETTLE_SECONDS
    then Choice(Abandoned(ch.c), 100, RpmFailsafe) else ch
  }

  predicate MustSend(ch: Choice, now: real) {
    ch.c.lastSentDuty != Some(ch.duty) || now - ch.c.lastSentAt >= COMMAND_HEARTBEAT_SECONDS
  }

  function Commanding(ch: Choice, i: Input): Outcome {
    if !MustSend(ch, i.now) then
      Outcome(ch.c, [], Some(Status(true, false, ch.mode, ch.duty)))
    else if i.writeOk then
      Outcome(Sent(ch.c, i.now, ch.duty), [Write(i.now, ch.duty, Commanded, true)],
              Some(Status(true, false, ch.mode, ch.duty)))
    else
      Outcome(if i.fallbackOk then ch.c.(lastSentDuty := Some(100), lastSentAt := i.now) else ch.c,
              [Write(i.now, ch.duty, Commanded, false), Write(i.now, 100, Fallback, i.fallbackOk)],
              Some(Status(false, false, CommandFailed, 100)))
  }

  /** The choice of a tick that found the hub. */
  function Chosen(c: Controller, i: Input, rpm: int): Choice {
    Checked(Selected(Observed(Connected(c, i), i, rpm), i), i, rpm)
  }

  function ReconnectWrites(c: Controller, i: Input): seq<Write> {
    if c.hubOnline then [] else [Write(i.now, 100, Reconnect, i.reconnectOk)]
  }

  function Ticked(c: Controller, i: Input): Outcome {
    var c1 := Sampled(c, i);
    var c2 := Consumed(c1, i);
    if CommandRaises(c1, i) then Outcome(c2, [], None)
    else if i.rpm.None? then
      Outcome(c2.(hubOnline := false), [], Some(Status(false, false, ControllerUnavailable, 100)))
    else Driven(c2, i, i.rpm.value)
  }

  /** The part of a tick that has a fan to drive. */
  function Driven(c: Controller, i: Input, rpm: int): Outcome {
    var out := Commanding(Chosen(c, i, rpm), i);
    var healthy := out.status.value.online && rpm > 0 && i.gpu.Some?;
    Outcome(out.c, ReconnectWrites(c, i) + out.writes, Some(out.status.value.(healthy := healthy)))
  }

  /** One turn of the loop: a tick, and full speed when it raised. */
  function Turned(c: Controller, i: Input): Outcome {
    var out := Ticked(c, i);
    if out.status.None? && i.forceFound
    then out.(writes := out.writes + [Write(i.now, 100, Forced, i.forceOk)])
    else out
  }

  // The controller object.

  class FanController {
    var calibration: map<int, bool>
    var automatic: bool
    var lastCommandId: string
    var hubOnline: bool
    var lastSentDuty: Option<int>
    var lastSentAt: real
    var busyUntil: real
    var reconnectUntil: real
    var manual: Option<ManualTest>
    var temperatures: seq<(real, real)>

    function Now(): Controller
      reads this
    {
      Controller(calibration, automatic, lastCommandId, hubOnline, lastSentDuty, lastSentAt, busyUntil, reconnectUntil,
                 manual, temperatures)
    }

    /** __init__, with what the settings and calibration files hold. */
    constructor (savedCalibration: map<int, bool>, savedAutomatic: bool)
      ensures Now() == Controller(savedCalibration, savedAutomatic, "", false, None, 0.0, 0.0, 0.0, None, [])
    {
      calibration, automatic, lastCommandId, hubOnline := savedCalibration, savedAutomatic, "", false;
      lastSentDuty, lastSentAt, busyUntil, reconnectUntil, manual, temperatures := None, 0.0, 0.0, 0.0, None, [];
    }

    /** _gpu_is_stable. */
    method GpuIsStable(checks: nat -> real) returns (stable: bool)
      ensures stable == Stable(Recent(temperatures, checks))
    {
      var recent: seq<(real, real)> := [];
      var k := 0;
      while k < |temperatures|
        invariant 0 <= k <= |temperatures|
        invariant recent == Recent(temperatures[..k], checks)
      {
        assert temperatures[..k + 1][..k] == temperatures[..k];
        if checks(k) - temperatures[k].0 <= 15.0 {
          recent := recent + [temperatures[k]];
        }
        k := k + 1;
      }
      assert temperatures[..k] == temperatures;
      if |recent| < 4 || recent[|recent| - 1].0 - recent[0].0 < 6.0 {
        return false;
      }
      var low, high := Extremes(recent);
      return high - low <= 2.0;
    }

    static method Extremes(recent: seq<(real, real)>) returns (low: real, high: real)
      requires recent != []
      ensures exists j, k :: 0 <= j < |recent| && 0 <= k < |recent| && low == recent[j].1 && high == recent[k].1
      ensures forall j :: 0 <= j < |recent| ==> low <= recent[j].1 <= high
    {
      low, high := recent[0].1, recent[0].1;
      ghost var lo, hi := 0, 0;
      for n := 1 to |recent|
        invariant 0 <= lo < |recent| && 0 <= hi < |recent| && low == recent[lo].1 && high == recent[hi].1
        invariant forall j :: 0 <= j < n ==> low <= recent[j].1 <= high
      {
        if recent[n].1 < low { low, lo := recent[n].1, n; }
        if recent[n].1 > high { high, hi := recent[n].1, n; }
      }
    }

    /** The admission checks of a manual command. */
    method MayTest(i: Input, duty: int, duration: Number) returns (ok: bool)
      requires !duration.Raises?
      ensures ok == Grants(Now(), i, Some(duty), duration)
    {
      if duty !in CALIBRATION_ORDER || duration.NotFinite? || !(20.0 <= duration.value <= 30.0) {
        return false;
      }
      var k := 0;
      while CALIBRATION_ORDER[k] != duty
        invariant 0 <= k < |CALIBRATION_ORDER| && duty in CALIBRATION_ORDER[k..]
        invariant forall n :: 0 <= n < k ==> Succeeded(calibration, CALIBRATION_ORDER[n])
        decreases |CALIBRATION_ORDER| - k
      {
        if !Succeeded(calibration, CALIBRATION_ORDER[k]) {
          return false;
        }
        k := k + 1;
      }
      if duty < 100 {
        var stable := GpuIsStable(i.checks);
        return stable;
      }
      return true;
    }

    /** _consume_command. */
    method ConsumeCommand(i: Input) returns (raised: bool)
      modifies this
      ensures raised == CommandRaises(old(Now()), i)
      ensures Now() == Consumed(old(Now()), i)
    {
      if i.command.Unreadable? {
        return true;
      }
      if i.command.Nothing? || i.command.id == "" || i.command.id == lastCommandId {
        return false;
      }
      lastCommandId := i.command.id;
      match i.command.action {
        case Manual(duty, duration) =>
          if duty.None? || duration.Raises? {
            return true;
          }
          StartTest(i, duty.value, duration);
        case Automatic(enabled) =>
          automatic := enabled && forall d :: d in CALIBRATION_ORDER ==> Succeeded(calibration, d);
        case Force100 =>
          manual := Some(NewTest(i, 100, false, 30.0));
          lastSentDuty := None;
        case Other =>
      }
      return false;
    }

    method StartTest(i: Input, duty: int, duration: Number)
      requires !duration.Raises?
      modifies `manual, `lastSentDuty
      ensures Now() == Tested(old(Now()), i, Some(duty), duration)
    {
      var ok := MayTest(i, duty, duration);
      if ok {
        manual := Some(NewTest(i, duty, true, duration.value));
        lastSentDuty := None;
      }
    }

    /** _finish_manual. */
    method FinishManual(success: bool)
      modifies `manual, `calibration
      ensures Now() == Finished(old(Now()), success)
    {
      if manual.None? {
        return;
      }
      if !manual.value.calibration {
        manual := None;
        return;
      }
      calibration := calibration[manual.value.duty := success];
      manual := None;
    }

    /** _update_manual_observations. */
    method UpdateManualObservations(i: Input, rpm: int)
      modifies `manual
      ensures Now() == Observed(old(Now()), i, rpm)
    {
      if manual.None? {
        return;
      }
      var m := manual.value;
      if m.commandedAt.None? || i.observedAt - m.commandedAt.value < RPM_SETTLE_SECONDS {
        return;
      }
      if rpm > 0 {
        m := m.(minRpm := if m.minRpm.None? then Some(rpm) else Some(Min(m.minRpm.value, rpm)));
        m := m.(maxRpm := if m.maxRpm.None? then Some(rpm) else Some(Max(m.maxRpm.value, rpm)));
      }
      if i.gpu.Some? {
        var t := i.gpu.value.temperature;
        var hotter := m.maxTemperature.None? || m.maxTemperature.value < t;
        m := m.(maxTemperature := if hotter then Some(t) else m.maxTemperature);
      }
      manual := Some(m);
    }

    /** _select_duty. */
    method SelectDuty(i: Input) returns (duty: int, mode: Mode)
      modifies `manual, `calibration, `busyUntil
      ensures Choice(Now(), duty, mode) == Selected(old(Now()), i)
    {
      if i.gpu.None? {
        return 100, InvalidTelemetry;
      }
      var temperature, utilization := i.gpu.value.temperature, i.gpu.value.utilization;
      if utilization >= BUSY_THRESHOLD_PERCENT {
        busyUntil := i.now + BUSY_HOLD_SECONDS;
        if manual.Some? && manual.value.duty < 100 {
          FinishManual(false);
        }
        return 100, GpuBusy;
      }
      if temperature >= 70.0 {
        if manual.Some? && manual.value.duty < 100 {
          FinishManual(false);
        }
        return 100, TemperatureFailsafe;
      }
      if i.now < busyUntil {
        return 100, GpuCooldown;
      }
      if i.now < reconnectUntil {
        return 100, ControllerReconnect;
      }
      if manual.Some? {
        duty, mode := SelectTestDuty(i.now, temperature);
        return;
      }
      if automatic {
        return TemperatureDuty(temperature), AutomaticCurve;
      }
      return 100, AutomaticDisabled;
    }

    /** The manual branch of _select_duty. */
    method SelectTestDuty(now: real, temperature: real) returns (duty: int, mode: Mode)
      requires manual.Some?
      modifies `manual, `calibration
      ensures Choice(Now(), duty, mode) == SelectedByTest(old(Now()), old(manual).value, now, temperature)
    {
      var m := manual.value;
      if m.duty < 100 && m.startTemperature.Some? && temperature >= m.startTemperature.value + 5.0 {
        FinishManual(false);
        return 100, CalibrationAborted;
      }
      if now >= m.expiresAt {
        if !m.calibration {
          FinishManual(true);
          return 100, ForcedFullSpeedComplete;
        }
        var success := m.minRpm.Some? && m.minRpm.value != 0;
        FinishManual(success);
        return 100, if success then CalibrationComplete else RpmFailsafe;
      }
      return m.duty, ManualCalibration;
    }

    method RecordSent(now: real, duty: int)
      modifies `lastSentDuty, `lastSentAt, `manual
      ensures Now() == Sent(old(Now()), now, duty)
    {
      lastSentDuty := Some(duty);
      lastSentAt := now;
      if manual.Some? && manual.value.duty == duty && manual.value.commandedAt.None? {
        manual := Some(manual.value.(commandedAt := Some(now)));
      }
    }

    /** The first hub section of tick, for a controller that was discovered. */
    method Connect(i: Input) returns (writes: seq<Write>)
      modifies `lastSentDuty, `lastSentAt, `manual, `reconnectUntil, `hubOnline
      ensures Now() == Connected(old(Now()), i)
      ensures writes == ReconnectWrites(old(Now()), i)
    {
      writes := [];
      if !hubOnline {
        writes := [Write(i.now, 100, Reconnect, i.reconnectOk)];
        if !i.reconnectOk {
          hubOnline := false;
          return;
        }
        RecordSent(i.now, 100);
        reconnectUntil := i.now + RECONNECT_HOLD_SECONDS;
      }
      hubOnline := true;
    }

    /** The command section of tick. */
    method Send(i: Input, duty: int, mode: Mode) returns (writes: seq<Write>, status: Status)
      modifies `lastSentDuty, `lastSentAt, `manual
      ensures Outcome(Now(), writes, Some(status)) == Commanding(Choice(old(Now()), duty, mode), i)
    {
      if lastSentDuty != Some(duty) || i.now - lastSentAt >= COMMAND_HEARTBEAT_SECONDS {
        if i.writeOk {
          RecordSent(i.now, duty);
          return [Write(i.now, duty, Commanded, true)], Status(true, false, mode, duty);
        }
        writes := [Write(i.now, duty, Commanded, false), Write(i.now, 100, Fallback, i.fallbackOk)];
        if i.fallbackOk {
          lastSentDuty := Some(100);
          lastSentAt := i.now;
        }
        return writes, Status(false, false, CommandFailed, 100);
      }
      return [], Status(true, false, mode, duty);
    }

    /** tick. */
    method Tick(i: Input) returns (writes: seq<Write>, status: Option<Status>)
      modifies this
      ensures Outcome(Now(), writes, status) == Ticked(old(Now()), i)
    {
      if i.gpu.Some? {
        temperatures := temperatures + [(i.now, i.gpu.value.temperature)];
        if |temperatures| > MAXSAMPLES {
          temperatures := temperatures[|temperatures| - MAXSAMPLES..];
        }
      }
      var raised := ConsumeCommand(i);
      if raised {
        return [], None;
      }
      if i.rpm.None? {
        hubOnline := false;
        return [], Some(Status(false, false, ControllerUnavailable, 100));
      }
      var s;
      writes, s := Drive(i, i.rpm.value);
      return writes, Some(s);
    }

    /** The second half of tick. */
    method Drive(i: Input, rpm: int) returns (writes: seq<Write>, status: Status)
      modifies this
      ensures Outcome(Now(), writes, Some(status)) == Driven(old(Now()), i, rpm)
    {
      writes := Connect(i);
      var duty, mode := ChooseDuty(i, rpm);
      var sent, s := Send(i, duty, mode);
      return writes + sent, s.(healthy := s.online && rpm > 0 && i.gpu.Some?);
    }

    method ChooseDuty(i: Input, rpm: int) returns (duty: int, mode: Mode)
      modifies `manual, `calibration, `busyUntil
      ensures Choice(Now(), duty, mode) == Checked(Selected(Observed(old(Now()), i, rpm), i), i, rpm)
    {
      UpdateManualObservations(i, rpm);
      duty, mode := SelectDuty(i);
      if rpm <= 0 && lastSentAt != 0.0 && i.now - lastSentAt >= RPM_SETTLE_SECONDS {
        if manual.Some? && manual.value.duty < 100 {
          FinishManual(false);
        }
        duty, mode := 100, RpmFailsafe;
      }
    }

    /** One turn of run's loop. */
    method Turn(i: Input) returns (writes: seq<Write>)
      modifies this
      ensures Now() == Turned(old(Now()), i).c && writes == Turned(old(Now()), i).writes
    {
      var status;
      writes, status := Tick(i);
      if status.None? && i.forceFound {
        writes := writes + [Write(i.now, 100, Forced, i.forceOk)];
      }
    }

    /** run, for the inputs of its turns; the writes of all turns are collected, and full speed ends it. */
    method Run(inputs: seq<Input>, stoppedAt: real, forceFound: bool, forceOk: bool) returns (writes: seq<seq<Write>>)
      modifies this
      ensures Now() == After(old(Now()), inputs, |inputs|)
      ensures writes == WritesOf(old(Now()), inputs, |inputs|)
                      + [if forceFound then [Write(stoppedAt, 100, Forced, forceOk)] else []]
    {
      ghost var start := Now();
      writes := [];
      var k := 0;
      while k < |inputs|
        invariant 0 <= k <= |inputs|
        invariant Now() == After(start, inputs, k) && writes == WritesOf(start, inputs, k)
      {
        var turn := Turn(inputs[k]);
        k := k + 1;
        writes := writes + [turn];
      }
      writes := writes + [if forceFound then [Write(stoppedAt, 100, Forced, forceOk)] else []];
    }
  }

  /** The controller after k turns. */
  function After(c: Controller, inputs: seq<Input>, k: nat): Controller
    requires k <= |inputs|
  {
    if k == 0 then c else Turned(After(c, inputs, k - 1), inputs[k - 1]).c
  }

  /** The writes of the first k turns. */
  function WritesOf(c: Controller, inputs: seq<Input>, k: nat): (writes: seq<seq<Write>>)
    requires k <= |inputs|
    ensures |writes| == k
  {
    if k == 0 then [] else WritesOf(c, inputs, k - 1) + [Turned(After(c, inputs, k - 1), inputs[k - 1]).writes]
  }
}
