/** What holds over whole runs of the fan controller. */
module FanRuns {
  import opened Common
  import opened Fan
  import opened FanCurve

  // One turn.

  /** The controller once this turn's command is consumed. */
  function AfterCommand(c: Controller, i: Input): Controller {
    Consumed(Sampled(c, i), i)
  }

  /** The turn gets past its command and finds the hub. */
  predicate Drives(c: Controller, i: Input) {
    !CommandRaises(Sampled(c, i), i) && i.rpm.Some?
  }

  predicate SeesBusy(c: Controller, i: Input) {
    Drives(c, i) && i.gpu.Some? && i.gpu.value.utilization >= BUSY_THRESHOLD_PERCENT
  }

  predicate Reconnects(c: Controller, i: Input) {
    Drives(c, i) && !c.hubOnline && i.reconnectOk
  }

  /** A lease: a new command for a duty on the ladder, at most 30 s long, below full speed only on a steady GPU. */
  predicate Leases(c: Controller, i: Input, duty: int, expiresAt: real) {
    Granted(Sampled(c, i), i, duty, expiresAt)
  }

  lemma {:induction false} StagesKeepHolds(c: Controller, i: Input)
    ensures AfterCommand(c, i).busyUntil == c.busyUntil && AfterCommand(c, i).reconnectUntil == c.reconnectUntil
    ensures AfterCommand(c, i).hubOnline == c.hubOnline && AfterCommand(c, i).calibration == c.calibration
  {
    ConsumedHolds(Sampled(c, i), i);
  }

  lemma {:induction false} ConsumedHolds(c: Controller, i: Input)
    ensures var d := Consumed(c, i);
            && d.busyUntil == c.busyUntil && d.reconnectUntil == c.reconnectUntil
            && d.hubOnline == c.hubOnline && d.calibration == c.calibration
            && d.lastSentAt == c.lastSentAt && (d.lastSentDuty.Some? ==> d.lastSentDuty == c.lastSentDuty)
  {
  }

  lemma {:induction false} ConnectedAndObserved(c: Controller, i: Input, rpm: int)
    ensures var d := Observed(Connected(c, i), i, rpm);
            && d.busyUntil == c.busyUntil && d.calibration == c.calibration && d.automatic == c.automatic
            && d.reconnectUntil
              == (if !c.hubOnline && i.reconnectOk then i.now + RECONNECT_HOLD_SECONDS else c.reconnectUntil)
            && (d.manual.Some? <==> c.manual.Some?)
            && (d.manual.Some? ==> d.manual.value.duty == c.manual.value.duty
                                   && d.manual.value.expiresAt == c.manual.value.expiresAt
                                   && d.manual.value.calibration == c.manual.value.calibration)
  {
  }

  /** Why a choice is below full speed. */
  lemma {:induction false} LowChoice(c: Controller, i: Input, rpm: int)
    requires Checked(Selected(c, i), i, rpm).duty < 100
    ensures i.gpu.Some? && i.gpu.value.utilization < BUSY_THRESHOLD_PERCENT && i.gpu.value.temperature < 70.0
    ensures i.now >= c.busyUntil && i.now >= c.reconnectUntil
    ensures if c.manual.Some?
            then Checked(Selected(c, i), i, rpm).duty == c.manual.value.duty && i.now < c.manual.value.expiresAt
            else c.automatic && Checked(Selected(c, i), i, rpm).duty == TemperatureDuty(i.gpu.value.temperature)
  {
  }

  /** Every write below full speed is the duty a turn chose. */
  lemma {:induction false} LowWriteIsChoice(c: Controller, i: Input, w: Write)
    requires w in Turned(c, i).writes && w.duty < 100
    ensures Drives(c, i) && w.duty == Chosen(AfterCommand(c, i), i, i.rpm.value).duty
  {
    var c2 := AfterCommand(c, i);
    if !CommandRaises(Sampled(c, i), i) && i.rpm.Some? {
      var sent := Commanding(Chosen(c2, i, i.rpm.value), i).writes;
      assert w in ReconnectWrites(c2, i) || w in sent;
    }
  }

  lemma {:induction false} LowWrite(c: Controller, i: Input, w: Write)
    requires w in Turned(c, i).writes && w.duty < 100
    ensures Drives(c, i) && !SeesBusy(c, i) && !Reconnects(c, i)
    ensures i.gpu.Some? && i.gpu.value.utilization < BUSY_THRESHOLD_PERCENT && i.gpu.value.temperature < 70.0
    ensures i.now >= c.busyUntil && i.now >= c.reconnectUntil
    ensures if AfterCommand(c, i).manual.Some?
            then w.duty == AfterCommand(c, i).manual.value.duty && i.now < AfterCommand(c, i).manual.value.expiresAt
            else AfterCommand(c, i).automatic && w.duty == TemperatureDuty(i.gpu.value.temperature)
  {
    LowWriteIsChoice(c, i, w);
    StagesKeepHolds(c, i);
    ConnectedAndObserved(AfterCommand(c, i), i, i.rpm.value);
    LowChoice(Observed(Connected(AfterCommand(c, i), i), i, i.rpm.value), i, i.rpm.value);
  }

  // The calibration ladder.

  /** A running calibration is on the ladder; any other forced speed is full speed. */
  predicate LadderInv(c: Controller) {
    c.manual.Some? ==>
      if c.manual.value.calibration then OnLadder(c.calibration, c.manual.value.duty) else c.manual.value.duty == 100
  }

  lemma {:induction false} CommandKeepsLadder(c: Controller, i: Input)
    requires LadderInv(c)
    ensures LadderInv(AfterCommand(c, i))
  {
    ConsumedTest(Sampled(c, i), i);
  }

  /** A command leaves the test alone, grants a calibration or forces full speed. */
  lemma {:induction false} ConsumedTest(c: Controller, i: Input)
    ensures Consumed(c, i).calibration == c.calibration
    ensures var m := Consumed(c, i).manual;
            || m == c.manual
            || (m.Some? && !m.value.calibration && m.value.duty == 100)
            || (m.Some? && m.value.calibration && Granted(c, i, m.value.duty, m.value.expiresAt))
  {
  }

  /** A new command gets a calibration. */
  predicate Granted(c: Controller, i: Input, duty: int, expiresAt: real) {
    && IsNew(c, i) && i.command.action.Manual?
    && Grants(c, i, i.command.action.duty, i.command.action.duration)
    && i.command.action.duty == Some(duty) && expiresAt == i.expiresFrom + i.command.action.duration.value
  }

  lemma {:induction false} ChoiceKeepsLadder(c: Controller, i: Input, rpm: int)
    requires LadderInv(c)
    ensures LadderInv(Checked(Selected(c, i), i, rpm).c)
  {
    SelectedTest(c, i);
    CheckedTest(Selected(c, i), i, rpm);
  }

  /** Choosing a duty keeps a running test as it is, or ends it. */
  lemma {:induction false} SelectedTest(c: Controller, i: Input)
    ensures var d := Selected(c, i).c;
            && d.automatic == c.automatic && d.lastSentAt == c.lastSentAt
            && (d.manual.None? || (d.manual == c.manual && d.calibration == c.calibration))
  {
  }

  lemma {:induction false} CheckedTest(ch: Choice, i: Input, rpm: int)
    ensures var d := Checked(ch, i, rpm).c;
            && d.automatic == ch.c.automatic
            && (d.manual.None? || (d.manual == ch.c.manual && d.calibration == ch.c.calibration))
  {
  }

  lemma {:induction false} CommandingKeepsTest(ch: Choice, i: Input)
    ensures var d := Commanding(ch, i).c;
            && d.calibration == ch.c.calibration && d.busyUntil == ch.c.busyUntil
              && d.reconnectUntil == ch.c.reconnectUntil
            && (d.manual.Some? <==> ch.c.manual.Some?)
            && (d.manual.Some? ==> d.manual.value.duty == ch.c.manual.value.duty
                                   && d.manual.value.expiresAt == ch.c.manual.value.expiresAt
                                   && d.manual.value.calibration == ch.c.manual.value.calibration)
  {
  }

  lemma {:induction false} TurnKeepsLadder(c: Controller, i: Input)
    requires LadderInv(c)
    ensures LadderInv(Turned(c, i).c)
  {
    CommandKeepsLadder(c, i);
    if Drives(c, i) {
      var c2 := AfterCommand(c, i);
      ConnectedAndObserved(c2, i, i.rpm.value);
      ChoiceKeepsLadder(Observed(Connected(c2, i), i, i.rpm.value), i, i.rpm.value);
      CommandingKeepsTest(Chosen(c2, i, i.rpm.value), i);
    }
  }

  /**
   * In every state a run reaches from one without an active test, a running calibration is at one of the
   * four calibration duties and every higher one is recorded successful.
   */
  lemma {:induction false} CalibrationLadder(start: Controller, inputs: seq<Input>, k: nat)
    requires start.manual.None? && k <= |inputs|
    ensures LadderInv(After(start, inputs, k))
    ensures var c := After(start, inputs, k);
            c.manual.Some? && c.manual.value.calibration ==>
              && c.manual.value.duty in CALIBRATION_ORDER
              && forall d :: d in CALIBRATION_ORDER && d > c.manual.value.duty ==> Succeeded(c.calibration, d)
  {
    if k > 0 {
      CalibrationLadder(start, inputs, k - 1);
      TurnKeepsLadder(After(start, inputs, k - 1), inputs[k - 1]);
    }
  }

  // Safety.

  predicate Nondecreasing(inputs: seq<Input>) {
    forall j, k :: 0 <= j <= k < |inputs| ==> inputs[j].now <= inputs[k].now
  }

  lemma {:induction false} TurnSetsHolds(c: Controller, i: Input)
    ensures var d := Turned(c, i).c;
            && d.busyUntil == (if SeesBusy(c, i) then i.now + BUSY_HOLD_SECONDS else c.busyUntil)
            && d.reconnectUntil == (if Reconnects(c, i) then i.now + RECONNECT_HOLD_SECONDS else c.reconnectUntil)
  {
    StagesKeepHolds(c, i);
    if Drives(c, i) {
      var c2 := AfterCommand(c, i);
      ConnectedAndObserved(c2, i, i.rpm.value);
      ChoiceSetsHolds(Observed(Connected(c2, i), i, i.rpm.value), i, i.rpm.value);
      CommandingKeepsTest(Chosen(c2, i, i.rpm.value), i);
      DrivenEnds(c, i);
    }
  }

  lemma {:induction false} ChoiceSetsHolds(c: Controller, i: Input, rpm: int)
    ensures var d := Checked(Selected(c, i), i, rpm).c;
            && d.busyUntil == (if i.gpu.Some? && i.gpu.value.utilization >= BUSY_THRESHOLD_PERCENT
                               then i.now + BUSY_HOLD_SECONDS else c.busyUntil)
            && d.reconnectUntil == c.reconnectUntil && d.lastSentDuty == c.lastSentDuty && d.lastSentAt == c.lastSentAt
  {
    SelectionSetsHolds(c, i);
  }

  lemma {:induction false} SelectionSetsHolds(c: Controller, i: Input)
    ensures var d := Selected(c, i).c;
            && d.busyUntil == (if i.gpu.Some? && i.gpu.value.utilization >= BUSY_THRESHOLD_PERCENT
                               then i.now + BUSY_HOLD_SECONDS else c.busyUntil)
            && d.reconnectUntil == c.reconnectUntil && d.lastSentDuty == c.lastSentDuty && d.lastSentAt == c.lastSentAt
  {
  }

  lemma {:induction false} DrivenEnds(c: Controller, i: Input)
    requires Drives(c, i)
    ensures Turned(c, i).c == Commanding(Chosen(AfterCommand(c, i), i, i.rpm.value), i).c
  {
  }

  lemma {:induction false} BusyStep(c: Controller, i: Input, t: real)
    requires i.now + BUSY_HOLD_SECONDS >= t && (c.busyUntil >= t || SeesBusy(c, i))
    ensures Turned(c, i).c.busyUntil >= t
  {
    TurnSetsHolds(c, i);
  }

  lemma {:induction false} BusyAfter(start: Controller, inputs: seq<Input>, k: nat, t: real)
    requires 0 < k <= |inputs| && inputs[k - 1].now + BUSY_HOLD_SECONDS >= t
    requires After(start, inputs, k - 1).busyUntil >= t || SeesBusy(After(start, inputs, k - 1), inputs[k - 1])
    ensures After(start, inputs, k).busyUntil >= t
  {
    BusyStep(After(start, inputs, k - 1), inputs[k - 1], t);
  }

  lemma {:induction false} BusyIsHeld(start: Controller, inputs: seq<Input>, k: nat, j: nat)
    requires Nondecreasing(inputs) && j < k <= |inputs| && SeesBusy(After(start, inputs, j), inputs[j])
    ensures After(start, inputs, k).busyUntil >= inputs[j].now + BUSY_HOLD_SECONDS
  {
    if j < k - 1 {
      BusyIsHeld(start, inputs, k - 1, j);
    }
    BusyAfter(start, inputs, k, inputs[j].now + BUSY_HOLD_SECONDS);
  }

  lemma {:induction false} ReconnectStep(c: Controller, i: Input, t: real)
    requires i.now + RECONNECT_HOLD_SECONDS >= t && (c.reconnectUntil >= t || Reconnects(c, i))
    ensures Turned(c, i).c.reconnectUntil >= t
  {
    TurnSetsHolds(c, i);
  }

  lemma {:induction false} ReconnectAfter(start: Controller, inputs: seq<Input>, k: nat, t: real)
    requires 0 < k <= |inputs| && inputs[k - 1].now + RECONNECT_HOLD_SECONDS >= t
    requires After(start, inputs, k - 1).reconnectUntil >= t || Reconnects(After(start, inputs, k - 1), inputs[k - 1])
    ensures After(start, inputs, k).reconnectUntil >= t
  {
    ReconnectStep(After(start, inputs, k - 1), inputs[k - 1], t);
  }

  lemma {:induction false} ReconnectIsHeld(start: Controller, inputs: seq<Input>, k: nat, j: nat)
    requires Nondecreasing(inputs) && j < k <= |inputs| && Reconnects(After(start, inputs, j), inputs[j])
    ensures After(start, inputs, k).reconnectUntil >= inputs[j].now + RECONNECT_HOLD_SECONDS
  {
    if j < k - 1 {
      ReconnectIsHeld(start, inputs, k - 1, j);
    }
    ReconnectAfter(start, inputs, k, inputs[j].now + RECONNECT_HOLD_SECONDS);
  }

  /** Some turn up to the last granted this lease. */
  predicate LeasedBy(start: Controller, inputs: seq<Input>, last: nat, duty: int, expiresAt: real)
    requires last < |inputs|
  {
    exists j :: 0 <= j <= last && Leases(After(start, inputs, j), inputs[j], duty, expiresAt)
  }

  lemma {:induction false} TestAfterCommand(c: Controller, i: Input)
    requires AfterCommand(c, i).manual.Some? && AfterCommand(c, i).manual.value.calibration
    ensures c.manual == AfterCommand(c, i).manual
         || Leases(c, i, AfterCommand(c, i).manual.value.duty, AfterCommand(c, i).manual.value.expiresAt)
  {
    ConsumedTest(Sampled(c, i), i);
  }

  lemma {:induction false} TestAfterTurn(c: Controller, i: Input)
    requires Turned(c, i).c.manual.Some?
    ensures AfterCommand(c, i).manual.Some?
    ensures var m, n := Turned(c, i).c.manual.value, AfterCommand(c, i).manual.value;
            m.duty == n.duty && m.expiresAt == n.expiresAt && m.calibration == n.calibration
  {
    if Drives(c, i) {
      var c2 := AfterCommand(c, i);
      ConnectedAndObserved(c2, i, i.rpm.value);
      CommandingKeepsTest(Chosen(c2, i, i.rpm.value), i);
      ChoiceKeepsTest(Observed(Connected(c2, i), i, i.rpm.value), i, i.rpm.value);
    }
  }

  lemma {:induction false} ChoiceKeepsTest(c: Controller, i: Input, rpm: int)
    ensures Checked(Selected(c, i), i, rpm).c.manual.Some? ==> Checked(Selected(c, i), i, rpm).c.manual == c.manual
  {
    SelectedTest(c, i);
    CheckedTest(Selected(c, i), i, rpm);
  }

  lemma {:induction false} EarlierLease(start: Controller, inputs: seq<Input>, k: nat, duty: int, expiresAt: real)
    requires 0 < k < |inputs| && LeasedBy(start, inputs, k - 1, duty, expiresAt)
    ensures LeasedBy(start, inputs, k, duty, expiresAt)
  {
    var j :| 0 <= j <= k - 1 && Leases(After(start, inputs, j), inputs[j], duty, expiresAt);
    assert 0 <= j <= k;
  }

  predicate Calibrating(c: Controller, i: Input, duty: int, expiresAt: real) {
    && AfterCommand(c, i).manual.Some? && AfterCommand(c, i).manual.value.calibration
    && AfterCommand(c, i).manual.value.duty == duty && AfterCommand(c, i).manual.value.expiresAt == expiresAt
  }

  lemma {:induction false} LeasedNowOrBefore(
      c: Controller, i: Input, d: Controller, i2: Input, duty: int, expiresAt: real)
    requires d == Turned(c, i).c && Calibrating(d, i2, duty, expiresAt)
    ensures Leases(d, i2, duty, expiresAt) || Calibrating(c, i, duty, expiresAt)
  {
    TestAfterCommand(d, i2);
    if d.manual == AfterCommand(d, i2).manual {
      TestAfterTurn(c, i);
    }
  }

  lemma {:induction false} TestsAreLeased(start: Controller, inputs: seq<Input>, k: nat, duty: int, expiresAt: real)
    requires start.manual.None? && k < |inputs| && Calibrating(After(start, inputs, k), inputs[k], duty, expiresAt)
    ensures LeasedBy(start, inputs, k, duty, expiresAt)
  {
    if k == 0 {
      TestAfterCommand(start, inputs[0]);
      assert Leases(After(start, inputs, 0), inputs[0], duty, expiresAt);
    } else {
      LeasedNowOrBefore(After(start, inputs, k - 1), inputs[k - 1], After(start, inputs, k), inputs[k], duty,
                        expiresAt);
      if !Leases(After(start, inputs, k), inputs[k], duty, expiresAt) {
        TestsAreLeased(start, inputs, k - 1, duty, expiresAt);
        EarlierLease(start, inputs, k, duty, expiresAt);
      }
    }
  }

  /** No busy sample now, and 60 s since every one of a turn that discovered the hub. */
  predicate BusyEnded(start: Controller, inputs: seq<Input>, k: nat)
    requires k < |inputs|
  {
    && !SeesBusy(After(start, inputs, k), inputs[k])
    && forall j :: 0 <= j < k && SeesBusy(After(start, inputs, j), inputs[j]) ==> inputs[k].now >= inputs[j].now + 60.0
  }

  /** No successful reconnect write now, and 10 s since every one. */
  predicate ReconnectEnded(start: Controller, inputs: seq<Input>, k: nat)
    requires k < |inputs|
  {
    && !Reconnects(After(start, inputs, k), inputs[k])
    && forall j :: 0 <= j < k && Reconnects(After(start, inputs, j), inputs[j])
         ==> inputs[k].now >= inputs[j].now + 10.0
  }

  /**
   * Over any run with a nondecreasing clock, from a state without an active test: a speed below full is
   * sent only with valid telemetry, utilization below 10 and temperature below 70, at least 60 s after
   * every busy sample seen with the hub discovered and 10 s after every successful reconnect write, and
   * either under an unexpired lease for exactly that duty or in automatic mode with the curve's duty.
   */
  lemma {:induction false} LowSpeedIsSafe(start: Controller, inputs: seq<Input>, k: nat, w: Write)
    requires start.manual.None? && Nondecreasing(inputs) && k < |inputs|
    requires w in Turned(After(start, inputs, k), inputs[k]).writes && w.duty < 100
    ensures var i := inputs[k];
            && i.gpu.Some? && i.gpu.value.utilization < 10.0 && i.gpu.value.temperature < 70.0
            && BusyEnded(start, inputs, k) && ReconnectEnded(start, inputs, k)
            && ((exists expiresAt :: i.now < expiresAt && LeasedBy(start, inputs, k, w.duty, expiresAt))
                || (AfterCommand(After(start, inputs, k), i).automatic
                    && w.duty == TemperatureDuty(i.gpu.value.temperature)))
  {
    LowWrite(After(start, inputs, k), inputs[k], w);
    BusyIsOver(start, inputs, k, w);
    ReconnectIsOver(start, inputs, k, w);
    LowIsAllowed(start, inputs, k, w);
  }

  lemma {:induction false} BusyIsOver(start: Controller, inputs: seq<Input>, k: nat, w: Write)
    requires Nondecreasing(inputs) && k < |inputs|
    requires w in Turned(After(start, inputs, k), inputs[k]).writes && w.duty < 100
    ensures BusyEnded(start, inputs, k)
  {
    LowWrite(After(start, inputs, k), inputs[k], w);
    forall j | 0 <= j < k && SeesBusy(After(start, inputs, j), inputs[j])
      ensures inputs[k].now >= inputs[j].now + 60.0
    {
      BusyIsHeld(start, inputs, k, j);
    }
  }

  lemma {:induction false} ReconnectIsOver(start: Controller, inputs: seq<Input>, k: nat, w: Write)
    requires Nondecreasing(inputs) && k < |inputs|
    requires w in Turned(After(start, inputs, k), inputs[k]).writes && w.duty < 100
    ensures ReconnectEnded(start, inputs, k)
  {
    LowWrite(After(start, inputs, k), inputs[k], w);
    forall j | 0 <= j < k && Reconnects(After(start, inputs, j), inputs[j])
      ensures inputs[k].now >= inputs[j].now + 10.0
    {
      ReconnectIsHeld(start, inputs, k, j);
    }
  }

  /** A low write is under an unexpired lease for its duty, or follows the curve in automatic mode. */
  lemma {:induction false} LowIsAllowed(start: Controller, inputs: seq<Input>, k: nat, w: Write)
    requires start.manual.None? && k < |inputs|
    requires w in Turned(After(start, inputs, k), inputs[k]).writes && w.duty < 100
    ensures var i := inputs[k];
            || (exists expiresAt :: i.now < expiresAt && LeasedBy(start, inputs, k, w.duty, expiresAt))
            || (AfterCommand(After(start, inputs, k), i).automatic && i.gpu.Some?
                && w.duty == TemperatureDuty(i.gpu.value.temperature))
  {
    var c, i := After(start, inputs, k), inputs[k];
    LowWrite(c, i, w);
    CalibrationLadder(start, inputs, k);
    CommandKeepsLadder(c, i);
    var m := AfterCommand(c, i).manual;
    if m.Some? {
      TestsAreLeased(start, inputs, k, w.duty, m.value.expiresAt);
      assert i.now < m.value.expiresAt && LeasedBy(start, inputs, k, w.duty, m.value.expiresAt);
    }
  }

  /** The hub clamps every duty to 40..100; it never has to. */
  lemma {:induction false} DutiesInRange(start: Controller, inputs: seq<Input>, k: nat, w: Write)
    requires start.manual.None? && k < |inputs| && w in Turned(After(start, inputs, k), inputs[k]).writes
    ensures 40 <= w.duty <= 100
  {
    var c, i := After(start, inputs, k), inputs[k];
    CalibrationLadder(start, inputs, k);
    CommandKeepsLadder(c, i);
    if w.duty < 100 {
      LowWrite(c, i, w);
    } else if Drives(c, i) {
      ConnectedAndObserved(AfterCommand(c, i), i, i.rpm.value);
      ChoiceInRange(Observed(Connected(AfterCommand(c, i), i), i, i.rpm.value), i, i.rpm.value);
    }
  }

  lemma {:induction false} ChoiceInRange(c: Controller, i: Input, rpm: int)
    requires LadderInv(c)
    ensures Checked(Selected(c, i), i, rpm).duty <= 100
  {
  }

  // Coherence of what is reported, remembered and sent.

  /** A turn reported online remembers its target as sent less than 30 s ago. */
  lemma {:induction false} OnlineIsCurrent(c: Controller, i: Input)
    requires Turned(c, i).status.Some? && Turned(c, i).status.value.online
    ensures var d := Turned(c, i).c;
            && d.lastSentDuty == Some(Turned(c, i).status.value.targetPercent)
            && i.now - d.lastSentAt < COMMAND_HEARTBEAT_SECONDS
  {
  }

  /** The last write the hub accepted. */
  function LastAccepted(before: Option<Write>, writes: seq<Write>): Option<Write> {
    if writes == [] then before
    else if writes[|writes| - 1].ok then Some(writes[|writes| - 1])
    else LastAccepted(before, writes[..|writes| - 1])
  }

  /** The last write the hub accepted in the first k turns. */
  function Wire(start: Controller, inputs: seq<Input>, k: nat): Option<Write>
    requires k <= |inputs|
  {
    if k == 0 then None
    else LastAccepted(Wire(start, inputs, k - 1), Turned(After(start, inputs, k - 1), inputs[k - 1]).writes)
  }

  /** What is remembered as sent is the last accepted write, unless that one was forced by a turn that raised. */
  predicate Remembered(c: Controller, wire: Option<Write>) {
    c.lastSentDuty.Some? ==>
      && wire.Some?
      && if wire.value.cause.Forced? then wire.value.duty == 100
         else wire.value.duty == c.lastSentDuty.value && wire.value.at == c.lastSentAt
  }

  lemma {:induction false} TurnRemembers(c: Controller, i: Input, wire: Option<Write>)
    requires Remembered(c, wire)
    ensures Remembered(Turned(c, i).c, LastAccepted(wire, Turned(c, i).writes))
  {
    ConsumedHolds(Sampled(c, i), i);
    if Drives(c, i) {
      DrivenRemembers(AfterCommand(c, i), i, i.rpm.value, wire);
    } else {
      UndrivenRemembers(c, i, wire);
    }
  }

  lemma {:induction false} UndrivenRemembers(c: Controller, i: Input, wire: Option<Write>)
    requires !Drives(c, i) && Remembered(AfterCommand(c, i), wire)
    ensures Remembered(Turned(c, i).c, LastAccepted(wire, Turned(c, i).writes))
  {
    if CommandRaises(Sampled(c, i), i) && i.forceFound {
      assert Turned(c, i).writes == [Write(i.now, 100, Forced, i.forceOk)];
      OneOrTwo(wire, Write(i.now, 100, Forced, i.forceOk), Write(i.now, 100, Forced, i.forceOk));
    }
  }

  lemma {:induction false} DrivenRemembers(c: Controller, i: Input, rpm: int, wire: Option<Write>)
    requires Remembered(c, wire)
    ensures Remembered(Driven(c, i, rpm).c, LastAccepted(wire, Driven(c, i, rpm).writes))
  {
    var mid := LastAccepted(wire, ReconnectWrites(c, i));
    var ch := Chosen(c, i, rpm);
    var out := Commanding(ch, i);
    OneOrTwo(wire, Write(i.now, 100, Reconnect, i.reconnectOk), Write(i.now, 100, Fallback, i.fallbackOk));
    ChosenSent(c, i, rpm);
    assert Remembered(ch.c, mid);
    CommandingRemembers(ch, i, mid);
    AcceptedInOrder(wire, ReconnectWrites(c, i), out.writes);
  }

  lemma {:induction false} ChosenSent(c: Controller, i: Input, rpm: int)
    ensures Chosen(c, i, rpm).c.lastSentDuty == (if !c.hubOnline && i.reconnectOk then Some(100) else c.lastSentDuty)
    ensures Chosen(c, i, rpm).c.lastSentAt == (if !c.hubOnline && i.reconnectOk then i.now else c.lastSentAt)
  {
    ChoiceSetsHolds(Observed(Connected(c, i), i, rpm), i, rpm);
  }

  lemma {:induction false} OneOrTwo(wire: Option<Write>, v: Write, w: Write)
    ensures LastAccepted(wire, [v]) == if v.ok then Some(v) else wire
    ensures LastAccepted(wire, [v, w]) == if w.ok then Some(w) else if v.ok then Some(v) else wire
  {
    assert [v, w][..1] == [v] && [v][..0] == [];
  }

  lemma {:induction false} CommandingRemembers(ch: Choice, i: Input, wire: Option<Write>)
    requires Remembered(ch.c, wire)
    ensures Remembered(Commanding(ch, i).c, LastAccepted(wire, Commanding(ch, i).writes))
  {
    OneOrTwo(wire, Write(i.now, ch.duty, Commanded, i.writeOk), Write(i.now, 100, Fallback, i.fallbackOk));
  }

  lemma {:induction false} AcceptedInOrder(before: Option<Write>, a: seq<Write>, b: seq<Write>)
    ensures LastAccepted(before, a + b) == LastAccepted(LastAccepted(before, a), b)
  {
    if b == [] {
      assert a + b == a;
    } else {
      assert (a + b)[..|a + b| - 1] == a + b[..|b| - 1];
      AcceptedInOrder(before, a, b[..|b| - 1]);
    }
  }

  lemma {:induction false} RunRemembers(start: Controller, inputs: seq<Input>, k: nat)
    requires start.lastSentDuty.None? && k <= |inputs|
    ensures Remembered(After(start, inputs, k), Wire(start, inputs, k))
  {
    if k > 0 {
      RunRemembers(start, inputs, k - 1);
      TurnRemembers(After(start, inputs, k - 1), inputs[k - 1], Wire(start, inputs, k - 1));
    }
  }

  /**
   * What a turn reports against what the hub was last told: after a turn reported online the hub has
   * accepted a write, and the last one has the reported duty exactly when it was not forced by an earlier
   * turn that raised, or the report is full speed. Forced full speed is never remembered.
   */
  lemma {:induction false} ReportedIsSent(start: Controller, inputs: seq<Input>, k: nat)
    requires start.lastSentDuty.None? && k < |inputs|
    requires var s := Turned(After(start, inputs, k), inputs[k]).status; s.Some? && s.value.online
    ensures var target, wire := Turned(After(start, inputs, k), inputs[k]).status.value.targetPercent,
            Wire(start, inputs, k + 1);
            && wire.Some?
            && (wire.value.duty == target <==> !wire.value.cause.Forced? || target == 100)
            && (!wire.value.cause.Forced? ==> inputs[k].now - wire.value.at < 30.0)
  {
    RunRemembers(start, inputs, k + 1);
    OnlineIsCurrent(After(start, inputs, k), inputs[k]);
  }

  /** A cool idle GPU, a turning fan, every write accepted. */
  function Quiet(now: real, command: CommandFile): Input {
    Input(now, Some(Sample(40.0, 0.0)), command, _ => now, now, now, Some(900), true, now, true, true, true, true)
  }

  /** Automatic mode of a fresh controller. */
  function AutomaticStart(): Controller {
    Controller(map[], true, "", false, None, 0.0, 0.0, 0.0, None, [])
  }

  /** Connected, on the curve, nothing held, and this duty sent last. */
  predicate OnCurve(c: Controller, sent: int, at: real) {
    && c.hubOnline && c.automatic && c.manual.None? && c.busyUntil == 0.0 && c.reconnectUntil == 110.0
    && c.lastSentDuty == Some(sent) && c.lastSentAt == at && c.lastCommandId == ""
  }

  lemma {:induction false} FirstContact()
    ensures OnCurve(Turned(AutomaticStart(), Quiet(100.0, Nothing)).c, 100, 100.0)
  {
  }

  lemma {:induction false} CurveSent(c: Controller)
    requires OnCurve(c, 100, 100.0)
    ensures OnCurve(Turned(c, Quiet(110.0, Nothing)).c, 40, 110.0)
  {
  }

  lemma {:induction false} TurnRaises(c: Controller)
    requires OnCurve(c, 40, 110.0)
    ensures var out := Turned(c, Quiet(112.0, Command("a", Manual(None, NotFinite))));
            OnCurve(out.c.(lastCommandId := ""), 40, 110.0) && out.writes == [Write(112.0, 100, Forced, true)]
  {
  }

  lemma {:induction false} NothingToSend(c: Controller)
    requires OnCurve(c.(lastCommandId := ""), 40, 110.0)
    ensures var out := Turned(c, Quiet(114.0, Nothing));
            out.writes == [] && out.status == Some(Status(true, true, AutomaticCurve, 40))
  {
  }

  /**
   * It does happen: automatic mode sends 40, a command without a readable duty makes the next turn raise
   * and force full speed, and the turn after that is online with target 40 and sends nothing.
   */
  lemma {:induction false} ForcedIsForgotten()
    ensures var inputs := [Quiet(100.0, Nothing), Quiet(110.0, Nothing),
                           Quiet(112.0, Command("a", Manual(None, NotFinite))),
                           Quiet(114.0, Nothing)];
            && Turned(After(AutomaticStart(), inputs, 3), inputs[3]).status
              == Some(Status(true, true, AutomaticCurve, 40))
            && Wire(AutomaticStart(), inputs, 4) == Some(Write(112.0, 100, Forced, true))
  {
    var inputs := [Quiet(100.0, Nothing), Quiet(110.0, Nothing), Quiet(112.0, Command("a", Manual(None, NotFinite))),
                   Quiet(114.0, Nothing)];
    var c1, c2, c3 := After(AutomaticStart(), inputs, 1), After(AutomaticStart(), inputs, 2),
        After(AutomaticStart(), inputs, 3);
    assert c1 == Turned(After(AutomaticStart(), inputs, 0), inputs[0]).c;
    FirstContact();
    assert c2 == Turned(c1, inputs[1]).c;
    CurveSent(c1);
    assert c3 == Turned(c2, inputs[2]).c;
    TurnRaises(c2);
    NothingToSend(c3);
    var forced := Write(112.0, 100, Forced, true);
    OneOrTwo(Wire(AutomaticStart(), inputs, 2), forced, forced);
  }

  // Automatic mode.

  /** Automatic mode is on only with all four calibrations successful. */
  predicate AutomaticInv(c: Controller) {
    c.automatic ==> Calibrated(c.calibration)
  }

  /** The guards under which choosing a duty records a running calibration as failed. */
  predicate EndsFailed(c: Controller, i: Input, rpm: int) {
    && c.manual.Some? && c.manual.value.calibration
    && (|| FailsTest(c, i)
        || (Stalled(c, i, rpm) && c.manual.value.duty < 100 && !(Undisturbed(c, i) && RanOut(c.manual.value, i))))
  }

  predicate FailsTest(c: Controller, i: Input)
    requires c.manual.Some?
  {
    || Interrupted(c.manual.value, i)
    || (Undisturbed(c, i) && (HeatedUp(c.manual.value, i) || RanWithoutRpm(c.manual.value, i)))
  }

  /** A busy or hot GPU, for a test below full speed. */
  predicate Interrupted(m: ManualTest, i: Input) {
    i.gpu.Some? && (i.gpu.value.utilization >= BUSY_THRESHOLD_PERCENT || i.gpu.value.temperature >= 70.0)
        && m.duty < 100
  }

  /** Nothing keeps the duty at full speed before the test is looked at. */
  predicate Undisturbed(c: Controller, i: Input) {
    && i.gpu.Some? && i.gpu.value.utilization < BUSY_THRESHOLD_PERCENT && i.gpu.value.temperature < 70.0
    && i.now >= c.busyUntil && i.now >= c.reconnectUntil
  }

  /** Five degrees above the start, below full speed. */
  predicate HeatedUp(m: ManualTest, i: Input)
    requires i.gpu.Some?
  {
    m.duty < 100 && m.startTemperature.Some? && i.gpu.value.temperature >= m.startTemperature.value + 5.0
  }

  predicate RanOut(m: ManualTest, i: Input)
    requires i.gpu.Some?
  {
    !HeatedUp(m, i) && i.now >= m.expiresAt
  }

  /** The time is up and no RPM was seen. */
  predicate RanWithoutRpm(m: ManualTest, i: Input)
    requires i.gpu.Some?
  {
    RanOut(m, i) && (m.minRpm.None? || m.minRpm.value == 0)
  }

  /** The fan stands still long enough after a write. */
  predicate Stalled(c: Controller, i: Input, rpm: int) {
    rpm <= 0 && c.lastSentAt != 0.0 && i.now - c.lastSentAt >= RPM_SETTLE_SECONDS
  }

  lemma {:induction false} ChoiceKeepsCalibratedIff(c: Controller, i: Input, rpm: int)
    requires LadderInv(c) && Calibrated(c.calibration)
    ensures Calibrated(Checked(Selected(c, i), i, rpm).c.calibration) <==> !EndsFailed(c, i, rpm)
    ensures Checked(Selected(c, i), i, rpm).c.automatic == c.automatic
  {
    SelectedTest(c, i);
    CheckedTest(Selected(c, i), i, rpm);
    SelectedCalibratedIff(c, i);
    CheckedCalibratedIff(Selected(c, i), i, rpm);
    if c.manual.Some? {
      SelectedEndsIff(c, i);
    }
  }

  lemma {:induction false} SelectedEndsIff(c: Controller, i: Input)
    requires c.manual.Some?
    ensures Selected(c, i).c.manual.None? <==> FailsTest(c, i) || (Undisturbed(c, i) && RanOut(c.manual.value, i))
  {
  }

  lemma {:induction false} SelectedCalibratedIff(c: Controller, i: Input)
    requires LadderInv(c) && Calibrated(c.calibration)
    ensures Calibrated(Selected(c, i).c.calibration)
       <==> !(c.manual.Some? && c.manual.value.calibration && FailsTest(c, i))
  {
    if c.manual.Some? && c.manual.value.calibration {
      RecordedOutcome(c, true);
      RecordedOutcome(c, false);
    }
  }

  lemma {:induction false} CheckedCalibratedIff(ch: Choice, i: Input, rpm: int)
    requires LadderInv(ch.c)
    ensures Checked(ch, i, rpm).c.lastSentAt == ch.c.lastSentAt
    ensures Calibrated(Checked(ch, i, rpm).c.calibration)
       <==> Calibrated(ch.c.calibration)
            && !(Stalled(ch.c, i, rpm) && ch.c.manual.Some? && ch.c.manual.value.calibration
                 && ch.c.manual.value.duty < 100)
  {
    var c := ch.c;
    if c.manual.Some? && c.manual.value.calibration {
      assert !Succeeded(Finished(c, false).calibration, c.manual.value.duty);
    }
  }

  /** In a fully calibrated controller, recording a success changes nothing and recording a failure shows. */
  lemma {:induction false} RecordedOutcome(c: Controller, success: bool)
    requires c.manual.Some? && c.manual.value.calibration && c.manual.value.duty in CALIBRATION_ORDER
    requires Calibrated(c.calibration)
    ensures Calibrated(Finished(c, success).calibration) <==> success
  {
    assert Succeeded(Finished(c, success).calibration, c.manual.value.duty) <==> success;
  }

  /** The controller when this turn's duty is chosen. */
  function Choosing(c: Controller, i: Input): Controller
    requires i.rpm.Some?
  {
    Observed(Connected(AfterCommand(c, i), i), i, i.rpm.value)
  }

  /** A running calibration ends as failed in this turn while automatic mode is on. */
  predicate FailsUnderAutomatic(c: Controller, i: Input) {
    Drives(c, i) && AfterCommand(c, i).automatic && EndsFailed(Choosing(c, i), i, i.rpm.value)
  }

  lemma {:induction false} CommandKeepsAutomatic(c: Controller, i: Input)
    requires AutomaticInv(c)
    ensures AutomaticInv(AfterCommand(c, i))
  {
  }

  lemma {:induction false} CommandingKeepsAutomatic(ch: Choice, i: Input)
    ensures Commanding(ch, i).c.automatic == ch.c.automatic && Commanding(ch, i).c.calibration == ch.c.calibration
  {
  }

  lemma {:induction false} ConnectedKeepsLadder(c: Controller, i: Input, rpm: int)
    requires LadderInv(c)
    ensures LadderInv(Observed(Connected(c, i), i, rpm))
  {
    ConnectedAndObserved(c, i, rpm);
  }

  /**
   * Enabling automatic mode needs all four calibrations, and a turn keeps them behind it exactly unless a
   * running calibration ends as failed while automatic mode is on.
   */
  lemma {:induction false} AutomaticStaysCalibratedIff(c: Controller, i: Input)
    requires LadderInv(c) && AutomaticInv(c)
    ensures AutomaticInv(Turned(c, i).c) <==> !FailsUnderAutomatic(c, i)
  {
    CommandKeepsAutomatic(c, i);
    if Drives(c, i) {
      var d := Choosing(c, i);
      CommandKeepsLadder(c, i);
      ConnectedKeepsLadder(AfterCommand(c, i), i, i.rpm.value);
      ConnectedAndObserved(AfterCommand(c, i), i, i.rpm.value);
      CommandingKeepsAutomatic(Chosen(AfterCommand(c, i), i, i.rpm.value), i);
      DrivenEnds(c, i);
      if d.automatic {
        ChoiceKeepsCalibratedIff(d, i, i.rpm.value);
      } else {
        ChoiceKeepsMode(d, i, i.rpm.value);
      }
    } else {
      UndrivenKeepsAutomatic(c, i);
    }
  }

  lemma {:induction false} ChoiceKeepsMode(c: Controller, i: Input, rpm: int)
    ensures Checked(Selected(c, i), i, rpm).c.automatic == c.automatic
  {
    SelectedTest(c, i);
    CheckedTest(Selected(c, i), i, rpm);
  }

  lemma {:induction false} UndrivenKeepsAutomatic(c: Controller, i: Input)
    requires !Drives(c, i)
    ensures Turned(c, i).c.automatic == AfterCommand(c, i).automatic
            && Turned(c, i).c.calibration == AfterCommand(c, i).calibration
  {
  }

  predicate AlwaysCalibrated(start: Controller, inputs: seq<Input>, k: nat)
    requires k <= |inputs|
  {
    AutomaticInv(After(start, inputs, k)) && (k > 0 ==> AlwaysCalibrated(start, inputs, k - 1))
  }

  predicate NeverFailsUnderAutomatic(start: Controller, inputs: seq<Input>, k: nat)
    requires k <= |inputs|
  {
    k > 0 ==>
      && NeverFailsUnderAutomatic(start, inputs, k - 1)
      && !FailsUnderAutomatic(After(start, inputs, k - 1), inputs[k - 1])
  }

  /** Over a run, automatic mode has all calibrations behind it throughout exactly when none failed under it. */
  lemma {:induction false} AutomaticRunIff(start: Controller, inputs: seq<Input>, k: nat)
    requires start.manual.None? && AutomaticInv(start) && k <= |inputs|
    ensures AlwaysCalibrated(start, inputs, k) <==> NeverFailsUnderAutomatic(start, inputs, k)
  {
    if k > 0 {
      AutomaticRunIff(start, inputs, k - 1);
      CalibrationLadder(start, inputs, k - 1);
      if AutomaticInv(After(start, inputs, k - 1)) {
        AutomaticStaysCalibratedIff(After(start, inputs, k - 1), inputs[k - 1]);
      }
    }
  }

  /** A saved state with everything calibrated and automatic mode on, and two turns of a fan that reports no RPM. */
  function CalibratedStart(): Controller {
    Controller(map[100 := true, 70 := true, 50 := true, 40 := true], true, "", false, None, 0.0, 0.0, 0.0, None, [])
  }

  function NoRpm(now: real, command: CommandFile): Input {
    Quiet(now, command).(rpm := Some(0))
  }

  /** A full-speed calibration running until 120 with no RPM seen, in automatic mode. */
  predicate Calibrating100(c: Controller) {
    && c.automatic && c.manual.Some? && c.manual.value.calibration && c.manual.value.duty == 100
    && c.manual.value.expiresAt == 120.0 && c.manual.value.minRpm.None?
  }

  function Repeat(): Input {
    NoRpm(100.0, Command("a", Manual(Some(100), Finite(20.0))))
  }

  lemma {:induction false} RepeatIsAdmitted()
    ensures var c := AfterCommand(CalibratedStart(), Repeat());
            && Calibrating100(c) && c.manual.value.commandedAt.None? && c.busyUntil == 0.0 && !c.hubOnline
            && Drives(CalibratedStart(), Repeat())
  {
  }

  lemma {:induction false} ReconnectHolds(c: Controller)
    requires Calibrating100(c) && c.manual.value.commandedAt.None? && c.busyUntil == 0.0 && !c.hubOnline
    ensures var d := Driven(c, Repeat(), 0).c;
            Calibrating100(d) && d.busyUntil == 0.0 && d.reconnectUntil == 110.0 && d.hubOnline
  {
  }

  lemma {:induction false} TimeIsUp(c: Controller)
    requires Calibrating100(c) && c.busyUntil == 0.0 && c.reconnectUntil == 110.0 && c.hubOnline
    ensures var d := Turned(c, NoRpm(121.0, Nothing)).c; d.automatic && !Succeeded(d.calibration, 100)
  {
  }

  /**
   * It does happen: a calibrated controller in automatic mode repeats the full-speed calibration, the fan
   * reports no RPM until the time is up, and automatic mode stays on with that calibration failed.
   */
  lemma {:induction false} AutomaticOutlivesFailure()
    ensures var inputs := [Repeat(), NoRpm(121.0, Nothing)];
            var last := After(CalibratedStart(), inputs, 2);
            AutomaticInv(CalibratedStart()) && last.automatic && !Calibrated(last.calibration)
  {
    var inputs := [Repeat(), NoRpm(121.0, Nothing)];
    RepeatIsAdmitted();
    ReconnectHolds(AfterCommand(CalibratedStart(), Repeat()));
    var c1 := Turned(CalibratedStart(), Repeat()).c;
    TimeIsUp(c1);
    TwoTurns(CalibratedStart(), inputs);
    assert !Succeeded(After(CalibratedStart(), inputs, 2).calibration, 100);
  }

  lemma {:induction false} TwoTurns(start: Controller, inputs: seq<Input>)
    requires |inputs| == 2
    ensures After(start, inputs, 2) == Turned(Turned(start, inputs[0]).c, inputs[1]).c
  {
    assert After(start, inputs, 0) == start;
    assert After(start, inputs, 1) == Turned(start, inputs[0]).c;
  }
}
