/**
 * Automatic hashboard recovery (pocisys-hash-monitor/services/luxos_control.py). A snapshot's loop gives
 * up control at every alert and command, so its sections between those points are separate steps here.
 */
module Recovery {
  import opened Common

  const HEALTH_INTERVAL_SECONDS: real := 60.0
  const AUTO_RECOVERY_WARMUP_SECONDS: real := 300.0
  const AUTO_RECOVERY_CONFIRMATIONS: nat := 3
  const AUTO_RECOVERY_RESTART_COOLDOWN_SECONDS: real := 21600.0
  const AUTO_RECOVERY_POST_RESTART_SECONDS: real := 600.0
  const PROFILE_CHANGE_OBSERVATION_SECONDS: real := 600.0

  datatype BoardStatus = Healthy | Warning | Unhealthy | Unknown

  predicate IsBad(s: BoardStatus) {
    s.Warning? || s.Unhealthy?
  }

  // The curtailment window.

  /** _low_window, on minutes of the day. */
  predicate LowWindow(start: int, end: int, current: int) {
    if start == end then false
    else if start < end then start <= current < end
    else current >= start || current < end
  }

  /** On a 24-hour clock the window is the time from start, going round, until end. */
  lemma {:induction false} LowWindowGoesRound(start: int, end: int, current: int)
    requires 0 <= start < 1440 && 0 <= end < 1440 && 0 <= current < 1440
    ensures LowWindow(start, end, current) <==> (current - start) % 1440 < (end - start) % 1440
  {
    RoundTheClock(current - start);
    RoundTheClock(end - start);
  }

  lemma {:induction false} RoundTheClock(d: int)
    requires -1440 < d < 1440
    ensures d % 1440 == if d < 0 then d + 1440 else d
  {
  }

  /** What makes recovery active when a snapshot starts. */
  predicate RecoveryActive(globalEnabled: bool, armed: bool, now: real, suppressedUntil: real,
                           scheduled: bool, low: bool) {
    globalEnabled && armed && now >= suppressedUntil && !(scheduled && low)
  }

  // One board.

  datatype Board = Board(bad: nat, lastAttempt: Option<real>, suppressUntil: real, observeUntil: Option<real>)

  const NEW: Board := Board(0, None, 0.0, None)

  /** May an attempt be made, given the confirmations counted so far? */
  predicate MayAttempt(b: Board, bad: nat, now: real, active: bool, uptime: real) {
    && active && bad >= AUTO_RECOVERY_CONFIRMATIONS && uptime >= AUTO_RECOVERY_WARMUP_SECONDS
    && now >= b.suppressUntil
    && now - (if b.lastAttempt.Some? then b.lastAttempt.value else -AUTO_RECOVERY_RESTART_COOLDOWN_SECONDS)
       >= AUTO_RECOVERY_RESTART_COOLDOWN_SECONDS
  }

  function NextCount(b: Board, status: BoardStatus, active: bool): nat {
    if IsBad(status) && active then b.bad + 1 else 0
  }

  predicate Attempts(b: Board, status: BoardStatus, now: real, active: bool, uptime: real) {
    b.observeUntil.None? && MayAttempt(b, NextCount(b, status, active), now, active, uptime)
  }

  /** Is the incident over, once the completion alert is out? */
  predicate Completes(b: Board, status: BoardStatus, now: real) {
    b.observeUntil.Some? && now >= b.observeUntil.value && !status.Unknown?
  }

  /** A board's turn in the snapshot loop, up to the point where an alert or a restart would be sent. */
  function Observed(b: Board, status: BoardStatus, now: real, active: bool, uptime: real): Board {
    if b.observeUntil.Some? then b.(bad := 0)
    else
      var counted := b.(bad := NextCount(b, status, active));
      if Attempts(b, status, now, active, uptime) then counted.(lastAttempt := Some(now)) else counted
  }

  function Restarted(b: Board, now: real): Board {
    var until := now + AUTO_RECOVERY_POST_RESTART_SECONDS;
    b.(bad := 0, suppressUntil := until, observeUntil := Some(until))
  }

  function RestartFailed(b: Board, now: real): Board {
    b.(suppressUntil := now + HEALTH_INTERVAL_SECONDS)
  }

  /** execute, after a restart_board or board_on command went through. */
  function Commanded(b: Board, clock: real): Board {
    b.(bad := 0, suppressUntil := clock + AUTO_RECOVERY_POST_RESTART_SECONDS)
  }

  datatype Key = Key(miner: string, board: nat)

  function Kept<V>(m: map<Key, V>, valid: set<string>): (r: map<Key, V>)
    ensures forall key :: key in r <==> key in m && key.miner in valid
    ensures forall key :: key in r ==> r[key] == m[key]
  {
    map key | key in m && key.miner in valid :: m[key]
  }

  class LuxOSControlService {
    const startedAt: real
    var badConfirmations: map<Key, nat>
    var lastAutoAttempt: map<Key, real>
    var autoSuppressUntil: map<Key, real>
    var recoveryIncidents: map<Key, real>
    var profileSuppressUntil: map<string, real>

    function Now(key: Key): Board
      reads this
    {
      Board(if key in badConfirmations then badConfirmations[key] else 0,
            if key in lastAutoAttempt then Some(lastAutoAttempt[key]) else None,
            if key in autoSuppressUntil then autoSuppressUntil[key] else 0.0,
            if key in recoveryIncidents then Some(recoveryIncidents[key]) else None)
    }

    function SuppressedUntil(miner: string): real
      reads this
    {
      if miner in profileSuppressUntil then profileSuppressUntil[miner] else 0.0
    }

    constructor (clock: real)
      ensures startedAt == clock && forall miner :: SuppressedUntil(miner) == 0.0
      ensures forall key :: Now(key) == NEW
    {
      startedAt := clock;
      badConfirmations, lastAutoAttempt, autoSuppressUntil, recoveryIncidents := map[], map[], map[], map[];
      profileSuppressUntil := map[];
    }

    /** The start of _process_auto_recovery. */
    method StartSnapshot(miner: string, globalEnabled: bool, armed: bool, scheduled: bool, low: bool, now: real)
      returns (active: bool)
      ensures active == RecoveryActive(globalEnabled, armed, now, SuppressedUntil(miner), scheduled, low)
    {
      var observingProfileChange := now < SuppressedUntil(miner);
      active := globalEnabled && armed && !observingProfileChange && !(scheduled && low);
    }

    /** The loop body of _process_auto_recovery, until the completion alert or until the attempt is counted. */
    method ObserveBoard(key: Key, status: BoardStatus, now: real, active: bool, clock: real)
      returns (attempt: bool, complete: bool)
      modifies this
      ensures Now(key) == Observed(old(Now(key)), status, now, active, clock - startedAt)
      ensures (forall k :: k != key ==> Now(k) == old(Now(k))) && profileSuppressUntil == old(profileSuppressUntil)
      ensures attempt == Attempts(old(Now(key)), status, now, active, clock - startedAt)
      ensures complete == Completes(old(Now(key)), status, now)
    {
      if key in recoveryIncidents {
        badConfirmations := badConfirmations[key := 0];
        if now < recoveryIncidents[key] || status.Unknown? {
          return false, false;
        }
        return false, true;
      }
      var count := if key in badConfirmations then badConfirmations[key] else 0;
      if IsBad(status) && active {
        count := count + 1;
      } else {
        count := 0;
      }
      badConfirmations := badConfirmations[key := count];
      if !(active && count >= AUTO_RECOVERY_CONFIRMATIONS && clock - startedAt >= AUTO_RECOVERY_WARMUP_SECONDS) {
        return false, false;
      }
      if now < (if key in autoSuppressUntil then autoSuppressUntil[key] else 0.0) {
        return false, false;
      }
      var last := if key in lastAutoAttempt then lastAutoAttempt[key] else -AUTO_RECOVERY_RESTART_COOLDOWN_SECONDS;
      if now - last < AUTO_RECOVERY_RESTART_COOLDOWN_SECONDS {
        return false, false;
      }
      lastAutoAttempt := lastAutoAttempt[key := now];
      return true, false;
    }

    /** The loop body after the completion alert. */
    method CompleteIncident(key: Key)
      modifies `recoveryIncidents
      ensures Now(key) == old(Now(key)).(observeUntil := None)
      ensures forall k :: k != key ==> Now(k) == old(Now(k))
    {
      recoveryIncidents := recoveryIncidents - {key};
    }

    /** The loop body after the restart command returned, or raised. */
    method FinishAttempt(key: Key, now: real, ok: bool)
      modifies this
      ensures Now(key) == (if ok then Restarted(old(Now(key)), now) else RestartFailed(old(Now(key)), now))
      ensures (forall k :: k != key ==> Now(k) == old(Now(k))) && profileSuppressUntil == old(profileSuppressUntil)
    {
      if ok {
        autoSuppressUntil := autoSuppressUntil[key := now + AUTO_RECOVERY_POST_RESTART_SECONDS];
        recoveryIncidents := recoveryIncidents[key := now + AUTO_RECOVERY_POST_RESTART_SECONDS];
        badConfirmations := badConfirmations[key := 0];
      } else {
        autoSuppressUntil := autoSuppressUntil[key := now + HEALTH_INTERVAL_SECONDS];
      }
    }

    /** The bookkeeping of execute for restart_board and board_on. */
    method NoteCommand(key: Key, clock: real)
      modifies this
      ensures Now(key) == Commanded(old(Now(key)), clock)
      ensures (forall k :: k != key ==> Now(k) == old(Now(k))) && profileSuppressUntil == old(profileSuppressUntil)
    {
      autoSuppressUntil := autoSuppressUntil[key := clock + AUTO_RECOVERY_POST_RESTART_SECONDS];
      badConfirmations := badConfirmations[key := 0];
    }

    /** The end of _process_auto_recovery: boards the snapshot did not list lose their count. */
    method ForgetMissing(miner: string, seen: set<Key>)
      modifies `badConfirmations
      ensures forall key: Key :: key.miner == miner && key !in seen ==> Now(key) == old(Now(key)).(bad := 0)
      ensures forall key: Key :: !(key.miner == miner && key !in seen) ==> Now(key) == old(Now(key))
    {
      badConfirmations := map key
        | key in badConfirmations && !(key.miner == miner && key !in seen)
        :: badConfirmations[key];
    }

    /** _observe_after_profile_change. */
    method ObserveAfterProfileChange(miner: string, clock: real)
      modifies `badConfirmations, `profileSuppressUntil
      ensures forall key :: Now(key) == if key.miner == miner then old(Now(key)).(bad := 0) else old(Now(key))
      ensures SuppressedUntil(miner) == clock + PROFILE_CHANGE_OBSERVATION_SECONDS
      ensures forall m :: m != miner ==> SuppressedUntil(m) == old(SuppressedUntil(m))
    {
      profileSuppressUntil := profileSuppressUntil[miner := clock + PROFILE_CHANGE_OBSERVATION_SECONDS];
      badConfirmations := map key | key in badConfirmations
        :: if key.miner == miner then 0 else badConfirmations[key];
    }

    /** reconfigure: miners no longer configured are forgotten. */
    method Reconfigure(valid: set<string>)
      modifies this
      ensures forall key :: Now(key) == if key.miner in valid then old(Now(key)) else NEW
      ensures forall m :: SuppressedUntil(m) == if m in valid then old(SuppressedUntil(m)) else 0.0
    {
      badConfirmations := Kept(badConfirmations, valid);
      lastAutoAttempt := Kept(lastAutoAttempt, valid);
      autoSuppressUntil := Kept(autoSuppressUntil, valid);
      recoveryIncidents := Kept(recoveryIncidents, valid);
      profileSuppressUntil := map m | m in profileSuppressUntil && m in valid :: profileSuppressUntil[m];
    }
  }

  // What happens to one board, in any order.

  datatype Snapshot = Snapshot(now: real, active: bool)

  /** One board with its miner's profile suppression and the snapshots that have begun. */
  datatype Run = Run(board: Board, suppressedUntil: real, snapshots: seq<Snapshot>)

  const BEGIN := Run(NEW, 0.0, [])

  datatype Event =
    | Start(now: real, globalEnabled: bool, armed: bool, scheduled: bool, low: bool)
    | Observe(snapshot: nat, status: BoardStatus, uptime: real)
    | Complete
    | Finish(snapshot: nat, ok: bool)
    | Command(clock: real)
    | ProfileChange(clock: real)
    | Missing
    | Dropped

  function Step(r: Run, e: Event): Run {
    match e
    case Start(now, globalEnabled, armed, scheduled, low) =>
      var active := RecoveryActive(globalEnabled, armed, now, r.suppressedUntil, scheduled, low);
      r.(snapshots := r.snapshots + [Snapshot(now, active)])
    case Observe(i, status, uptime) =>
      if i >= |r.snapshots| then r
      else r.(board := Observed(r.board, status, r.snapshots[i].now, r.snapshots[i].active, uptime))
    case Complete => r.(board := r.board.(observeUntil := None))
    case Finish(i, ok) =>
      if i >= |r.snapshots| then r
      else if ok then r.(board := Restarted(r.board, r.snapshots[i].now))
      else r.(board := RestartFailed(r.board, r.snapshots[i].now))
    case Command(clock) => r.(board := Commanded(r.board, clock))
    case ProfileChange(clock) =>
      r.(board := r.board.(bad := 0), suppressedUntil := clock + PROFILE_CHANGE_OBSERVATION_SECONDS)
    case Missing => r.(board := r.board.(bad := 0))
    case Dropped => r.(board := NEW, suppressedUntil := 0.0)
  }

  function After(events: seq<Event>): Run {
    if events == [] then BEGIN else Step(After(events[..|events| - 1]), events[|events| - 1])
  }

  predicate StepAttempts(r: Run, e: Event) {
    && e.Observe? && e.snapshot < |r.snapshots|
    && Attempts(r.board, e.status, r.snapshots[e.snapshot].now, r.snapshots[e.snapshot].active, e.uptime)
  }

  predicate AttemptAt(events: seq<Event>, k: nat)
    requires k < |events|
  {
    StepAttempts(After(events[..k]), events[k])
  }

  /** When the snapshot began that makes the attempt; the attempt is dated by it. */
  function AttemptTime(events: seq<Event>, k: nat): real
    requires k < |events| && AttemptAt(events, k)
  {
    After(events[..k]).snapshots[events[k].snapshot].now
  }

  lemma {:induction false} StepAt(events: seq<Event>, k: nat)
    requires k < |events|
    ensures After(events[..k + 1]) == Step(After(events[..k]), events[k])
  {
    assert events[..k + 1][..k] == events[..k];
  }

  lemma {:induction false} AttemptIsDated(r: Run, e: Event)
    requires StepAttempts(r, e)
    ensures Step(r, e).board.lastAttempt == Some(r.snapshots[e.snapshot].now)
  {
  }

  lemma {:induction false} LastOnlyGrows(r: Run, e: Event, bound: real)
    requires !e.Dropped? && r.board.lastAttempt.Some? && r.board.lastAttempt.value >= bound
    ensures Step(r, e).board.lastAttempt.Some? && Step(r, e).board.lastAttempt.value >= bound
  {
  }

  lemma {:induction false} AttemptIsRemembered(events: seq<Event>, i: nat, k: nat)
    requires i < k <= |events| && AttemptAt(events, i)
    requires forall n :: i < n < k ==> !events[n].Dropped?
    ensures var last := After(events[..k]).board.lastAttempt; last.Some? && last.value >= AttemptTime(events, i)
  {
    StepAt(events, k - 1);
    if i < k - 1 {
      AttemptIsRemembered(events, i, k - 1);
      LastOnlyGrows(After(events[..k - 1]), events[k - 1], AttemptTime(events, i));
    } else {
      AttemptIsDated(After(events[..i]), events[i]);
    }
  }

  /**
   * While its miner stays configured, two automatic attempts on one board are at least six hours apart,
   * whatever else happens in between and in whatever order the steps interleave.
   */
  lemma {:induction false} SixHoursApart(events: seq<Event>, i: nat, j: nat)
    requires i < j < |events| && AttemptAt(events, i) && AttemptAt(events, j)
    requires forall n :: i < n < j ==> !events[n].Dropped?
    ensures AttemptTime(events, j) - AttemptTime(events, i) >= 6.0 * 60.0 * 60.0
  {
    AttemptIsRemembered(events, i, j);
  }

  // What an active snapshot means.

  /** The miner's latest profile change before event s, with the miner configured ever since. */
  predicate LatestChange(events: seq<Event>, p: nat, s: nat) {
    && p < s <= |events| && events[p].ProfileChange?
    && forall n :: p < n < s ==> !events[n].ProfileChange? && !events[n].Dropped?
  }

  lemma {:induction false} SuppressedSince(events: seq<Event>, p: nat, s: nat)
    requires LatestChange(events, p, s)
    ensures After(events[..s]).suppressedUntil == events[p].clock + 600.0
  {
    StepAt(events, s - 1);
    if p < s - 1 {
      SuppressedSince(events, p, s - 1);
    }
  }

  /**
   * An event that begins a snapshot at this time with recovery switched on for the miner, outside its
   * curtailment window, and not within ten minutes of its latest profile change.
   */
  predicate ArmedStart(events: seq<Event>, s: nat, now: real) {
    && s < |events| && events[s].Start? && events[s].now == now
    && events[s].globalEnabled && events[s].armed && !(events[s].scheduled && events[s].low)
    && forall p :: 0 <= p < s && LatestChange(events, p, s) ==> now >= events[p].clock + 600.0
  }

  lemma {:induction false} StartsAreAppended(r: Run, e: Event)
    ensures r.snapshots <= Step(r, e).snapshots
    ensures |Step(r, e).snapshots| == |r.snapshots| + if e.Start? then 1 else 0
    ensures e.Start? ==> var last := Step(r, e).snapshots[|r.snapshots|];
                         last.now == e.now
                         && last.active == RecoveryActive(e.globalEnabled, e.armed, e.now, r.suppressedUntil,
                                                          e.scheduled, e.low)
  {
  }

  lemma {:induction false} BeginsArmed(events: seq<Event>, s: nat)
    requires s < |events|
    requires var e := events[s];
             e.Start? && RecoveryActive(e.globalEnabled, e.armed, e.now, After(events[..s]).suppressedUntil,
                                        e.scheduled, e.low)
    ensures ArmedStart(events, s, events[s].now)
  {
    forall p | 0 <= p < s && LatestChange(events, p, s) ensures events[s].now >= events[p].clock + 600.0 {
      SuppressedSince(events, p, s);
    }
  }

  /** Every active snapshot of a run began armed. */
  lemma {:induction false} ActiveIsArmed(events: seq<Event>, k: nat, i: nat) returns (s: nat)
    requires k <= |events| && i < |After(events[..k]).snapshots| && After(events[..k]).snapshots[i].active
    ensures s < k && ArmedStart(events, s, After(events[..k]).snapshots[i].now)
    decreases k
  {
    StepAt(events, k - 1);
    StartsAreAppended(After(events[..k - 1]), events[k - 1]);
    if i < |After(events[..k - 1]).snapshots| {
      s := ActiveIsArmed(events, k - 1, i);
    } else {
      s := k - 1;
      BeginsArmed(events, s);
    }
  }

  /**
   * Every automatic attempt belongs to a snapshot that began with recovery enabled and armed, outside the
   * curtailment window and at least ten minutes after the miner's latest profile change.
   */
  lemma {:induction false} AttemptIsArmed(events: seq<Event>, k: nat) returns (s: nat)
    requires k < |events| && AttemptAt(events, k)
    ensures s < k && ArmedStart(events, s, AttemptTime(events, k))
  {
    s := ActiveIsArmed(events, k, events[k].snapshot);
  }

  // What a count means.

  predicate BadAndActive(r: Run, e: Event) {
    e.Observe? && IsBad(e.status) && e.snapshot < |r.snapshots| && r.snapshots[e.snapshot].active
  }

  /** Events that leave the count alone: beginnings, completions, failed restarts. */
  predicate Neutral(r: Run, e: Event) {
    || e.Start? || e.Complete? || (e.Finish? && !e.ok)
    || ((e.Observe? || e.Finish?) && e.snapshot >= |r.snapshots|)
  }

  /**
   * Bad observations with recovery active in a row, up to the last; any other observation, a snapshot
   * without the board, a restart, a command or a profile change starts over.
   */
  function Streak(events: seq<Event>): nat {
    if events == [] then 0
    else
      var before := events[..|events| - 1];
      NextStreak(After(before), events[|events| - 1], Streak(before))
  }

  function NextStreak(r: Run, e: Event, streak: nat): nat {
    if BadAndActive(r, e) then streak + 1 else if Neutral(r, e) then streak else 0
  }

  predicate NoneRestarted(events: seq<Event>) {
    forall k :: 0 <= k < |events| ==> !(events[k].Finish? && events[k].ok)
  }

  lemma {:induction false} CountIsStreak(events: seq<Event>)
    ensures After(events).board.bad <= Streak(events)
    ensures NoneRestarted(events) ==> After(events).board.bad == Streak(events)
  {
    if events != [] {
      var before := events[..|events| - 1];
      CountIsStreak(before);
      CountInStep(After(before), events[|events| - 1], Streak(before));
      if NoneRestarted(events) {
        assert forall k :: 0 <= k < |before| ==> before[k] == events[k];
        NoIncident(before);
      }
    }
  }

  /** One step keeps the count below the streak, and equal to it unless an incident hides observations. */
  lemma {:induction false} CountInStep(r: Run, e: Event, streak: nat)
    requires r.board.bad <= streak
    ensures Step(r, e).board.bad <= NextStreak(r, e, streak)
    ensures r.board.observeUntil.None? && !(e.Finish? && e.ok) && r.board.bad == streak
        ==> Step(r, e).board.bad == NextStreak(r, e, streak)
  {
  }

  lemma {:induction false} NoIncident(events: seq<Event>)
    requires NoneRestarted(events)
    ensures After(events).board.observeUntil.None?
  {
    if events != [] {
      NoIncident(events[..|events| - 1]);
    }
  }

  /**
   * Every automatic attempt completes three bad observations in a row, each with recovery active and with
   * no restart, command or profile change among them, after the warm-up.
   */
  lemma {:induction false} AttemptNeedsThree(events: seq<Event>, k: nat)
    requires k < |events| && AttemptAt(events, k)
    ensures Streak(events[..k + 1]) >= 3 && BadAndActive(After(events[..k]), events[k]) && events[k].uptime >= 300.0
  {
    CountIsStreak(events[..k]);
    assert events[..k + 1][..k] == events[..k];
  }

  predicate BadAndActiveAt(events: seq<Event>, k: nat)
    requires k < |events|
  {
    BadAndActive(After(events[..k]), events[k])
  }

  predicate NeutralAt(events: seq<Event>, k: nat)
    requires k < |events|
  {
    Neutral(After(events[..k]), events[k])
  }

  lemma {:induction false} SameBefore(events: seq<Event>, n: nat, k: nat)
    requires k < n <= |events|
    ensures BadAndActiveAt(events[..n], k) == BadAndActiveAt(events, k)
    ensures NeutralAt(events[..n], k) == NeutralAt(events, k)
  {
    assert events[..n][..k] == events[..k];
  }

  /** at lists n bad and active observations, in order, with only neutral events after the first. */
  predicate IsStreakOf(events: seq<Event>, at: seq<nat>) {
    && (forall a, b :: 0 <= a < b < |at| ==> at[a] < at[b])
    && (forall a :: 0 <= a < |at| ==> at[a] < |events| && BadAndActiveAt(events, at[a]))
    && (|at| > 0 ==> forall k :: at[0] <= k < |events| ==> k in at || NeutralAt(events, k))
  }

  lemma {:induction false} StillStreak(events: seq<Event>, at: seq<nat>)
    requires events != [] && IsStreakOf(events[..|events| - 1], at)
    ensures forall a :: 0 <= a < |at| ==> at[a] < |events| - 1 && BadAndActiveAt(events, at[a])
    ensures |at| > 0 ==> forall k :: at[0] <= k < |events| - 1 ==> k in at || NeutralAt(events, k)
  {
    forall k | 0 <= k < |events| - 1
      ensures BadAndActiveAt(events[..|events| - 1], k) == BadAndActiveAt(events, k)
      ensures NeutralAt(events[..|events| - 1], k) == NeutralAt(events, k)
    {
      SameBefore(events, |events| - 1, k);
    }
  }

  lemma {:induction false} ObservationGoesOn(events: seq<Event>, at: seq<nat>)
    requires events != [] && IsStreakOf(events[..|events| - 1], at) && BadAndActiveAt(events, |events| - 1)
    ensures IsStreakOf(events, at + [|events| - 1])
  {
    StillStreak(events, at);
    var more := at + [|events| - 1];
    assert more[|at|] == |events| - 1;
    forall k | more[0] <= k < |events| ensures k in more || NeutralAt(events, k) {
      if k < |events| - 1 {
        assert k in at ==> k in more;
      }
    }
  }

  lemma {:induction false} NeutralGoesOn(events: seq<Event>, at: seq<nat>)
    requires events != [] && IsStreakOf(events[..|events| - 1], at) && NeutralAt(events, |events| - 1)
    ensures IsStreakOf(events, at)
  {
    StillStreak(events, at);
  }

  /**
   * A streak of n means n bad observations, each in an active snapshot, with nothing after the first of
   * them that would have started the count over.
   */
  lemma {:induction false} StreakObservations(events: seq<Event>, n: nat) returns (at: seq<nat>)
    requires n <= Streak(events)
    ensures |at| == n && IsStreakOf(events, at)
  {
    at := [];
    if n > 0 {
      var last := |events| - 1;
      if BadAndActiveAt(events, last) {
        at := StreakObservations(events[..last], n - 1);
        ObservationGoesOn(events, at);
        at := at + [last];
      } else {
        at := StreakObservations(events[..last], n);
        NeutralGoesOn(events, at);
      }
    }
  }
}
