/** Difficulty of one miner session (pkg/stratum/session.go); handlers are atomic and messages are values. */
module Session {
  import opened Common
  import opened Vardiff

  datatype Phase = Connected | Subscribed | Authorized

  /** The part of a job that concerns a session: which job, whose payout, and whether to drop old work. */
  datatype Notice = Notice(jobId: nat, coinb2: Bytes, cleanJobs: bool)

  datatype Message =
    | SetDifficulty(difficulty: real)
    | Notify(job: Notice)
    | SubscribeReply(extraNonce2Size: int)
    | Yes
    | No

  datatype Server = Server(defaultDiff: real, acceptSuggestDiff: bool, vardiffOnNewBlock: bool, extraNonceSize: int,
                           settings: Option<Settings>)

  datatype Miner = Miner(phase: Phase, difficulty: real, prevDiff: real, diffChangedAt: real, pendingDiff: real,
                         miningAddress: string, vardiff: Option<Tracker>)

  /**
   * What a session handles. A password is its comma-separated parts, each the number after "d=" or None.
   * `handler` is the authorize handler's answer, `job` what it then offers; `accepted` is the share
   * handler's answer, `current` the job last broadcast to everyone.
   */
  datatype Event =
    | Subscribe
    | Authorize(params: Option<seq<Option<real>>>, handler: Option<string>, job: Option<Notice>, at: real)
    | Submit(wellFormed: bool, accepted: bool, current: Option<Notice>, at: real)
    | Suggest(difficulty: Option<real>, at: real)
    | SendJob(newJob: Notice, at: real)

  datatype Turn = Turn(miner: Miner, sent: seq<Message>)

  predicate GoodServer(srv: Server) {
    srv.settings.Some? ==> Proper(srv.settings.value) && InBounds(srv.settings.value, srv.defaultDiff)
  }

  function ClampMaybe(srv: Server, d: real): real {
    if srv.settings.Some? then Clamp(srv.settings.value, d) else d
  }

  /** The first positive difficulty in a password. */
  function PasswordDifficulty(parts: seq<Option<real>>): Option<real> {
    if parts == [] then None
    else if parts[0].Some? && parts[0].value > 0.0 then parts[0]
    else PasswordDifficulty(parts[1..])
  }

  function Changed(m: Miner, d: real, at: real): Miner {
    m.(prevDiff := m.difficulty, diffChangedAt := at, difficulty := d)
  }

  function WithPassword(srv: Server, m: Miner, parts: seq<Option<real>>, at: real): Miner {
    match PasswordDifficulty(parts)
    case None => m
    case Some(d) => Changed(m, ClampMaybe(srv, d), at)
  }

  function Authorizing(srv: Server, m: Miner, params: Option<seq<Option<real>>>, handler: Option<string>,
                       job: Option<Notice>, at: real): Turn {
    if m.phase.Connected? || params.None? then Turn(m, [No])
    else
      var m1 := WithPassword(srv, m, params.value, at);
      if handler.None? then Turn(m1, [No])
      else Turn(m1.(miningAddress := handler.value, phase := Authorized),
                [Yes, SetDifficulty(m1.difficulty)] + if job.Some? then [Notify(job.value)] else [])
  }

  function MidBlock(m: Miner, d: real, current: Option<Notice>, at: real): Turn {
    Turn(Changed(m, d, at).(pendingDiff := 0.0, vardiff := Some(Tracker(d, [], at))),
         [SetDifficulty(d)] + if current.Some? then [Notify(current.value.(cleanJobs := false))] else [])
  }

  predicate Tracked(srv: Server, m: Miner) {
    srv.settings.Some? && m.vardiff.Some? && srv.settings.value.targetTime > 0.0 && m.vardiff.value.currentDiff > 0.0
  }

  /** An accepted share that vardiff looks at and that changes the difficulty. */
  predicate Retargets(srv: Server, m: Miner, e: Event) {
    && Tracked(srv, m) && e.Submit? && m.phase.Authorized? && e.wellFormed && e.accepted && m.pendingDiff <= 0.0
    && RecordAdjusts(srv.settings.value, m.vardiff.value, e.at)
  }

  function Submitting(
      srv: Server, m: Miner, wellFormed: bool, accepted: bool, current: Option<Notice>, at: real): Turn {
    if !m.phase.Authorized? || !wellFormed || !accepted then Turn(m, [No])
    else if !Tracked(srv, m) || m.pendingDiff > 0.0 then Turn(m, [Yes])
    else
      var v := Recorded(srv.settings.value, m.vardiff.value, at);
      var m1 := m.(vardiff := Some(v));
      if !RecordAdjusts(srv.settings.value, m.vardiff.value, at) then Turn(m1, [Yes])
      else if srv.vardiffOnNewBlock then Turn(m1.(pendingDiff := v.currentDiff), [Yes])
      else
        var t := MidBlock(m1, v.currentDiff, current, at);
        Turn(t.miner, [Yes] + t.sent)
  }

  function Suggesting(srv: Server, m: Miner, suggested: Option<real>, at: real): Turn {
    if suggested.None? || !srv.acceptSuggestDiff then Turn(m, [Yes])
    else
      var d := ClampMaybe(srv, suggested.value);
      var d1 := if d <= 0.0 then srv.defaultDiff else d;
      Turn(Changed(m, d1, at), [SetDifficulty(d1), Yes])
  }

  predicate Flushes(srv: Server, m: Miner, job: Notice) {
    m.phase.Authorized? && m.pendingDiff > 0.0 && (!srv.vardiffOnNewBlock || job.cleanJobs)
  }

  function SendingJob(srv: Server, m: Miner, job: Notice, at: real): Turn {
    if !m.phase.Authorized? then Turn(m, [])
    else if !Flushes(srv, m, job) then Turn(m, [Notify(job)])
    else
      Turn(Changed(m, m.pendingDiff, at).(pendingDiff := 0.0,
                                          vardiff := if m.vardiff.None? then None
                                                     else Some(Tracker(m.pendingDiff, [], at))),
           [SetDifficulty(m.pendingDiff), Notify(job)])
  }

  function Handled(srv: Server, m: Miner, e: Event): Turn {
    match e
    case Subscribe => Turn(m.(phase := Subscribed), [SubscribeReply(srv.extraNonceSize - 4)])
    case Authorize(params, handler, job, at) => Authorizing(srv, m, params, handler, job, at)
    case Submit(wellFormed, accepted, current, at) => Submitting(srv, m, wellFormed, accepted, current, at)
    case Suggest(suggested, at) => Suggesting(srv, m, suggested, at)
    case SendJob(job, at) => SendingJob(srv, m, job, at)
  }

  /** A new connection: newSession and the server's accept loop. */
  function Fresh(srv: Server, at: real): Miner {
    Miner(Connected, srv.defaultDiff, 0.0, 0.0, 0.0, "",
          if srv.settings.Some? then Some(Tracker(srv.defaultDiff, [], at)) else None)
  }

  // The session object.

  class StratumSession {
    const server: Server
    const vardiff: VarDiff?
    var phase: Phase
    var difficulty: real
    var prevDiff: real
    var diffChangedAt: real
    var pendingDiff: real
    var miningAddress: string

    ghost predicate Valid()
      reads this, vardiff
    {
      && GoodServer(server) && pendingDiff >= 0.0
      && (vardiff != null <==> server.settings.Some?)
      && (vardiff != null ==> vardiff.Valid() && vardiff.settings == server.settings.value)
    }

    function Now(): Miner
      reads this, vardiff
    {
      Miner(phase, difficulty, prevDiff, diffChangedAt, pendingDiff, miningAddress,
            if vardiff == null then None else Some(vardiff.Now()))
    }

    /** newSession, with the tracker the accept loop adds. */
    constructor (server: Server, at: real)
      requires GoodServer(server)
      ensures Valid() && this.server == server && Now() == Fresh(server, at)
      ensures vardiff != null ==> fresh(vardiff)
    {
      this.server, phase, difficulty, prevDiff, diffChangedAt := server, Connected, server.defaultDiff, 0.0, 0.0;
      pendingDiff, miningAddress := 0.0, "";
      if server.settings.Some? {
        vardiff := new VarDiff(server.settings.value, server.defaultDiff, at);
      } else {
        vardiff := null;
      }
    }

    /** handleSubscribe; extranonce1 is four bytes. */
    method HandleSubscribe() returns (sent: seq<Message>)
      requires Valid()
      modifies `phase
      ensures Valid() && Turn(Now(), sent) == Handled(server, old(Now()), Subscribe)
    {
      phase := Subscribed;
      return [SubscribeReply(server.extraNonceSize - 4)];
    }

    method ChangeDifficulty(d: real, at: real)
      modifies `difficulty, `prevDiff, `diffChangedAt
      ensures Now() == Changed(old(Now()), d, at)
    {
      prevDiff := difficulty;
      diffChangedAt := at;
      difficulty := d;
    }

    /** parsePasswordDifficulty. */
    method ParsePasswordDifficulty(parts: seq<Option<real>>, at: real)
      requires Valid()
      modifies `difficulty, `prevDiff, `diffChangedAt
      ensures Now() == WithPassword(server, old(Now()), parts, at)
    {
      var k := 0;
      while k < |parts|
        invariant 0 <= k <= |parts| && Valid() && Now() == old(Now())
        invariant PasswordDifficulty(parts[k..]) == PasswordDifficulty(parts)
      {
        assert parts[k..][1..] == parts[k + 1..];
        if parts[k].Some? && parts[k].value > 0.0 {
          var val := parts[k].value;
          if vardiff != null {
            if val < vardiff.settings.minDiff {
              val := vardiff.settings.minDiff;
            }
            if val > vardiff.settings.maxDiff {
              val := vardiff.settings.maxDiff;
            }
          }
          ChangeDifficulty(val, at);
          return;
        }
        k := k + 1;
      }
    }

    /** handleAuthorize. */
    method HandleAuthorize(params: Option<seq<Option<real>>>, handler: Option<string>, job: Option<Notice>, at: real)
      returns (sent: seq<Message>)
      requires Valid()
      modifies this
      ensures Valid() && Turn(Now(), sent) == Handled(server, old(Now()), Authorize(params, handler, job, at))
    {
      if phase.Connected? {
        return [No];
      }
      if params.None? {
        return [No];
      }
      ParsePasswordDifficulty(params.value, at);
      if handler.None? {
        return [No];
      }
      miningAddress := handler.value;
      phase := Authorized;
      sent := [Yes, SetDifficulty(difficulty)];
      if job.Some? {
        sent := sent + [Notify(job.value)];
      }
    }

    /** handleSubmit. */
    method HandleSubmit(wellFormed: bool, accepted: bool, current: Option<Notice>, at: real)
      returns (sent: seq<Message>)
      requires Valid()
      modifies this, vardiff
      ensures Valid() && Turn(Now(), sent) == Handled(server, old(Now()), Submit(wellFormed, accepted, current, at))
    {
      if !phase.Authorized? || !wellFormed || !accepted {
        return [No];
      }
      sent := [Yes];
      if vardiff != null && !(pendingDiff > 0.0) {
        var result := vardiff.RecordShare(at);
        if result.adjusted {
          if !server.vardiffOnNewBlock {
            var more := SendMidBlockDifficulty(result.clampedDiff, current, at);
            sent := sent + more;
          } else {
            pendingDiff := result.clampedDiff;
          }
        }
      }
    }

    /** sendMidBlockDifficulty. */
    method SendMidBlockDifficulty(newDiff: real, current: Option<Notice>, at: real) returns (sent: seq<Message>)
      requires Valid() && vardiff != null && newDiff > 0.0
      modifies this, vardiff
      ensures Valid() && phase == old(phase) && Turn(Now(), sent) == MidBlock(old(Now()), newDiff, current, at)
    {
      ChangeDifficulty(newDiff, at);
      pendingDiff := 0.0;
      sent := [SetDifficulty(newDiff)];
      vardiff.ResetWindow(newDiff, at);
      if current.Some? {
        sent := sent + [Notify(current.value.(cleanJobs := false))];
      }
    }

    /** handleSuggestDifficulty. */
    method HandleSuggestDifficulty(suggested: Option<real>, at: real) returns (sent: seq<Message>)
      requires Valid()
      modifies `difficulty, `prevDiff, `diffChangedAt
      ensures Valid() && Turn(Now(), sent) == Handled(server, old(Now()), Suggest(suggested, at))
    {
      if suggested.None? {
        return [Yes];
      }
      if !server.acceptSuggestDiff {
        return [Yes];
      }
      var newDiff := suggested.value;
      if vardiff != null {
        if newDiff < vardiff.settings.minDiff {
          newDiff := vardiff.settings.minDiff;
        }
        if newDiff > vardiff.settings.maxDiff {
          newDiff := vardiff.settings.maxDiff;
        }
      }
      if newDiff <= 0.0 {
        newDiff := server.defaultDiff;
      }
      ChangeDifficulty(newDiff, at);
      return [SetDifficulty(newDiff), Yes];
    }

    /** SendJob. */
    method SendNewJob(job: Notice, at: real) returns (sent: seq<Message>)
      requires Valid()
      modifies this, vardiff
      ensures Valid() && Turn(Now(), sent) == Handled(server, old(Now()), SendJob(job, at))
    {
      if !phase.Authorized? {
        return [];
      }
      sent := [];
      var flushDiff := pendingDiff > 0.0 && (!server.vardiffOnNewBlock || job.cleanJobs);
      if flushDiff {
        var newDiff := pendingDiff;
        ChangeDifficulty(newDiff, at);
        pendingDiff := 0.0;
        sent := sent + [SetDifficulty(newDiff)];
        if vardiff != null {
          vardiff.ResetWindow(newDiff, at);
        }
      }
      sent := sent + [Notify(job)];
    }
  }

  // Runs.

  function After(srv: Server, start: real, events: seq<Event>, k: nat): Miner
    requires k <= |events|
  {
    if k == 0 then Fresh(srv, start) else Handled(srv, After(srv, start, events, k - 1), events[k - 1]).miner
  }

  /** Difficulties in bounds, a pending one equal to the tracker's, a bounded window. */
  predicate Inv(srv: Server, m: Miner) {
    srv.settings.Some? ==>
      var s := srv.settings.value;
      && m.vardiff.Some? && InBounds(s, m.difficulty) && (m.prevDiff == 0.0 || InBounds(s, m.prevDiff))
      && TrackerInv(srv, m.vardiff.value) && (m.pendingDiff == 0.0 || m.pendingDiff == m.vardiff.value.currentDiff)
  }

  predicate TrackerInv(srv: Server, v: Tracker) {
    && srv.settings.Some? && InBounds(srv.settings.value, v.currentDiff) && |v.shareTimes| <= MAXSHARES
    && (Integral(srv.defaultDiff) ==> Integral(v.currentDiff))
  }

  lemma {:induction false} RecordedKeeps(srv: Server, v: Tracker, at: real)
    requires GoodServer(srv) && TrackerInv(srv, v)
    ensures TrackerInv(srv, Recorded(srv.settings.value, v, at))
    ensures |Recorded(srv.settings.value, v, at).shareTimes| <= MAXSHARES
  {
    var s := srv.settings.value;
    if RecordAdjusts(s, v, at) {
      RoundedInBounds(s, Calculated(s, v.currentDiff, AverageShareTime(Window(v, at))));
    }
  }

  lemma {:induction false} HandledKeepsInv(srv: Server, m: Miner, e: Event)
    requires GoodServer(srv) && Inv(srv, m)
    ensures Inv(srv, Handled(srv, m, e).miner)
  {
    if e.Submit? && srv.settings.Some? {
      RecordedKeeps(srv, m.vardiff.value, e.at);
    }
  }

  /**
   * In integer mode, with a default inside integer bounds of at least 1, after any events: the session's,
   * the previous and the tracker's difficulty are within bounds, a pending difficulty is the tracker's, and
   * at most ten timestamps are kept.
   */
  lemma {:induction false} DifficultiesStayInBounds(srv: Server, start: real, events: seq<Event>, k: nat)
    requires GoodServer(srv) && k <= |events|
    ensures Inv(srv, After(srv, start, events, k))
  {
    if k > 0 {
      DifficultiesStayInBounds(srv, start, events, k - 1);
      HandledKeepsInv(srv, After(srv, start, events, k - 1), events[k - 1]);
    }
  }

  /**
   * With a whole-number default, every retarget of every run moves the tracker's difficulty the way the
   * share rate demands, and at most fourfold up.
   */
  lemma {:induction false} EveryRetargetIsDemanded(srv: Server, start: real, events: seq<Event>, k: nat)
    requires GoodServer(srv) && srv.settings.Some? && Integral(srv.defaultDiff) && k < |events|
    requires Retargets(srv, After(srv, start, events, k), events[k])
    ensures var s, m := srv.settings.value, After(srv, start, events, k);
            var v, avg := m.vardiff.value, AverageShareTime(Window(m.vardiff.value, events[k].at));
            var next := Recorded(s, v, events[k].at).currentDiff;
            if avg < s.targetTime then v.currentDiff < next <= 4.0 * v.currentDiff else next < v.currentDiff
  {
    DifficultiesStayInBounds(srv, start, events, k);
    var s, v := srv.settings.value, After(srv, start, events, k).vardiff.value;
    RetargetIsDemanded(s, v.currentDiff, AverageShareTime(Window(v, events[k].at)));
  }

  lemma {:induction false} RetargetIsDemanded(s: Settings, c: real, avg: real)
    requires Proper(s) && InBounds(s, c) && Integral(c) && Adjusts(s, c, avg)
    ensures if avg < s.targetTime then c < NewDiff(s, c, avg) <= 4.0 * c else NewDiff(s, c, avg) < c
  {
    IntegralIsSafe(s, c);
    FastOrSlow(s, avg);
    MulAtMost(1.0 - s.variance, 1.0, s.targetTime);
    MulAtMost(1.0, 1.0 + s.variance, s.targetTime);
  }

  // The session's own difficulty against the tracker's.

  /** The session works at the tracker's difficulty, or is about to. */
  predicate InSync(m: Miner) {
    m.pendingDiff > 0.0 || (m.vardiff.Some? ==> m.difficulty == m.vardiff.value.currentDiff)
  }

  /** The difficulty a message of the miner sets, when it sets one: an accepted suggestion or a password. */
  function Asked(srv: Server, m: Miner, e: Event): Option<real> {
    match e
    case Suggest(Some(d), at) =>
      if !srv.acceptSuggestDiff then None
      else if ClampMaybe(srv, d) <= 0.0 then Some(srv.defaultDiff)
      else Some(ClampMaybe(srv, d))
    case Authorize(Some(parts), handler, job, at) =>
      if m.phase.Connected? || PasswordDifficulty(parts).None? then None
      else Some(ClampMaybe(srv, PasswordDifficulty(parts).value))
    case _ => None
  }

  /** The miner sets another difficulty while none is waiting to be delivered. */
  predicate DrivesApart(srv: Server, m: Miner, e: Event) {
    srv.settings.Some? && m.pendingDiff <= 0.0 && Asked(srv, m, e).Some? && Asked(srv, m, e).value != m.difficulty
  }

  /** One event keeps session and tracker together exactly unless the miner sets another difficulty. */
  lemma {:induction false} StaysInSyncIff(srv: Server, m: Miner, e: Event)
    requires GoodServer(srv) && Inv(srv, m) && InSync(m) && (m.vardiff.Some? <==> srv.settings.Some?)
    ensures InSync(Handled(srv, m, e).miner) <==> !DrivesApart(srv, m, e)
    ensures Handled(srv, m, e).miner.vardiff.Some? <==> srv.settings.Some?
  {
  }

  lemma {:induction false} TrackerStays(srv: Server, start: real, events: seq<Event>, k: nat)
    requires k <= |events|
    ensures After(srv, start, events, k).vardiff.Some? <==> srv.settings.Some?
  {
    if k > 0 {
      TrackerStays(srv, start, events, k - 1);
    }
  }

  lemma {:induction false} InSyncAfter(srv: Server, start: real, events: seq<Event>, k: nat)
    requires GoodServer(srv) && k < |events| && InSync(After(srv, start, events, k))
    ensures InSync(After(srv, start, events, k + 1)) <==> !DrivesApart(srv, After(srv, start, events, k), events[k])
  {
    DifficultiesStayInBounds(srv, start, events, k);
    TrackerStays(srv, start, events, k);
    StaysInSyncIff(srv, After(srv, start, events, k), events[k]);
  }

  /** Session and tracker were together in every state up to the k-th. */
  predicate AlwaysInSync(srv: Server, start: real, events: seq<Event>, k: nat)
    requires k <= |events|
  {
    InSync(After(srv, start, events, k)) && (k > 0 ==> AlwaysInSync(srv, start, events, k - 1))
  }

  /** None of the first k events set another difficulty while none was waiting. */
  predicate NeverDrivenApart(srv: Server, start: real, events: seq<Event>, k: nat)
    requires k <= |events|
  {
    k > 0 ==>
      && NeverDrivenApart(srv, start, events, k - 1)
      && !DrivesApart(srv, After(srv, start, events, k - 1), events[k - 1])
  }

  /** Over a run: session and tracker are together throughout exactly when the miner never set another difficulty. */
  lemma {:induction false} InSyncRunIff(srv: Server, start: real, events: seq<Event>, k: nat)
    requires GoodServer(srv) && k <= |events|
    ensures AlwaysInSync(srv, start, events, k) <==> NeverDrivenApart(srv, start, events, k)
  {
    if k > 0 {
      InSyncRunIff(srv, start, events, k - 1);
      if InSync(After(srv, start, events, k - 1)) {
        InSyncAfter(srv, start, events, k - 1);
      }
    }
  }

  /** The session's next difficulty after a retarget, set at once or waiting for the next block. */
  function NextDifficulty(srv: Server, m: Miner, e: Event): real {
    var next := Handled(srv, m, e).miner;
    if srv.vardiffOnNewBlock then next.pendingDiff else next.difficulty
  }

  /**
   * As long as the miner never set another difficulty, with a whole-number default, every retarget of every
   * run moves the session's own difficulty the way the share rate demands, and at most fourfold up.
   */
  lemma {:induction false} SessionGoesAsDemanded(srv: Server, start: real, events: seq<Event>, k: nat)
    requires GoodServer(srv) && srv.settings.Some? && Integral(srv.defaultDiff) && k < |events|
    requires Retargets(srv, After(srv, start, events, k), events[k])
    requires NeverDrivenApart(srv, start, events, k)
    ensures var s, m := srv.settings.value, After(srv, start, events, k);
            var avg, next := AverageShareTime(Window(m.vardiff.value, events[k].at)), NextDifficulty(srv, m, events[k]);
            if avg < s.targetTime then m.difficulty < next <= 4.0 * m.difficulty else next < m.difficulty
  {
    InSyncRunIff(srv, start, events, k);
    EveryRetargetIsDemanded(srv, start, events, k);
  }

  /** A session that is asked for another difficulty, and then sends four shares, four times too fast. */
  function SuggestingRun(): seq<Event> {
    [Subscribe, Authorize(Some([]), Some("a"), None, 0.0), Suggest(Some(100000.0), 0.0),
     Submit(true, true, None, 0.0), Submit(true, true, None, 4.0), Submit(true, true, None, 8.0),
     Submit(true, true, None, 12.0)]
  }

  /**
   * After an accepted suggestion the tracker still works from its old difficulty: in this run the shares
   * demand more than 100000, and the session drops to 4096.
   */
  lemma {:induction false} SuggestionIsForgotten()
    ensures var srv := Server(1024.0, true, false, 8, Some(Settings(1.0, 200000.0, 16.0, 0.0, 0.3)));
            var before, last := After(srv, 0.0, SuggestingRun(), 6), SuggestingRun()[6];
            && GoodServer(srv) && Retargets(srv, before, last) && !InSync(before)
            && AverageShareTime(Window(before.vardiff.value, last.at)) == 4.0
            && before.difficulty == 100000.0 && After(srv, 0.0, SuggestingRun(), 7).difficulty == 4096.0
  {
    var s := Settings(1.0, 200000.0, 16.0, 0.0, 0.3);
    var srv, events := Server(1024.0, true, false, 8, Some(s)), SuggestingRun();
    var m := Miner(Authorized, 100000.0, 1024.0, 0.0, 0.0, "a", Some(Tracker(1024.0, [], 0.0)));
    assert After(srv, 0.0, events, 1) == Fresh(srv, 0.0).(phase := Subscribed);
    assert After(srv, 0.0, events, 2) == Fresh(srv, 0.0).(phase := Authorized, miningAddress := "a");
    assert After(srv, 0.0, events, 3) == m;
    ThreeShares(srv, m, events);
    FourthShare(srv, s, m);
    assert After(srv, 0.0, events, 7) == Handled(srv, After(srv, 0.0, events, 6), events[6]).miner;
  }

  lemma {:induction false} ThreeShares(srv: Server, m: Miner, events: seq<Event>)
    requires srv.settings.Some? && srv.settings.value.targetTime > 0.0 && events == SuggestingRun()
    requires m.phase.Authorized? && m.pendingDiff == 0.0 && m.vardiff == Some(Tracker(1024.0, [], 0.0))
    requires After(srv, 0.0, events, 3) == m
    ensures After(srv, 0.0, events, 6) == m.(vardiff := Some(Tracker(1024.0, [0.0, 4.0, 8.0], 0.0)))
  {
    var none: seq<real> := [];
    ShareWaits(srv, m, none, 0.0);
    ShareWaits(srv, m, [0.0], 4.0);
    ShareWaits(srv, m, [0.0, 4.0], 8.0);
    assert none + [0.0] == [0.0] && [0.0] + [4.0] == [0.0, 4.0] && [0.0, 4.0] + [8.0] == [0.0, 4.0, 8.0];
    assert m.(vardiff := Some(Tracker(1024.0, none, 0.0))) == m;
    assert After(srv, 0.0, events, 4) == m.(vardiff := Some(Tracker(1024.0, [0.0], 0.0)));
    assert After(srv, 0.0, events, 5) == m.(vardiff := Some(Tracker(1024.0, [0.0, 4.0], 0.0)));
  }

  lemma {:induction false} FourthShare(srv: Server, s: Settings, m: Miner)
    requires s == Settings(1.0, 200000.0, 16.0, 0.0, 0.3) && srv == Server(1024.0, true, false, 8, Some(s))
    requires m.phase.Authorized? && m.pendingDiff == 0.0
    ensures var v := Tracker(1024.0, [0.0, 4.0, 8.0], 0.0);
            && AverageShareTime(Window(v, 12.0)) == 4.0
            && Retargets(srv, m.(vardiff := Some(v)), Submit(true, true, None, 12.0))
            && Handled(srv, m.(vardiff := Some(v)), Submit(true, true, None, 12.0)).miner.difficulty == 4096.0
  {
    var v := Tracker(1024.0, [0.0, 4.0, 8.0], 0.0);
    assert Window(v, 12.0) == [0.0, 4.0, 8.0, 12.0];
    assert AverageShareTime(Window(v, 12.0)) == 4.0;
    assert Ratio(s, 4.0) == 4.0;
    assert NewDiff(s, 1024.0, 4.0) == 4096.0;
  }

  /** With fewer than four shares in the window a share is only counted. */
  lemma {:induction false} ShareWaits(srv: Server, m: Miner, times: seq<real>, at: real)
    requires srv.settings.Some? && srv.settings.value.targetTime > 0.0 && m.phase.Authorized? && m.pendingDiff == 0.0
    requires |times| < 3
    ensures Handled(srv, m.(vardiff := Some(Tracker(1024.0, times, 0.0))), Submit(true, true, None, at)).miner
         == m.(vardiff := Some(Tracker(1024.0, times + [at], 0.0)))
  {
  }

  // What the miner is told.

  /** The last difficulty announced. */
  function Announced(before: Option<real>, sent: seq<Message>): Option<real> {
    if sent == [] then before
    else if sent[|sent| - 1].SetDifficulty? then Some(sent[|sent| - 1].difficulty)
    else Announced(before, sent[..|sent| - 1])
  }

  /** A rejected authorize whose password changes the difficulty. */
  predicate ChangesSilently(srv: Server, m: Miner, e: Event) {
    && e.Authorize? && !m.phase.Connected? && e.params.Some? && e.handler.None?
    && PasswordDifficulty(e.params.value).Some?
      && ClampMaybe(srv, PasswordDifficulty(e.params.value).value) != m.difficulty
  }

  /**
   * When the miner has been told the session's difficulty, it still has been after an event exactly when
   * that event is not a rejected authorize with another difficulty in its password.
   */
  lemma {:induction false} ToldUnlessRejected(srv: Server, m: Miner, e: Event)
    ensures Announced(Some(m.difficulty), Handled(srv, m, e).sent) == Some(Handled(srv, m, e).miner.difficulty)
       <==> !ChangesSilently(srv, m, e)
  {
    ShortMessages(Some(m.difficulty), Handled(srv, m, e).sent);
  }

  lemma {:induction false} ShortMessages(before: Option<real>, sent: seq<Message>)
    ensures |sent| == 1
            ==> Announced(before, sent) == if sent[0].SetDifficulty? then Some(sent[0].difficulty) else before
    ensures |sent| == 2 ==> Announced(before, sent) == if sent[1].SetDifficulty? then Some(sent[1].difficulty)
                                                       else if sent[0].SetDifficulty? then Some(sent[0].difficulty)
                                                       else before
    ensures |sent| == 3 && sent[2].Notify? && sent[1].SetDifficulty?
            ==> Announced(before, sent) == Some(sent[1].difficulty)
  {
    if |sent| >= 2 {
      ShortMessages(before, sent[..|sent| - 1]);
    }
  }

  /** A mid-block retarget with a current job to resend. */
  predicate Resends(srv: Server, m: Miner, e: Event) {
    Retargets(srv, m, e) && !srv.vardiffOnNewBlock && e.current.Some?
  }

  /** A session notifies of the job its handlers hand it, and of the current job in a mid-block retarget. */
  lemma {:induction false} NotifiedOf(srv: Server, m: Miner, e: Event)
    ensures forall msg :: msg in Handled(srv, m, e).sent && msg.Notify? ==>
              || (e.Authorize? && e.job == Some(msg.job)) || (e.SendJob? && e.newJob == msg.job) || Resends(srv, m, e)
    ensures Resends(srv, m, e) ==> Notify(e.current.value.(cleanJobs := false)) in Handled(srv, m, e).sent
  {
    if Resends(srv, m, e) {
      var sent := Handled(srv, m, e).sent;
      assert sent[|sent| - 1] == Notify(e.current.value.(cleanJobs := false));
    }
  }
}
