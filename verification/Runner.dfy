/**
 * The solo-mode server as it runs: every lock section of its job manager is a step of the registry, so what
 * holds of all runs of the registry holds of the job manager.
 */
module Runner {
  import opened BitcoinCash
  import opened CoinRunner
  import opened Coinbase
  import opened Common
  import opened JobManager
  import opened Jobs
  import opened Registry
  import opened ShareValidator
  import opened Submission

  /** A job manager with its validator, and the run of the registry that its lock sections have made so far. */
  class SoloRunner {
    const jobMgr: Manager
    const validator: Validator
    ghost var states: seq<State>
    ghost var events: seq<Event>

    ghost predicate Valid()
      reads this, jobMgr
    {
      && jobMgr.Valid() && validator.jobMgr == jobMgr
      && |states| == |events| + 1 && IsRun(jobMgr.Config(), states, events, |events|)
      && Agrees(Last())
    }

    ghost function Last(): State
      reads this
      requires states != []
    {
      states[|states| - 1]
    }

    ghost predicate Agrees(s: State)
      reads jobMgr
    {
      && s.jobs == jobMgr.jobs && s.connected == jobMgr.connectedAddrs
      && s.tip == jobMgr.currentTip && s.counter == jobMgr.jobCounter
    }

    /** Around a new job manager. */
    constructor (jobMgr: Manager, staleShareGrace: int, lowDiffShareGrace: real)
      requires jobMgr.Valid() && jobMgr.jobs == map[] && jobMgr.connectedAddrs == map[]
      ensures Valid() && events == [] && this.jobMgr == jobMgr
    {
      this.jobMgr := jobMgr;
      validator := new Validator(jobMgr, staleShareGrace, lowDiffShareGrace);
      states, events := [State(map[], jobMgr.currentTip, jobMgr.jobCounter, map[], map[], None)], [];
    }

    ghost method Record(e: Event, s: State)
      requires |states| == |events| + 1 && IsRun(jobMgr.Config(), states + [s], events + [e], |events| + 1)
      modifies `states, `events
      ensures states == old(states) + [s] && events == old(events) + [e]
      ensures IsRun(jobMgr.Config(), states, events, |events|)
    {
      states, events := states + [s], events + [e];
    }

    /** RegisterAddress up to the fill. */
    method Count(address: string) returns (isNew: bool)
      requires Valid() && jobMgr.coin.registrable(address)
      modifies this, jobMgr`connectedAddrs
      ensures Valid() && events == old(events) + [RegisterCount(address)] && old(states) <= states
      ensures isNew ==> PendingOf(Last(), address) > 0
    {
      ghost var s := Last();
      isNew := jobMgr.RegisterCount(address);
      s := CountGrows(jobMgr.Config(), states, events, address);
      Record(RegisterCount(address), s);
    }

    /** The fill of RegisterAddress, once no refresh holds the template lock. */
    method Fill(address: string)
      requires Valid() && PendingOf(Last(), address) > 0 && Last().building.None?
      modifies this, jobMgr`jobs
      ensures Valid() && events == old(events) + [RegisterFill(address)] && old(states) <= states
    {
      jobMgr.RegisterFill(address);
      ghost var s := FillGrows(jobMgr.Config(), states, events, address);
      Record(RegisterFill(address), s);
    }

    /** refreshTemplate, from taking the template lock until the addresses are read. */
    method Snapshot(template: Template) returns (addresses: seq<string>)
      requires Valid() && Last().building.None?
      modifies this
      ensures Valid() && events == old(events) + [RefreshSnapshot(template, addresses)] && old(states) <= states
      ensures Last().building == Some(Building(template, addresses))
    {
      addresses := jobMgr.SnapshotAddresses();
      ghost var s := SnapshotGrows(jobMgr.Config(), states, events, template, addresses);
      Record(RefreshSnapshot(template, addresses), s);
    }

    /** refreshTemplate from there to its end. */
    method Publish(template: Template, addresses: seq<string>, now: int)
      requires Valid() && Last().building == Some(Building(template, addresses))
      modifies this, jobMgr`jobs, jobMgr`currentTip, jobMgr`tipChangedAt, jobMgr`jobCounter
      ensures Valid() && events == old(events) + [RefreshPublish(now)] && old(states) <= states
      ensures Last().building.None?
    {
      ghost var s := PublishNext(template, addresses, now);
      Record(RefreshPublish(now), s);
    }

    method PublishNext(template: Template, addresses: seq<string>, now: int) returns (ghost s: State)
      requires Valid() && Last().building == Some(Building(template, addresses))
      modifies jobMgr`jobs, jobMgr`currentTip, jobMgr`tipChangedAt, jobMgr`jobCounter
      ensures jobMgr.Valid() && Agrees(s) && s.building.None?
      ensures IsRun(jobMgr.Config(), states + [s], events + [RefreshPublish(now)], |events| + 1)
    {
      ghost var was, tip := jobMgr.jobs, jobMgr.currentTip;
      jobMgr.PublishJob(template, addresses, now);
      s := PublishGrows(jobMgr.Config(), states, events, template, addresses, was, jobMgr.jobCounter, tip, now,
                        jobMgr.jobs);
    }

    /** The removal handler. */
    method SessionRemoved(miningAddress: string)
      requires Valid()
      modifies this, jobMgr`connectedAddrs
      ensures Valid() && events == old(events) + [Unregister(miningAddress)] && old(states) <= states
    {
      OnSessionRemoved(jobMgr, miningAddress);
      ghost var s := UnregisterGrows(jobMgr.Config(), states, events, miningAddress);
      Record(Unregister(miningAddress), s);
    }

    /** The job lookup of ValidateShare. */
    method Lookup(jobId: nat) returns (found: Option<JobData>)
      requires Valid()
      ensures found.Some? ==> WasRetained(states, found.value)
    {
      found := jobMgr.GetJob(jobId);
      assert found.Some? ==> jobId in states[|states| - 1].jobs;
    }

    /**
     * The rest of ValidateShare, at any later moment: whatever tip it reads, every block it submits for
     * Bitcoin Cash pays the session's address on the template of the job it looked up.
     */
    method Validate(ghost s: Setup, miner: Miner, share: Share, jobData: JobData, currentTip: Hex, tipChangedAt: int,
                    now: int, nowSeconds: real)
      returns (v: Verdict, ghost header: Bytes, ghost coinbase: Bytes, ghost data: Bytes)
      requires Valid() && Reasonable(s) && jobMgr.coin == BchCoin(s)
      requires WasRetained(states, jobData) && |jobData.template.transactions| < MAXLEN
      ensures Submits(v) && GoodTemplate(s, jobData.template) && DeclaredSize(s, miner, share)
          ==> IsPayingBlock(s, jobData.template, miner, share, v.submitted.value, header, coinbase, data)
    {
      v := validator.ValidateFound(miner, share, jobData, currentTip, tipChangedAt, now, nowSeconds);
      header, coinbase, data := [], [], [];
      if Submits(v) && GoodTemplate(s, jobData.template) && DeclaredSize(s, miner, share) {
        header, coinbase, data := RetainedBlock(s, jobMgr.address, states, events, jobData, miner, share,
                                                validator.lowDiffShareGrace, nowSeconds, v);
      }
    }
  }

  predicate Submits(v: Verdict) {
    v.Accepted? && v.submitted.Some?
  }

  /** The job data was retained at some moment of the run. */
  ghost predicate WasRetained(states: seq<State>, jobData: JobData) {
    exists i, id :: 0 <= i < |states| && id in states[i].jobs && states[i].jobs[id] == jobData
  }

  lemma {:induction false} RetainedBlock(
      s: Setup, fallback: string, states: seq<State>, events: seq<Event>, jobData: JobData,
      miner: Miner, share: Share, grace: real, now: real, v: Verdict)
    returns (header: Bytes, coinbase: Bytes, data: Bytes)
    requires Reasonable(s) && |states| == |events| + 1 && IsRun(Config(BchCoin(s), fallback), states, events, |events|)
    requires WasRetained(states, jobData) && miner.miningAddress in jobData.addressCoinb2s
    requires GoodTemplate(s, jobData.template) && DeclaredSize(s, miner, share)
    requires Judged(s.h, jobData, jobData.addressCoinb2s[miner.miningAddress], miner, share, grace, now, v)
             && Submits(v)
    ensures IsPayingBlock(s, jobData.template, miner, share, v.submitted.value, header, coinbase, data)
  {
    var i, id :| 0 <= i < |states| && id in states[i].jobs && states[i].jobs[id] == jobData;
    Earlier(Config(BchCoin(s), fallback), states, events, i, |events|);
    header, coinbase, data := EverySubmittedBlock(s, fallback, states, events, i, id, miner, share, grace, now, v);
  }

  lemma {:induction false} RunGrows(c: Config, states: seq<State>, events: seq<Event>, e: Event, s: State)
    requires |states| == |events| + 1 && IsRun(c, states, events, |events|)
    requires Registry.Next(c, states[|events|], e, s)
    ensures IsRun(c, states + [s], events + [e], |events| + 1)
  {
    SameRun(c, states, events, states + [s], events + [e], |events|);
  }

  lemma {:induction false} CountGrows(c: Config, states: seq<State>, events: seq<Event>, a: string) returns (s': State)
    requires |states| == |events| + 1 && IsRun(c, states, events, |events|) && c.coin.registrable(a)
    ensures IsRun(c, states + [s'], events + [RegisterCount(a)], |events| + 1)
    ensures var s := states[|events|];
            && s' == s.(connected := CountIn(s.connected, a), pending := s'.pending)
            && (a !in s.connected ==> PendingOf(s', a) > 0)
  {
    var s := states[|events|];
    s' := s.(connected := CountIn(s.connected, a),
             pending := if a in s.connected then s.pending else s.pending[a := PendingOf(s, a) + 1]);
    RunGrows(c, states, events, RegisterCount(a), s');
  }

  lemma {:induction false} FillGrows(c: Config, states: seq<State>, events: seq<Event>, a: string) returns (s': State)
    requires |states| == |events| + 1 && IsRun(c, states, events, |events|)
    requires PendingOf(states[|events|], a) > 0 && states[|events|].building.None?
    ensures IsRun(c, states + [s'], events + [RegisterFill(a)], |events| + 1)
    ensures var s := states[|events|]; s' == s.(jobs := FillJobs(c.coin, s.jobs, a), pending := s'.pending)
  {
    var s := states[|events|];
    s' := s.(jobs := FillJobs(c.coin, s.jobs, a), pending := s.pending[a := PendingOf(s, a) - 1]);
    RunGrows(c, states, events, RegisterFill(a), s');
  }

  lemma {:induction false} SnapshotGrows(
      c: Config, states: seq<State>, events: seq<Event>, t: Template, addresses: seq<string>)
    returns (s': State)
    requires |states| == |events| + 1 && IsRun(c, states, events, |events|)
    requires states[|events|].building.None? && Elements(addresses) == states[|events|].connected.Keys
    ensures IsRun(c, states + [s'], events + [RefreshSnapshot(t, addresses)], |events| + 1)
    ensures s' == states[|events|].(building := Some(Building(t, addresses)))
  {
    s' := states[|events|].(building := Some(Building(t, addresses)));
    RunGrows(c, states, events, RefreshSnapshot(t, addresses), s');
  }

  lemma {:induction false} PublishGrows(
      c: Config, states: seq<State>, events: seq<Event>, t: Template, addresses: seq<string>,
      was: map<nat, JobData>, id: nat, tip: Hex, now: int, jobs: map<nat, JobData>)
    returns (s': State)
    requires |states| == |events| + 1 && IsRun(c, states, events, |events|)
    requires states[|events|].building == Some(Building(t, addresses))
    requires states[|events|].jobs == was && states[|events|].counter + 1 == id && states[|events|].tip == tip
    requires PrunedTo(was[id := NewJob(c, t, addresses, id, tip, now)], jobs, MAXJOBS)
    ensures IsRun(c, states + [s'], events + [RefreshPublish(now)], |events| + 1)
    ensures var s := states[|events|];
            s' == s.(jobs := jobs, tip := t.previousBlockHash, counter := id, building := None)
  {
    var s := states[|events|];
    s' := s.(jobs := jobs, tip := t.previousBlockHash, counter := id, building := None);
    RunGrows(c, states, events, RefreshPublish(now), s');
  }

  lemma {:induction false} UnregisterGrows(c: Config, states: seq<State>, events: seq<Event>, a: string)
    returns (s': State)
    requires |states| == |events| + 1 && IsRun(c, states, events, |events|)
    ensures IsRun(c, states + [s'], events + [Unregister(a)], |events| + 1)
    ensures s' == states[|events|].(connected := CountOut(states[|events|].connected, a))
  {
    s' := states[|events|].(connected := CountOut(states[|events|].connected, a));
    RunGrows(c, states, events, Unregister(a), s');
  }

  lemma {:induction false} SameRun(
      c: Config, states: seq<State>, events: seq<Event>, states': seq<State>, events': seq<Event>, i: nat)
    requires states <= states' && events <= events' && i <= |events| && i < |states| && IsRun(c, states, events, i)
    ensures IsRun(c, states', events', i)
  {
    if i > 0 {
      SameRun(c, states, events, states', events', i - 1);
    }
  }

  lemma {:induction false} Earlier(c: Config, states: seq<State>, events: seq<Event>, i: nat, n: nat)
    requires i <= n <= |events| && n < |states| && IsRun(c, states, events, n)
    ensures IsRun(c, states, events, i)
  {
    if i < n {
      Earlier(c, states, events, i, n - 1);
    }
  }
}
