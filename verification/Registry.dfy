/**
 * The solo-mode address registry as a state machine over its lock sections: registrations, template
 * refreshes and removals of any number of sessions interleave between them.
 */
module Registry {
  import opened BitcoinCash
  import opened Common
  import opened Jobs
  import opened Merkle

  const MAXJOBS: nat := 10

  /** What the job manager was configured with: a coin and a fallback address, possibly empty or invalid. */
  datatype Config = Config(coin: Coin, fallback: string)

  // The lock sections as functions.

  /** addrMu section of RegisterAddress. */
  function CountIn(connected: map<string, nat>, address: string): map<string, nat> {
    connected[address := if address in connected then connected[address] + 1 else 1]
  }

  /** UnregisterAddress: one call undoes one registration; the last one removes the address. */
  function CountOut(connected: map<string, nat>, address: string): map<string, nat> {
    if address == "" || address !in connected then connected
    else if connected[address] <= 1 then connected - {address}
    else connected[address := connected[address] - 1]
  }

  /** mu section of RegisterAddress. */
  function FillJobs(c: Coin, jobs: map<nat, JobData>, address: string): map<nat, JobData> {
    map id | id in jobs :: FillJob(c, jobs[id], address)
  }

  /** The first half a refresh computes: from the first address listed, else from the fallback address. */
  function FirstCoinb1(c: Config, t: Template, addresses: seq<string>): Bytes {
    if addresses != [] && c.coin.build(t, addresses[0]).Some? && c.coin.build(t, addresses[0]).value.coinb1 != []
    then c.coin.build(t, addresses[0]).value.coinb1
    else if c.fallback != "" && c.coin.build(t, c.fallback).Some? then c.coin.build(t, c.fallback).value.coinb1
    else []
  }

  function Elements(s: seq<string>): (r: set<string>)
    ensures forall a :: a in r <==> a in s
  {
    set a | a in s
  }

  /** The job a refresh publishes for a template. */
  function NewJob(c: Config, t: Template, addresses: seq<string>, id: nat, tip: Hex, now: int): JobData {
    var coinb1 := FirstCoinb1(c, t, addresses);
    var job := Job(id, StratumPrevHash(t.previousBlockHash), coinb1, [], Branches(c.coin.h, TxHashes(t.transactions)),
                   t.version, t.bits, t.curTime, t.previousBlockHash != tip);
    JobData(job, t, coinb1, [], AllCoinb2s(c.coin, t, Elements(addresses)), now)
  }

  /** pruneJobs: jobs go oldest first until the limit is met. */
  ghost predicate PrunedTo(before: map<nat, JobData>, after: map<nat, JobData>, max: nat) {
    && after.Keys <= before.Keys
    && (forall id :: id in after ==> after[id] == before[id])
    && (forall kept, gone :: kept in after && gone in before && gone !in after
          ==> before[gone].created <= before[kept].created)
    && |after| == Min(|before|, max)
  }

  // The state machine.

  /** A refresh that holds mu and has read the connected addresses. */
  datatype Building = Building(template: Template, addresses: seq<string>)

  /**
   * `pending[a]` registrations of a have counted it as new and not yet filled it in. The
   * template mutex is held exactly while `building` is Some.
   */
  datatype State = State(jobs: map<nat, JobData>, tip: Hex, counter: nat, connected: map<string, nat>,
                         pending: map<string, nat>, building: Option<Building>)

  datatype Event =
    | RegisterCount(address: string)
    | RegisterFill(address: string)
    | RefreshSnapshot(template: Template, addresses: seq<string>)
    | RefreshPublish(now: int)
    | Unregister(address: string)

  function PendingOf(s: State, address: string): nat {
    if address in s.pending then s.pending[address] else 0
  }

  ghost predicate Initial(s: State) {
    s.jobs == map[] && s.connected == map[] && s.pending == map[] && s.building.None?
  }

  ghost predicate Next(c: Config, s: State, e: Event, s': State)
  {
    match e
    case RegisterCount(a) =>
      && c.coin.registrable(a)
      && s' == s.(connected := CountIn(s.connected, a),
                  pending := if a in s.connected then s.pending else s.pending[a := PendingOf(s, a) + 1])
    case RegisterFill(a) =>
      && PendingOf(s, a) > 0 && s.building.None?
      && s' == s.(jobs := FillJobs(c.coin, s.jobs, a), pending := s.pending[a := PendingOf(s, a) - 1])
    case RefreshSnapshot(t, addresses) =>
      && s.building.None? && Elements(addresses) == s.connected.Keys
      && s' == s.(building := Some(Building(t, addresses)))
    case RefreshPublish(now) =>
      && s.building.Some?
      && var t := s.building.value.template;
         var jd := NewJob(c, t, s.building.value.addresses, s.counter + 1, s.tip, now);
         && PrunedTo(s.jobs[s.counter + 1 := jd], s'.jobs, MAXJOBS)
         && s' == s.(jobs := s'.jobs, tip := t.previousBlockHash, counter := s.counter + 1, building := None)
    case Unregister(a) =>
      s' == s.(connected := CountOut(s.connected, a))
  }

  // The invariant.

  /** Stored second halves are right, and a job that has any also has the right first half. */
  ghost predicate RightJob(c: Config, jd: JobData)
  {
    && jd.job.coinb1 == jd.coinb1
    && (jd.coinb1 == [] || jd.coinb1 == c.coin.first(jd.template))
    && (jd.addressCoinb2s != map[] ==> jd.coinb1 == c.coin.first(jd.template))
    && (forall a :: a in jd.addressCoinb2s ==>
          && c.coin.registrable(a)
          && c.coin.build(jd.template, a) == Some(Parts(c.coin.first(jd.template), jd.addressCoinb2s[a])))
  }

  /** Everything else in a job is a function of its template. */
  ghost predicate FromTemplate(c: Config, jd: JobData) {
    && jd.job.prevHash == StratumPrevHash(jd.template.previousBlockHash)
    && jd.job.branches == Branches(c.coin.h, TxHashes(jd.template.transactions))
    && jd.job.version == jd.template.version && jd.job.nBits == jd.template.bits
    && jd.job.coinb2 == []
  }

  ghost predicate RightAddresses(c: Config, s: State) {
    && (forall a :: a in s.connected || PendingOf(s, a) > 0 ==> c.coin.registrable(a))
    && (forall a :: a in s.connected ==> s.connected[a] >= 1)
  }

  ghost predicate RightJobs(c: Config, jobs: map<nat, JobData>) {
    forall id :: id in jobs ==> RightJob(c, jobs[id]) && FromTemplate(c, jobs[id])
  }

  /** Connected and not about to be filled in. */
  predicate Settled(s: State, a: string) {
    a in s.connected && PendingOf(s, a) == 0
  }

  ghost predicate Covered(s: State) {
    forall a, id :: Settled(s, a) && id in s.jobs ==> a in s.jobs[id].addressCoinb2s
  }

  ghost predicate RightBuilding(c: Config, s: State) {
    s.building.Some? ==>
      && (forall a :: a in s.building.value.addresses ==> c.coin.registrable(a))
      && (forall a :: Settled(s, a) ==> a in s.building.value.addresses)
  }

  ghost predicate Inv(c: Config, s: State) {
    RightAddresses(c, s) && RightJobs(c, s.jobs) && Covered(s) && RightBuilding(c, s)
  }

  lemma {:induction false} FillIsRight(c: Config, jd: JobData, a: string)
    requires SoundCoin(c.coin) && c.coin.registrable(a) && RightJob(c, jd) && FromTemplate(c, jd)
    ensures RightJob(c, FillJob(c.coin, jd, a)) && FromTemplate(c, FillJob(c.coin, jd, a))
    ensures a in FillJob(c.coin, jd, a).addressCoinb2s
    ensures forall b :: b in jd.addressCoinb2s ==> b in FillJob(c.coin, jd, a).addressCoinb2s
  {
    assert c.coin.build(jd.template, a).Some?;
  }

  lemma {:induction false} NewJobIsRight(c: Config, t: Template, addresses: seq<string>, id: nat, tip: Hex, now: int)
    requires SoundCoin(c.coin) && forall a :: a in addresses ==> c.coin.registrable(a)
    ensures RightJob(c, NewJob(c, t, addresses, id, tip, now)) && FromTemplate(c, NewJob(c, t, addresses, id, tip, now))
    ensures NewJob(c, t, addresses, id, tip, now).addressCoinb2s.Keys == Elements(addresses)
  {
    assert forall a :: a in addresses ==> c.coin.build(t, a).Some?;
    if addresses == [] {
      assert Elements(addresses) == {};
    } else {
      assert addresses[0] in addresses;
    }
  }

  lemma {:induction false} CountStep(c: Config, s: State, a: string, s': State)
    requires SoundCoin(c.coin) && Inv(c, s) && Next(c, s, RegisterCount(a), s')
    ensures Inv(c, s')
  {
    forall b ensures Settled(s', b) ==> Settled(s, b) {
      if b != a {
        assert b in s'.connected <==> b in s.connected;
      }
    }
  }

  lemma {:induction false} FillStep(c: Config, s: State, a: string, s': State)
    requires SoundCoin(c.coin) && Inv(c, s) && Next(c, s, RegisterFill(a), s')
    ensures Inv(c, s')
  {
    FilledJobs(c, s.jobs, a);
    forall b ensures Settled(s', b) ==> b == a || Settled(s, b) {
    }
  }

  lemma {:induction false} FilledJobs(c: Config, jobs: map<nat, JobData>, a: string)
    requires SoundCoin(c.coin) && c.coin.registrable(a) && RightJobs(c, jobs)
    ensures RightJobs(c, FillJobs(c.coin, jobs, a))
    ensures forall id :: id in jobs ==> a in FillJobs(c.coin, jobs, a)[id].addressCoinb2s
    ensures forall id, b :: id in jobs && b in jobs[id].addressCoinb2s
              ==> b in FillJobs(c.coin, jobs, a)[id].addressCoinb2s
  {
    forall id | id in jobs
      ensures RightJob(c, FillJobs(c.coin, jobs, a)[id]) && FromTemplate(c, FillJobs(c.coin, jobs, a)[id])
      ensures a in FillJobs(c.coin, jobs, a)[id].addressCoinb2s
      ensures forall b :: b in jobs[id].addressCoinb2s ==> b in FillJobs(c.coin, jobs, a)[id].addressCoinb2s
    {
      FillIsRight(c, jobs[id], a);
    }
  }

  lemma {:induction false} PublishStep(c: Config, s: State, now: int, s': State)
    requires SoundCoin(c.coin) && Inv(c, s) && Next(c, s, RefreshPublish(now), s')
    ensures Inv(c, s')
  {
    PublishedJobs(c, s, now, s');
    PublishedCovered(c, s, now, s');
  }

  lemma {:induction false} PublishedCovered(c: Config, s: State, now: int, s': State)
    requires SoundCoin(c.coin) && Covered(s) && RightBuilding(c, s) && Next(c, s, RefreshPublish(now), s')
    ensures Covered(s')
  {
    var b := s.building.value;
    NewJobIsRight(c, b.template, b.addresses, s.counter + 1, s.tip, now);
    forall a, id | Settled(s', a) && id in s'.jobs ensures a in s'.jobs[id].addressCoinb2s {
      assert Settled(s, a);
      if id != s.counter + 1 {
        assert id in s.jobs && s'.jobs[id] == s.jobs[id];
      }
    }
  }

  lemma {:induction false} PublishedJobs(c: Config, s: State, now: int, s': State)
    requires SoundCoin(c.coin) && RightJobs(c, s.jobs) && RightBuilding(c, s) && Next(c, s, RefreshPublish(now), s')
    ensures RightJobs(c, s'.jobs)
  {
    var b := s.building.value;
    NewJobIsRight(c, b.template, b.addresses, s.counter + 1, s.tip, now);
    forall id | id in s'.jobs ensures RightJob(c, s'.jobs[id]) && FromTemplate(c, s'.jobs[id]) {
      if id != s.counter + 1 {
        assert id in s.jobs && s'.jobs[id] == s.jobs[id];
      }
    }
  }

  lemma {:induction false} UnregisterStep(c: Config, s: State, a: string, s': State)
    requires SoundCoin(c.coin) && Inv(c, s) && Next(c, s, Unregister(a), s')
    ensures Inv(c, s')
  {
    assert forall b :: Settled(s', b) ==> Settled(s, b);
  }

  lemma {:induction false} SnapshotStep(c: Config, s: State, t: Template, addresses: seq<string>, s': State)
    requires SoundCoin(c.coin) && Inv(c, s) && Next(c, s, RefreshSnapshot(t, addresses), s')
    ensures Inv(c, s')
  {
    assert forall b :: Settled(s', b) ==> Settled(s, b);
  }

  lemma {:induction false} StepKeepsInv(c: Config, s: State, e: Event, s': State)
    requires SoundCoin(c.coin) && Inv(c, s) && Next(c, s, e, s')
    ensures Inv(c, s')
  {
    match e
    case RegisterCount(a) => CountStep(c, s, a, s');
    case RegisterFill(a) => FillStep(c, s, a, s');
    case RefreshSnapshot(t, addresses) => SnapshotStep(c, s, t, addresses, s');
    case RefreshPublish(now) => PublishStep(c, s, now, s');
    case Unregister(a) => UnregisterStep(c, s, a, s');
  }

  /** The first i events lead from an initial state through these states. */
  ghost predicate IsRun(c: Config, states: seq<State>, events: seq<Event>, i: nat)
    requires i <= |events| && i < |states|
  {
    if i == 0 then Initial(states[0])
    else IsRun(c, states, events, i - 1) && Next(c, states[i - 1], events[i - 1], states[i])
  }

  lemma {:induction false} RunKeepsInv(c: Config, states: seq<State>, events: seq<Event>, i: nat)
    requires SoundCoin(c.coin) && i <= |events| && i < |states| && IsRun(c, states, events, i)
    ensures Inv(c, states[i])
  {
    if i > 0 {
      RunKeepsInv(c, states, events, i - 1);
      StepKeepsInv(c, states[i - 1], events[i - 1], states[i]);
    }
  }

  /**
   * In every state of every interleaving: a connected address with no fill pending has a second half in
   * every retained job, every stored second half is right for its template, and a job holding any has the
   * right first half, both in itself and in what it announces. At most ten jobs are retained.
   */
  lemma {:induction false} EveryReachableState(c: Config, states: seq<State>, events: seq<Event>, i: nat)
    requires SoundCoin(c.coin) && i <= |events| && i < |states| && IsRun(c, states, events, i)
    ensures Covered(states[i])
    ensures forall a, id :: id in states[i].jobs && a in states[i].jobs[id].addressCoinb2s ==>
              var jd := states[i].jobs[id];
              && c.coin.registrable(a)
              && c.coin.build(jd.template, a) == Some(Parts(c.coin.first(jd.template), jd.addressCoinb2s[a]))
              && jd.coinb1 == jd.job.coinb1 == c.coin.first(jd.template)
    ensures |states[i].jobs| <= MAXJOBS
  {
    RunKeepsInv(c, states, events, i);
    JobsBounded(c, states, events, i);
  }

  lemma {:induction false} JobsBounded(c: Config, states: seq<State>, events: seq<Event>, i: nat)
    requires i <= |events| && i < |states| && IsRun(c, states, events, i)
    ensures |states[i].jobs| <= MAXJOBS
  {
    if i > 0 {
      JobsBounded(c, states, events, i - 1);
      var s, s' := states[i - 1], states[i];
      assert Next(c, s, events[i - 1], s');
      if events[i - 1].RegisterFill? {
        assert s'.jobs.Keys == s.jobs.Keys;
        SameSize(s.jobs, s'.jobs);
      }
    }
  }

  lemma {:induction false} SameSize(m: map<nat, JobData>, n: map<nat, JobData>)
    requires m.Keys == n.Keys
    ensures |m| == |n|
  {
    assert |m| == |m.Keys| && |n| == |n.Keys|;
  }

  // Counting calls.

  function CountOf(connected: map<string, nat>, a: string): nat {
    if a in connected then connected[a] else 0
  }

  function Registrations(events: seq<Event>, a: string): nat {
    if events == [] then 0
    else Registrations(events[..|events| - 1], a) + if events[|events| - 1] == RegisterCount(a) then 1 else 0
  }

  function Removals(events: seq<Event>, a: string): nat {
    if events == [] then 0
    else Removals(events[..|events| - 1], a) + if events[|events| - 1] == Unregister(a) then 1 else 0
  }

  /** Registration calls minus removal calls among the first i events. */
  function Balance(events: seq<Event>, a: string, i: nat): int
    requires i <= |events|
  {
    Registrations(events[..i], a) - Removals(events[..i], a)
  }

  lemma {:induction false} BalanceSteps(events: seq<Event>, a: string, i: nat)
    requires i < |events|
    ensures Balance(events, a, i + 1) == Balance(events, a, i) + (if events[i] == RegisterCount(a) then 1 else 0)
                                                               - (if events[i] == Unregister(a) then 1 else 0)
  {
    assert events[..i + 1][..i] == events[..i];
  }

  /** The count is the greatest excess of registrations over removals since some earlier moment. */
  ghost predicate GreatestExcess(events: seq<Event>, a: string, i: nat, count: int)
    requires i <= |events|
  {
    && (forall j :: 0 <= j <= i ==> Balance(events, a, i) - Balance(events, a, j) <= count)
    && (exists j :: 0 <= j <= i && Balance(events, a, i) - Balance(events, a, j) == count)
  }

  /**
   * In every run the count of an address is the greatest excess of registration calls over removal calls
   * since some moment of the run: a removal that finds no count is a call without effect.
   */
  lemma {:induction false} CountIsGreatestExcess(c: Config, states: seq<State>, events: seq<Event>, i: nat, a: string)
    requires i <= |events| && i < |states| && IsRun(c, states, events, i) && a != ""
    ensures GreatestExcess(events, a, i, CountOf(states[i].connected, a))
    ensures a in states[i].connected ==> states[i].connected[a] >= 1
  {
    if i > 0 {
      CountIsGreatestExcess(c, states, events, i - 1, a);
      assert Next(c, states[i - 1], events[i - 1], states[i]);
      CountStays(c, states[i - 1], events[i - 1], states[i], a);
      BalanceSteps(events, a, i - 1);
      ExcessSteps(events, a, i - 1, CountOf(states[i - 1].connected, a), CountOf(states[i].connected, a));
    } else {
      assert Balance(events, a, 0) - Balance(events, a, 0) == 0;
    }
  }

  lemma {:induction false} ExcessSteps(events: seq<Event>, a: string, i: nat, count: nat, count': nat)
    requires i < |events| && GreatestExcess(events, a, i, count)
    requires var d := Balance(events, a, i + 1) - Balance(events, a, i);
             -1 <= d <= 1 && count' == if d == -1 && count == 0 then 0 else count + d
    ensures GreatestExcess(events, a, i + 1, count')
  {
    var d := Balance(events, a, i + 1) - Balance(events, a, i);
    if d == -1 && count == 0 {
      assert Balance(events, a, i + 1) - Balance(events, a, i + 1) == count';
    } else {
      var j :| 0 <= j <= i && Balance(events, a, i) - Balance(events, a, j) == count;
      assert Balance(events, a, i + 1) - Balance(events, a, j) == count';
    }
  }

  /** Never more removals of an address than registrations of it. */
  predicate Balanced(events: seq<Event>, a: string, i: nat)
    requires i <= |events|
  {
    forall j :: 0 <= j <= i ==> Balance(events, a, j) >= 0
  }

  /**
   * The count is the number of registration calls minus the number of removal calls exactly when no
   * removal ever came without a registration to undo. A session that authorizes k times and is removed
   * once therefore leaves k - 1 behind.
   */
  lemma {:induction false} CountsAreCalls(c: Config, states: seq<State>, events: seq<Event>, i: nat, a: string)
    requires i <= |events| && i < |states| && IsRun(c, states, events, i) && a != ""
    ensures CountOf(states[i].connected, a) == Balance(events, a, i) <==> Balanced(events, a, i)
    ensures Balanced(events, a, i) ==> (a in states[i].connected <==> Balance(events, a, i) > 0)
  {
    CountIsGreatestExcess(c, states, events, i, a);
    assert Balance(events, a, 0) == 0;
    if CountOf(states[i].connected, a) == Balance(events, a, i) {
      forall j | 0 <= j <= i ensures Balance(events, a, j) >= 0 {
        assert Balance(events, a, i) - Balance(events, a, j) <= CountOf(states[i].connected, a);
      }
    }
  }

  lemma {:induction false} CountStays(c: Config, s: State, e: Event, s': State, a: string)
    requires Next(c, s, e, s') && a != "" && (a in s.connected ==> s.connected[a] >= 1)
    ensures CountOf(s'.connected, a) == if e == RegisterCount(a) then CountOf(s.connected, a) + 1
                                        else if e == Unregister(a) && a in s.connected then CountOf(s.connected, a) - 1
                                        else CountOf(s.connected, a)
    ensures a in s'.connected ==> s'.connected[a] >= 1
  {
  }

  /** One removal undoes k registrations of the same address exactly when k is one. */
  lemma {:induction false} RemovalUndoesOne(connected: map<string, nat>, a: string, k: nat)
    requires a != "" && k > 0 && (a in connected ==> connected[a] >= 1)
    ensures CountOut(CountedIn(connected, a, k), a) == connected <==> k == 1
  {
    CountedInIs(connected, a, k);
    if k == 1 {
      assert CountOut(CountedIn(connected, a, k), a).Keys == connected.Keys;
    } else {
      assert a in CountOut(CountedIn(connected, a, k), a);
    }
  }

  function CountedIn(connected: map<string, nat>, a: string, k: nat): map<string, nat> {
    if k == 0 then connected else CountIn(CountedIn(connected, a, k - 1), a)
  }

  lemma {:induction false} CountedInIs(connected: map<string, nat>, a: string, k: nat)
    requires k > 0
    ensures CountedIn(connected, a, k) == connected[a := CountOf(connected, a) + k]
  {
    if k > 1 {
      CountedInIs(connected, a, k - 1);
    }
  }
}
