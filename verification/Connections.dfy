/**
 * The sessions behind the registry's calls: each registers its address in the order of its handler, and is
 * removed once (pkg/stratum/server.go, pkg/stratum/session.go).
 */
module Connections {
  import opened BitcoinCash
  import opened Common
  import opened Jobs
  import opened Registry

  /** Where a session is in its authorize handler: not inside, with its fill to come, or with its calls done. */
  datatype Phase = Idle | Filling(address: string) | Registered(address: string)

  /** A session: the address its shares are paid to, empty before the first authorization, and its phase. */
  datatype Connection = Connection(miningAddress: string, phase: Phase)

  datatype Server = Server(registry: State, sessions: map<nat, Connection>)

  datatype Event =
    | Connect(id: nat)
    | Count(id: nat, address: string)
    | Fill(id: nat)
    | Adopt(id: nat)
    | Leave(id: nat)
    | Refresh(step: Registry.Event)

  ghost predicate Initial(s: Server) {
    Registry.Initial(s.registry) && s.sessions == map[]
  }

  ghost predicate Next(c: Config, s: Server, e: Event, s': Server) {
    match e
    case Connect(id) =>
      id !in s.sessions && s' == s.(sessions := s.sessions[id := Connection("", Idle)])
    case Count(id, a) =>
      && id in s.sessions && s.sessions[id].phase.Idle?
      && Registry.Next(c, s.registry, RegisterCount(a), s'.registry)
      && s'.sessions == s.sessions[id := s.sessions[id].(phase := Entered(s.registry, a))]
    case Fill(id) =>
      && id in s.sessions && s.sessions[id].phase.Filling?
      && Registry.Next(c, s.registry, RegisterFill(s.sessions[id].phase.address), s'.registry)
      && s'.sessions == s.sessions[id := s.sessions[id].(phase := Registered(s.sessions[id].phase.address))]
    case Adopt(id) =>
      && id in s.sessions && s.sessions[id].phase.Registered?
      && s' == s.(sessions := s.sessions[id := Connection(s.sessions[id].phase.address, Idle)])
    case Leave(id) =>
      && id in s.sessions && s.sessions[id].phase.Idle?
      && Registry.Next(c, s.registry, Unregister(s.sessions[id].miningAddress), s'.registry)
      && s'.sessions == s.sessions - {id}
    case Refresh(step) =>
      && (step.RefreshSnapshot? || step.RefreshPublish?)
      && Registry.Next(c, s.registry, step, s'.registry)
      && s'.sessions == s.sessions
  }

  /** A registration that counts its address as new goes on to fill it in. */
  function Entered(registry: State, a: string): Phase {
    if a in registry.connected then Registered(a) else Filling(a)
  }

  /** The first i events lead from an empty server through these states. */
  ghost predicate IsRun(c: Config, servers: seq<Server>, events: seq<Event>, i: nat)
    requires i <= |events| && i < |servers|
  {
    if i == 0 then Initial(servers[0])
    else IsRun(c, servers, events, i - 1) && Next(c, servers[i - 1], events[i - 1], servers[i])
  }

  // Who holds an address.

  datatype Role = Holder(address: string) | Claimant(address: string) | Filler(address: string)

  predicate Plays(x: Connection, r: Role) {
    match r
    case Holder(a) => x.miningAddress == a
    case Claimant(a) => !x.phase.Idle? && x.phase.address == a
    case Filler(a) => x.phase == Filling(a)
  }

  function Playing(sessions: map<nat, Connection>, r: Role): set<nat> {
    set id | id in sessions && Plays(sessions[id], r)
  }

  function One(b: bool): nat {
    if b then 1 else 0
  }

  lemma {:induction false} Removed(sessions: map<nat, Connection>, id: nat, r: Role)
    requires id in sessions
    ensures |Playing(sessions, r)| == |Playing(sessions - {id}, r)| + One(Plays(sessions[id], r))
  {
    var rest := Playing(sessions - {id}, r);
    assert Playing(sessions, r) == if Plays(sessions[id], r) then rest + {id} else rest;
  }

  lemma {:induction false} Added(sessions: map<nat, Connection>, id: nat, x: Connection, r: Role)
    requires id !in sessions
    ensures |Playing(sessions[id := x], r)| == |Playing(sessions, r)| + One(Plays(x, r))
  {
    var rest := Playing(sessions, r);
    assert Playing(sessions[id := x], r) == if Plays(x, r) then rest + {id} else rest;
  }

  lemma {:induction false} Changed(sessions: map<nat, Connection>, id: nat, x: Connection, r: Role)
    requires id in sessions
    ensures |Playing(sessions[id := x], r)| + One(Plays(sessions[id], r)) == |Playing(sessions, r)| + One(Plays(x, r))
  {
    Removed(sessions, id, r);
    Added(sessions - {id}, id, x, r);
    assert (sessions - {id})[id := x] == sessions[id := x];
  }

  // The invariant.

  /** A session that adopts an address lets go of the one it had, without a removal call. */
  predicate Abandons(s: Server, e: Event, a: string) {
    e.Adopt? && e.id in s.sessions && s.sessions[e.id].miningAddress == a
  }

  /** How often that happened to an address in the first i steps. */
  function Abandonments(servers: seq<Server>, events: seq<Event>, i: nat, a: string): nat
    requires i <= |events| && i <= |servers|
  {
    if i == 0 then 0 else Abandonments(servers, events, i - 1, a) + One(Abandons(servers[i - 1], events[i - 1], a))
  }

  /** One registration is counted for every session that holds the address or is about to, and for each left behind. */
  predicate Counted(s: Server, a: string, left: nat) {
    a != "" ==>
      && (a in s.registry.connected ==> s.registry.connected[a] >= 1)
      && CountOf(s.registry.connected, a)
        == |Playing(s.sessions, Holder(a))| + |Playing(s.sessions, Claimant(a))| + left
  }

  /** The registry's pending fills are those of the sessions on their way to one. */
  predicate Pending(s: Server, a: string) {
    PendingOf(s.registry, a) == |Playing(s.sessions, Filler(a))|
  }

  lemma {:induction false} ChangeKeeps(s: Server, s': Server, id: nat, x: Connection, a: string, left: nat, left': nat)
    requires id in s.sessions && s'.sessions == s.sessions[id := x] && Counted(s, a, left) && Pending(s, a)
    requires a != "" && a in s'.registry.connected ==> s'.registry.connected[a] >= 1
    requires var was := s.sessions[id];
             && CountOf(s'.registry.connected, a) + One(Plays(was, Holder(a))) + One(Plays(was, Claimant(a))) + left
                == CountOf(s.registry.connected, a) + One(Plays(x, Holder(a))) + One(Plays(x, Claimant(a))) + left'
             && PendingOf(s'.registry, a) + One(Plays(was, Filler(a)))
               == PendingOf(s.registry, a) + One(Plays(x, Filler(a)))
    ensures Counted(s', a, left') && Pending(s', a)
  {
    Changed(s.sessions, id, x, Holder(a));
    Changed(s.sessions, id, x, Claimant(a));
    Changed(s.sessions, id, x, Filler(a));
  }

  lemma {:induction false} ConnectKeeps(s: Server, s': Server, id: nat, a: string, left: nat)
    requires id !in s.sessions && s' == s.(sessions := s.sessions[id := Connection("", Idle)])
    requires Counted(s, a, left) && Pending(s, a)
    ensures Counted(s', a, left) && Pending(s', a)
  {
    Added(s.sessions, id, Connection("", Idle), Holder(a));
    Added(s.sessions, id, Connection("", Idle), Claimant(a));
    Added(s.sessions, id, Connection("", Idle), Filler(a));
  }

  lemma {:induction false} LeaveKeeps(s: Server, s': Server, id: nat, a: string, left: nat)
    requires id in s.sessions && s.sessions[id].phase.Idle? && s'.sessions == s.sessions - {id}
    requires Counted(s, a, left) && Pending(s, a)
    requires s'.registry == s.registry.(connected := CountOut(s.registry.connected, s.sessions[id].miningAddress))
    ensures Counted(s', a, left) && Pending(s', a)
  {
    Removed(s.sessions, id, Holder(a));
    Removed(s.sessions, id, Claimant(a));
    Removed(s.sessions, id, Filler(a));
  }

  lemma {:induction false} CountKeeps(c: Config, s: Server, s': Server, id: nat, b: string, a: string, left: nat)
    requires Next(c, s, Count(id, b), s') && Counted(s, a, left) && Pending(s, a)
    ensures Counted(s', a, left) && Pending(s', a)
  {
    ChangeKeeps(s, s', id, s'.sessions[id], a, left, left);
  }

  lemma {:induction false} FillKeeps(c: Config, s: Server, s': Server, id: nat, a: string, left: nat)
    requires Next(c, s, Fill(id), s') && Counted(s, a, left) && Pending(s, a)
    ensures Counted(s', a, left) && Pending(s', a)
  {
    ChangeKeeps(s, s', id, s'.sessions[id], a, left, left);
  }

  lemma {:induction false} AdoptKeeps(c: Config, s: Server, s': Server, id: nat, a: string, left: nat)
    requires Next(c, s, Adopt(id), s') && Counted(s, a, left) && Pending(s, a)
    ensures Counted(s', a, left + One(Abandons(s, Adopt(id), a))) && Pending(s', a)
  {
    ChangeKeeps(s, s', id, s'.sessions[id], a, left, left + One(Abandons(s, Adopt(id), a)));
  }

  lemma {:induction false} StepKeepsCounts(c: Config, s: Server, e: Event, s': Server, a: string, left: nat)
    requires Next(c, s, e, s') && Counted(s, a, left) && Pending(s, a)
    ensures Counted(s', a, left + One(Abandons(s, e, a))) && Pending(s', a)
  {
    match e
    case Connect(id) => ConnectKeeps(s, s', id, a, left);
    case Count(id, b) => CountKeeps(c, s, s', id, b, a, left);
    case Fill(id) => FillKeeps(c, s, s', id, a, left);
    case Adopt(id) => AdoptKeeps(c, s, s', id, a, left);
    case Leave(id) => LeaveKeeps(s, s', id, a, left);
    case Refresh(_) =>
  }

  /** Every step of a session or of the refresh is a step of the registry, or leaves it alone. */
  lemma {:induction false} StepKeepsRegistry(c: Config, s: Server, e: Event, s': Server)
    requires SoundCoin(c.coin) && Registry.Inv(c, s.registry) && Next(c, s, e, s')
    ensures Registry.Inv(c, s'.registry)
  {
    match e
    case Connect(_) =>
    case Count(_, a) => StepKeepsInv(c, s.registry, RegisterCount(a), s'.registry);
    case Fill(id) => StepKeepsInv(c, s.registry, RegisterFill(s.sessions[id].phase.address), s'.registry);
    case Adopt(_) =>
    case Leave(id) => StepKeepsInv(c, s.registry, Unregister(s.sessions[id].miningAddress), s'.registry);
    case Refresh(step) => StepKeepsInv(c, s.registry, step, s'.registry);
  }

  lemma {:induction false} RunKeepsRegistry(c: Config, servers: seq<Server>, events: seq<Event>, i: nat)
    requires SoundCoin(c.coin) && i <= |events| && i < |servers| && IsRun(c, servers, events, i)
    ensures Registry.Inv(c, servers[i].registry)
  {
    if i > 0 {
      RunKeepsRegistry(c, servers, events, i - 1);
      StepKeepsRegistry(c, servers[i - 1], events[i - 1], servers[i]);
    }
  }

  lemma {:induction false} RunKeepsCounts(c: Config, servers: seq<Server>, events: seq<Event>, i: nat, a: string)
    requires i <= |events| && i < |servers| && IsRun(c, servers, events, i)
    ensures Counted(servers[i], a, Abandonments(servers, events, i, a)) && Pending(servers[i], a)
  {
    if i > 0 {
      RunKeepsCounts(c, servers, events, i - 1, a);
      StepKeepsCounts(c, servers[i - 1], events[i - 1], servers[i], a, Abandonments(servers, events, i - 1, a));
    } else {
      BeginsCounted(servers[0], a);
    }
  }

  lemma {:induction false} BeginsCounted(s: Server, a: string)
    requires Initial(s)
    ensures Counted(s, a, 0) && Pending(s, a)
  {
    assert Playing(s.sessions, Holder(a)) == Playing(s.sessions, Claimant(a)) == Playing(s.sessions, Filler(a)) == {};
  }

  /**
   * In every interleaving an address is connected exactly while some session holds it or is registering it,
   * or after some session let go of it by authorizing again: nothing ever undoes such a registration.
   */
  lemma {:induction false} ConnectedIff(c: Config, servers: seq<Server>, events: seq<Event>, i: nat, a: string)
    requires i <= |events| && i < |servers| && IsRun(c, servers, events, i) && a != ""
    ensures a in servers[i].registry.connected <==>
            || Abandonments(servers, events, i, a) > 0
            || exists id :: id in servers[i].sessions
                            && (Plays(servers[i].sessions[id], Holder(a))
                                || Plays(servers[i].sessions[id], Claimant(a)))
  {
    RunKeepsCounts(c, servers, events, i, a);
    var sessions := servers[i].sessions;
    AnyPlaying(sessions, Holder(a));
    AnyPlaying(sessions, Claimant(a));
  }

  lemma {:induction false} AnyPlaying(sessions: map<nat, Connection>, r: Role)
    ensures |Playing(sessions, r)| > 0 <==> exists id :: id in sessions && Plays(sessions[id], r)
  {
    if exists id :: id in sessions && Plays(sessions[id], r) {
      var id :| id in sessions && Plays(sessions[id], r);
      assert id in Playing(sessions, r);
    } else {
      assert Playing(sessions, r) == {};
    }
  }

  /** Every retained job pays this address: its second half is there, and the first half beside it is right. */
  ghost predicate PaidByEveryJob(c: Config, registry: State, a: string) {
    forall id :: id in registry.jobs ==>
      var jd := registry.jobs[id];
      && a in jd.addressCoinb2s
      && c.coin.build(jd.template, a) == Some(Parts(c.coin.first(jd.template), jd.addressCoinb2s[a]))
      && jd.coinb1 == jd.job.coinb1 == c.coin.first(jd.template)
  }

  /**
   * In every interleaving of any number of sessions and of the refresh: the address of every session still
   * there stays counted however often others leave, and while no session is between counting and filling
   * it in, every retained job pays it.
   */
  lemma {:induction false} EverySessionIsPaid(c: Config, servers: seq<Server>, events: seq<Event>, i: nat, id: nat)
    requires SoundCoin(c.coin) && i <= |events| && i < |servers| && IsRun(c, servers, events, i)
    requires id in servers[i].sessions && servers[i].sessions[id].miningAddress != ""
    ensures var a := servers[i].sessions[id].miningAddress;
            && a in servers[i].registry.connected
            && ((forall other :: other in servers[i].sessions ==> servers[i].sessions[other].phase != Filling(a)) ==>
                  PaidByEveryJob(c, servers[i].registry, a))
  {
    var s, a := servers[i], servers[i].sessions[id].miningAddress;
    assert Plays(s.sessions[id], Holder(a));
    ConnectedIff(c, servers, events, i, a);
    RunKeepsCounts(c, servers, events, i, a);
    RunKeepsRegistry(c, servers, events, i);
    if forall other :: other in s.sessions ==> s.sessions[other].phase != Filling(a) {
      AnyPlaying(s.sessions, Filler(a));
      assert Settled(s.registry, a);
    }
  }
}
