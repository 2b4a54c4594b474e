/** Miner health with confirmation and recovery hysteresis (pocisys-hash-monitor/services/health.py). */
module Health {
  const WARNING_CONFIRMATIONS: nat := 2
  const UNHEALTHY_CONFIRMATIONS: nat := 3
  const RECOVERY_CONFIRMATIONS: nat := 2
  const MAX_HEALTH_TRANSITIONS: nat := 50

  datatype State = Unknown | Offline | Healthy | Warning | Unhealthy

  /** A rule that fired. */
  datatype Reason = Reason(code: string, severe: bool)

  /** One poll of one miner: reachable or not, the rules that fire, and how many signals were supported. */
  datatype Poll = Poll(online: bool, candidates: seq<Reason>, supported: nat)

  datatype Tracker = Tracker(state: State, ruleCounts: map<string, nat>, goodCount: nat, reasons: seq<Reason>)

  const NEW: Tracker := Tracker(Unknown, map[], 0, [])

  const API_OFFLINE: Reason := Reason("api_offline", true)
  const RECOVERY_PENDING: Reason := Reason("recovery_pending", false)

  datatype Transition = Transition(miner: string, before: State, after: State)

  // One poll.

  function Upsert(d: seq<Reason>, x: Reason): seq<Reason> {
    if d == [] then [x] else if d[0].code == x.code then [x] + d[1..] else [d[0]] + Upsert(d[1..], x)
  }

  /** The candidates by code; a later one replaces an earlier one. */
  function CandidateMap(candidates: seq<Reason>): seq<Reason> {
    if candidates == [] then [] else Upsert(CandidateMap(candidates[..|candidates| - 1]), candidates[|candidates| - 1])
  }

  function CountOf(counts: map<string, nat>, code: string): nat {
    if code in counts then counts[code] else 0
  }

  function Codes(rules: seq<Reason>): (r: set<string>)
    ensures forall c :: c in r <==> exists i :: 0 <= i < |rules| && rules[i].code == c
  {
    set i | 0 <= i < |rules| :: rules[i].code
  }

  function Counts(old_: map<string, nat>, rules: seq<Reason>): map<string, nat> {
    map code | code in Codes(rules) :: CountOf(old_, code) + 1
  }

  /** The rules confirmed often enough, severe ones only when asked for. */
  function Confirmed(rules: seq<Reason>, counts: map<string, nat>, times: nat, severeOnly: bool): seq<Reason> {
    if rules == [] then []
    else
      var init, last := Confirmed(rules[..|rules| - 1], counts, times, severeOnly), rules[|rules| - 1];
      if CountOf(counts, last.code) >= times && (severeOnly ==> last.severe) then init + [last] else init
  }

  function Without(rules: seq<Reason>, others: seq<Reason>): seq<Reason> {
    if rules == [] then []
    else
      var init, last := Without(rules[..|rules| - 1], others), rules[|rules| - 1];
      if last in others then init else init + [last]
  }

  predicate Bad(s: State) {
    s.Warning? || s.Unhealthy?
  }

  function Calm(supported: nat): State {
    if supported > 0 then Healthy else Unknown
  }

  function Evaluated(t: Tracker, p: Poll): Tracker {
    if !p.online then Tracker(Offline, map[], 0, [API_OFFLINE])
    else
      var rules := CandidateMap(p.candidates);
      var counts := Counts(t.ruleCounts, rules);
      var warning := Confirmed(rules, counts, WARNING_CONFIRMATIONS, false);
      var unhealthy := Confirmed(rules, counts, UNHEALTHY_CONFIRMATIONS, true);
      if unhealthy != [] then Tracker(Unhealthy, counts, 0, unhealthy + Without(warning, unhealthy))
      else if warning != [] then Tracker(Warning, counts, 0, warning)
      else if p.candidates != [] then
        if Bad(t.state) then Tracker(t.state, counts, 0, t.reasons) else Tracker(Calm(p.supported), counts, 0, [])
      else if Bad(t.state) && t.goodCount + 1 < RECOVERY_CONFIRMATIONS then
        Tracker(t.state, counts, t.goodCount + 1, [RECOVERY_PENDING])
      else Tracker(Calm(p.supported), counts, t.goodCount + 1, [])
  }

  class HealthEngine {
    var trackers: map<string, Tracker>
    var transitions: seq<Transition>

    function Now(key: string): Tracker
      reads this
    {
      if key in trackers then trackers[key] else NEW
    }

    constructor ()
      ensures trackers == map[] && transitions == []
    {
      trackers, transitions := map[], [];
    }

    /** reconfigure. */
    method Reconfigure(valid: set<string>)
      modifies `trackers
      ensures forall key :: Now(key) == if key in valid then old(Now(key)) else NEW
    {
      trackers := map key | key in trackers && key in valid :: trackers[key];
    }

    /** evaluate: the tracker moves on, and a change of state is pushed to the front of a bounded list. */
    method Evaluate(key: string, p: Poll) returns (state: State)
      modifies this
      ensures Now(key) == Evaluated(old(Now(key)), p) && state == Now(key).state
      ensures forall k :: k != key ==> Now(k) == old(Now(k))
      ensures transitions == if state == old(Now(key)).state then old(transitions)
                             else Bounded([Transition(key, old(Now(key)).state, state)] + old(transitions))
    {
      var t := Now(key);
      var reasons: seq<Reason>;
      if !p.online {
        state, reasons := Offline, [API_OFFLINE];
        t := t.(ruleCounts := map[], goodCount := 0);
      } else {
        var rules := MapCandidates(p.candidates);
        var counts := Counts(t.ruleCounts, rules);
        var warning := Select(rules, counts, WARNING_CONFIRMATIONS, false);
        var unhealthy := Select(rules, counts, UNHEALTHY_CONFIRMATIONS, true);
        t := t.(ruleCounts := counts);
        if unhealthy != [] {
          state, reasons := Unhealthy, unhealthy + Without(warning, unhealthy);
          t := t.(goodCount := 0);
        } else if warning != [] {
          state, reasons := Warning, warning;
          t := t.(goodCount := 0);
        } else if p.candidates != [] {
          t := t.(goodCount := 0);
          if Bad(t.state) {
            state, reasons := t.state, t.reasons;
          } else {
            state, reasons := Calm(p.supported), [];
          }
        } else {
          t := t.(goodCount := t.goodCount + 1);
          if Bad(t.state) && t.goodCount < RECOVERY_CONFIRMATIONS {
            state, reasons := t.state, [RECOVERY_PENDING];
          } else {
            state, reasons := Calm(p.supported), [];
          }
        }
      }
      if state != t.state {
        transitions := Bounded([Transition(key, t.state, state)] + transitions);
      }
      trackers := trackers[key := t.(state := state, reasons := reasons)];
    }

    static method MapCandidates(candidates: seq<Reason>) returns (rules: seq<Reason>)
      ensures rules == CandidateMap(candidates)
    {
      rules := [];
      for k := 0 to |candidates|
        invariant rules == CandidateMap(candidates[..k])
      {
        assert candidates[..k + 1][..k] == candidates[..k];
        rules := Upsert(rules, candidates[k]);
      }
      assert candidates[..|candidates|] == candidates;
    }

    static method Select(rules: seq<Reason>, counts: map<string, nat>, times: nat, severeOnly: bool)
      returns (r: seq<Reason>)
      ensures r == Confirmed(rules, counts, times, severeOnly)
    {
      r := [];
      for k := 0 to |rules|
        invariant r == Confirmed(rules[..k], counts, times, severeOnly)
      {
        assert rules[..k + 1][..k] == rules[..k];
        if CountOf(counts, rules[k].code) >= times && (!severeOnly || rules[k].severe) {
          r := r + [rules[k]];
        }
      }
      assert rules[..|rules|] == rules;
    }
  }

  function Bounded(ts: seq<Transition>): seq<Transition> {
    if |ts| > MAX_HEALTH_TRANSITIONS then ts[..MAX_HEALTH_TRANSITIONS] else ts
  }

  // Histories.

  function After(polls: seq<Poll>): Tracker {
    if polls == [] then NEW else Evaluated(After(polls[..|polls| - 1]), polls[|polls| - 1])
  }

  predicate Fires(p: Poll, code: string) {
    p.online && exists i :: 0 <= i < |p.candidates| && p.candidates[i].code == code
  }

  /** How many polls in a row, up to the last, a rule has fired. */
  function Streak(polls: seq<Poll>, code: string): nat {
    if polls == [] || !Fires(polls[|polls| - 1], code) then 0 else Streak(polls[..|polls| - 1], code) + 1
  }

  predicate Clean(p: Poll) {
    p.online && p.candidates == []
  }

  /** How many polls in a row, up to the last, were reachable and without any candidate. */
  function CleanStreak(polls: seq<Poll>): nat {
    if polls == [] || !Clean(polls[|polls| - 1]) then 0 else CleanStreak(polls[..|polls| - 1]) + 1
  }

  /** y occurs, and nothing after it has its code. */
  predicate LastOccurs(candidates: seq<Reason>, y: Reason) {
    && candidates != []
    && var last := candidates[|candidates| - 1];
       last == y || (last.code != y.code && LastOccurs(candidates[..|candidates| - 1], y))
  }

  /** The severity a rule has in a poll is that of its last occurrence. */
  predicate FiresSeverely(p: Poll, code: string) {
    p.online && LastOccurs(p.candidates, Reason(code, true))
  }

  predicate DistinctCodes(d: seq<Reason>) {
    forall i, j :: 0 <= i < j < |d| ==> d[i].code != d[j].code
  }

  lemma {:induction false} UpsertIs(d: seq<Reason>, x: Reason)
    requires DistinctCodes(d)
    ensures DistinctCodes(Upsert(d, x)) && Upsert(d, x) != []
    ensures forall y :: y in Upsert(d, x) <==> y == x || (y in d && y.code != x.code)
  {
    if d != [] {
      assert d == [d[0]] + d[1..];
      if d[0].code == x.code {
        assert forall y :: y in d[1..] ==> y.code != x.code;
      } else {
        UpsertIs(d[1..], x);
        forall y | y in Upsert(d[1..], x) ensures y.code != d[0].code {
        }
      }
    }
  }

  lemma {:induction false} CandidateMapIs(candidates: seq<Reason>)
    ensures DistinctCodes(CandidateMap(candidates)) && (CandidateMap(candidates) == [] <==> candidates == [])
    ensures forall y :: y in CandidateMap(candidates) <==> LastOccurs(candidates, y)
  {
    if candidates != [] {
      var init, last := candidates[..|candidates| - 1], candidates[|candidates| - 1];
      CandidateMapIs(init);
      UpsertIs(CandidateMap(init), last);
    }
  }

  lemma {:induction false} LastOccursIn(candidates: seq<Reason>, y: Reason)
    requires LastOccurs(candidates, y)
    ensures exists i :: 0 <= i < |candidates| && candidates[i] == y
  {
    var init := candidates[..|candidates| - 1];
    if candidates[|candidates| - 1] != y {
      LastOccursIn(init, y);
      var i :| 0 <= i < |init| && init[i] == y;
      assert candidates[i] == y;
    }
  }

  /** The codes of the candidate map are the codes that fire. */
  lemma {:induction false} CodesFire(p: Poll, code: string)
    requires p.online
    ensures code in Codes(CandidateMap(p.candidates)) <==> Fires(p, code)
    ensures Reason(code, true) in CandidateMap(p.candidates) <==> FiresSeverely(p, code)
  {
    CandidateMapIs(p.candidates);
    var rules := CandidateMap(p.candidates);
    assert Reason(code, true) in rules <==> LastOccurs(p.candidates, Reason(code, true));
    if Fires(p, code) {
      var y := LastWith(p.candidates, code);
      assert y in rules;
      var i :| 0 <= i < |rules| && rules[i] == y;
      assert rules[i].code == code;
    }
    if code in Codes(rules) {
      var i :| 0 <= i < |rules| && rules[i].code == code;
      assert rules[i] in rules;
      LastOccursIn(p.candidates, rules[i]);
    }
  }

  lemma {:induction false} LastWith(candidates: seq<Reason>, code: string) returns (y: Reason)
    requires exists i :: 0 <= i < |candidates| && candidates[i].code == code
    ensures y.code == code && LastOccurs(candidates, y)
  {
    var init, last := candidates[..|candidates| - 1], candidates[|candidates| - 1];
    assert candidates == init + [last];
    if last.code == code {
      y := last;
    } else {
      var i :| 0 <= i < |candidates| && candidates[i].code == code;
      assert init[i].code == code;
      y := LastWith(init, code);
    }
  }

  /** Rule counts are firing streaks and the good count is the clean streak. */
  lemma {:induction false} CountsAreStreaks(polls: seq<Poll>, code: string)
    ensures CountOf(After(polls).ruleCounts, code) == Streak(polls, code)
    ensures After(polls).goodCount == CleanStreak(polls)
  {
    if polls != [] {
      var before, p := polls[..|polls| - 1], polls[|polls| - 1];
      CountsAreStreaks(before, code);
      if p.online {
        CodesFire(p, code);
      }
    }
  }

  lemma {:induction false} ConfirmedIff(rules: seq<Reason>, counts: map<string, nat>, times: nat, severeOnly: bool)
    ensures forall y :: y in Confirmed(rules, counts, times, severeOnly)
                   <==> y in rules && CountOf(counts, y.code) >= times && (severeOnly ==> y.severe)
  {
    if rules != [] {
      var init, last := rules[..|rules| - 1], rules[|rules| - 1];
      ConfirmedIff(init, counts, times, severeOnly);
      assert rules == init + [last];
    }
  }

  /** Some rule fires severely now and has fired on three polls in a row. */
  ghost predicate ConfirmedUnhealthy(polls: seq<Poll>) {
    polls != [] && exists code :: FiresSeverely(polls[|polls| - 1], code)
                     && Streak(polls, code) >= UNHEALTHY_CONFIRMATIONS
  }

  ghost predicate ConfirmedWarning(polls: seq<Poll>) {
    exists code :: Streak(polls, code) >= WARNING_CONFIRMATIONS
  }

  lemma {:induction false} ConfirmedMeans(polls: seq<Poll>)
    requires polls != [] && polls[|polls| - 1].online
    ensures var rules, counts := CandidateMap(polls[|polls| - 1].candidates), After(polls).ruleCounts;
            && (Confirmed(rules, counts, UNHEALTHY_CONFIRMATIONS, true) != [] <==> ConfirmedUnhealthy(polls))
            && (Confirmed(rules, counts, WARNING_CONFIRMATIONS, false) != [] <==> ConfirmedWarning(polls))
  {
    var p := polls[|polls| - 1];
    var rules, counts := CandidateMap(p.candidates), After(polls).ruleCounts;
    ConfirmedIff(rules, counts, UNHEALTHY_CONFIRMATIONS, true);
    ConfirmedIff(rules, counts, WARNING_CONFIRMATIONS, false);
    var unhealthy, warning := Confirmed(rules, counts, UNHEALTHY_CONFIRMATIONS, true),
        Confirmed(rules, counts, WARNING_CONFIRMATIONS, false);
    if unhealthy != [] {
      assert unhealthy[0] in unhealthy;
      CountsAreStreaks(polls, unhealthy[0].code);
      CodesFire(p, unhealthy[0].code);
      assert unhealthy[0] == Reason(unhealthy[0].code, true);
    }
    if warning != [] {
      assert warning[0] in warning;
      CountsAreStreaks(polls, warning[0].code);
    }
    if code :| FiresSeverely(p, code) && Streak(polls, code) >= UNHEALTHY_CONFIRMATIONS {
      CodesFire(p, code);
      CountsAreStreaks(polls, code);
      assert Reason(code, true) in unhealthy;
    }
    if code :| Streak(polls, code) >= WARNING_CONFIRMATIONS {
      CodesFire(p, code);
      CountsAreStreaks(polls, code);
      var i :| 0 <= i < |rules| && rules[i].code == code;
      assert rules[i] in warning;
    }
  }

  /** A state that is not settled leaves on its second clean poll, so it never has two behind it. */
  lemma {:induction false} BadHasNotRecovered(polls: seq<Poll>)
    ensures Bad(After(polls).state) ==> CleanStreak(polls) < RECOVERY_CONFIRMATIONS
  {
    if polls != [] {
      var before := polls[..|polls| - 1];
      BadHasNotRecovered(before);
      CountsAreStreaks(polls, "");
      CountsAreStreaks(before, "");
    }
  }

  /**
   * The state after any polls, from the polls alone and the state one poll earlier: offline when
   * unreachable; unhealthy when a rule that fires severely now has fired three times in a row; else warning
   * when some rule has fired twice in a row; else a warning or unhealthy miner stays as it is until its
   * second clean poll in a row.
   */
  lemma {:induction false} StateIs(polls: seq<Poll>)
    requires polls != []
    ensures var p, before, state := polls[|polls| - 1], After(polls[..|polls| - 1]).state, After(polls).state;
            state == if !p.online then Offline
                     else if ConfirmedUnhealthy(polls) then Unhealthy
                     else if ConfirmedWarning(polls) then Warning
                     else if Bad(before) && CleanStreak(polls) < RECOVERY_CONFIRMATIONS then before
                     else Calm(p.supported)
  {
    CountsAreStreaks(polls, "");
    CountsAreStreaks(polls[..|polls| - 1], "");
    if polls[|polls| - 1].online {
      ConfirmedMeans(polls);
    }
  }

  /** Unhealthy is entered exactly when a rule that fires severely now completes three polls in a row. */
  lemma {:induction false} EntersUnhealthyIff(polls: seq<Poll>)
    requires polls != [] && !After(polls[..|polls| - 1]).state.Unhealthy?
    ensures After(polls).state.Unhealthy? <==> ConfirmedUnhealthy(polls)
  {
    StateIs(polls);
  }

  /** Warning and unhealthy are left directly for healthy or unknown exactly on the second clean poll in a row. */
  lemma {:induction false} RecoversIff(polls: seq<Poll>)
    requires polls != [] && Bad(After(polls[..|polls| - 1]).state)
    ensures After(polls).state.Healthy? || After(polls).state.Unknown? <==> CleanStreak(polls) == RECOVERY_CONFIRMATIONS
  {
    StateIs(polls);
    BadHasNotRecovered(polls[..|polls| - 1]);
    CleanIsUnconfirmed(polls);
    assert CleanStreak(polls) <= CleanStreak(polls[..|polls| - 1]) + 1;
  }

  lemma {:induction false} CleanIsUnconfirmed(polls: seq<Poll>)
    requires polls != []
    ensures CleanStreak(polls) > 0
            ==> polls[|polls| - 1].online && !ConfirmedUnhealthy(polls) && !ConfirmedWarning(polls)
  {
    if CleanStreak(polls) > 0 {
      assert Clean(polls[|polls| - 1]);
      forall code ensures !Fires(polls[|polls| - 1], code) && Streak(polls, code) == 0 {
      }
    }
  }
}
