/** The ten-share history and best difficulties of a pool (pocisys-hash-monitor/services/pool_logs.py). */
module ShareHistory {
  import opened Common

  const MAXSHARES: nat := 10
  const MAXBATCH: nat := 100
  const MAXTEXT: nat := 128

  datatype Share = Share(id: string, timestamp: int, worker: string, difficulty: real)

  // Normalizing.

  /** One JSON field as the normalizer sees it: missing or null, a number, or text with the number it parses to. */
  datatype Field = Absent | Number(value: real) | Text(parsed: Option<real>)

  /** A share as reported: its three difficulty fields in order of preference, and the rest once chosen. */
  datatype Raw =
    | NotARecord
    | Record(difficulty: Field, shareDifficulty: Field, diff: Field, timestamp: int, worker: string,
             fingerprint: string,
             stamp: string)

  /** Python's truth of a field. Text here is never empty: empty text is Absent. */
  predicate Truthy(f: Field) {
    f.Text? || (f.Number? && f.value != 0.0)
  }

  /** a or b or c: the first that is true, else the last. */
  function FirstTrue(a: Field, b: Field, c: Field): Field {
    if Truthy(a) then a else if Truthy(b) then b else c
  }

  /** _difficulty. */
  function Difficulty(f: Field): Option<real> {
    match f
    case Absent => None
    case Number(v) => if v >= 0.0 then Some(v) else None
    case Text(parsed) => if parsed.Some? && parsed.value >= 0.0 then parsed else None
  }

  function Cut(s: string): string {
    if |s| > MAXTEXT then s[..MAXTEXT] else s
  }

  function Keyed(poolKey: string, fingerprint: string): string {
    if poolKey + ":" <= fingerprint then fingerprint else poolKey + ":" + fingerprint
  }

  /** _normalize_share; `stamp` is the text made of time, worker and difficulty when there is no id. */
  function Normalized(raw: Raw, poolKey: string): Option<Share> {
    if raw.NotARecord? then None
    else
      match Difficulty(FirstTrue(raw.difficulty, raw.shareDifficulty, raw.diff))
      case None => None
      case Some(difficulty) =>
        var worker := Cut(if raw.worker == "" then "worker" else raw.worker);
        var fingerprint := if raw.fingerprint == "" then raw.stamp else Cut(raw.fingerprint);
        Some(Share(Keyed(poolKey, fingerprint), raw.timestamp, worker, difficulty))
  }

  /** A stored share, as it stands in the history file. */
  function Stored(s: Share): Raw {
    Record(Number(s.difficulty), Absent, Absent, s.timestamp, s.worker, s.id, "")
  }

  /** The id still fits when the file is read. The second case is a key so long that the cut leaves only its start. */
  predicate IdFits(s: Share, poolKey: string) {
    |s.id| <= MAXTEXT || (|poolKey| >= MAXTEXT && s.id == poolKey + ":" + poolKey[..MAXTEXT])
  }

  /**
   * Reading a stored share back gives the same share exactly when its difficulty is not zero and its id,
   * pool key included, still fits. A zero counts as missing, so such a share is dropped; a longer id loses
   * its end.
   */
  lemma {:induction false} ReloadedIff(raw: Raw, poolKey: string)
    requires Normalized(raw, poolKey).Some?
    ensures var s := Normalized(raw, poolKey).value;
            (Normalized(Stored(s), poolKey) == Some(s) <==> s.difficulty > 0.0 && IdFits(s, poolKey))
    ensures Normalized(Stored(Normalized(raw, poolKey).value), poolKey).None?
            <==> Normalized(raw, poolKey).value.difficulty == 0.0
  {
    var s := Normalized(raw, poolKey).value;
    assert poolKey + ":" <= s.id;
    if |s.id| > MAXTEXT {
      var cut := s.id[..MAXTEXT];
      if |poolKey| < MAXTEXT {
        assert poolKey + ":" <= cut;
        assert |Keyed(poolKey, cut)| == MAXTEXT;
      } else {
        assert cut == poolKey[..MAXTEXT];
        assert |poolKey + ":"| > |cut|;
      }
    }
  }

  /** A share reported with the text "0" is kept, and dropped when the file is read. */
  lemma {:induction false} ZeroIsDropped()
    ensures var raw := Record(Text(Some(0.0)), Absent, Absent, 5, "w", "x", "");
            && Normalized(raw, "pool") == Some(Share("pool:x", 5, "w", 0.0))
            && Normalized(Stored(Share("pool:x", 5, "w", 0.0)), "pool") == None
  {
    assert "pool" + ":" == "pool:" && "pool:" + "x" == "pool:x" && !("pool:" <= "x");
  }

  /** A share with a 128-character id is kept whole, and comes back with the end of its id missing. */
  lemma {:induction false} LongIdIsCut()
    ensures var id := seq(MAXTEXT, i => 'a');
            var raw := Record(Number(1.0), Absent, Absent, 5, "w", id, "");
            && Normalized(raw, "pool") == Some(Share("pool:" + id, 5, "w", 1.0))
            && Normalized(Stored(Share("pool:" + id, 5, "w", 1.0)), "pool")
              == Some(Share("pool:" + id[..MAXTEXT - 5], 5, "w", 1.0))
  {
    var id := seq(MAXTEXT, i => 'a');
    assert "pool" + ":" == "pool:";
    assert id[0] == 'a' && "pool:"[0] == 'p';
    assert ("pool:" + id)[..MAXTEXT] == "pool:" + id[..MAXTEXT - 5];
  }

  // Newest first.

  /** Python's order on text. */
  predicate TextLess(a: string, b: string) {
    if b == "" then false
    else if a == "" then true
    else a[0] < b[0] || (a[0] == b[0] && TextLess(a[1..], b[1..]))
  }

  lemma {:induction false} TextOrder(a: string, b: string)
    ensures TextLess(a, b) ==> !TextLess(b, a) && a != b
    ensures TextLess(a, b) || a == b || TextLess(b, a)
  {
    if a != "" && b != "" && a[0] == b[0] {
      TextOrder(a[1..], b[1..]);
      assert a == [a[0]] + a[1..] && b == [b[0]] + b[1..];
    }
  }

  lemma {:induction false} TextTransitive(a: string, b: string, c: string)
    requires TextLess(a, b) && TextLess(b, c)
    ensures TextLess(a, c)
  {
    if a != "" && a[0] == b[0] == c[0] {
      TextTransitive(a[1..], b[1..], c[1..]);
    }
  }

  predicate Newer(a: Share, b: Share) {
    a.timestamp > b.timestamp || (a.timestamp == b.timestamp && TextLess(b.id, a.id))
  }

  lemma {:induction false} NewerOrder(a: Share, b: Share)
    ensures Newer(a, b) ==> !Newer(b, a)
    ensures a.id != b.id ==> Newer(a, b) || Newer(b, a)
  {
    TextOrder(a.id, b.id);
  }

  lemma {:induction false} NewerTransitive(a: Share, b: Share, c: Share)
    requires Newer(a, b) && Newer(b, c)
    ensures Newer(a, c)
  {
    if a.timestamp == c.timestamp {
      TextTransitive(c.id, b.id, a.id);
    }
  }

  predicate Descending(s: seq<Share>) {
    forall i, j :: 0 <= i < j < |s| ==> Newer(s[i], s[j])
  }

  predicate DistinctIds(s: seq<Share>) {
    forall i, j :: 0 <= i < j < |s| ==> s[i].id != s[j].id
  }

  function Insert(x: Share, s: seq<Share>): seq<Share> {
    if s == [] then [x] else if Newer(x, s[0]) then [x] + s else [s[0]] + Insert(x, s[1..])
  }

  /** sorted(…, reverse=True) by timestamp and id. */
  function Sorted(s: seq<Share>): seq<Share> {
    if s == [] then [] else Insert(s[|s| - 1], Sorted(s[..|s| - 1]))
  }

  lemma {:induction false} InsertKeeps(x: Share, s: seq<Share>)
    requires Descending(s) && forall i :: 0 <= i < |s| ==> s[i].id != x.id
    ensures Descending(Insert(x, s)) && |Insert(x, s)| == |s| + 1
    ensures forall y :: y in Insert(x, s) <==> y == x || y in s
  {
    if s != [] {
      if Newer(x, s[0]) {
        forall j | 0 <= j < |s| ensures Newer(x, s[j]) {
          if j > 0 {
            NewerTransitive(x, s[0], s[j]);
          }
        }
      } else {
        NewerOrder(x, s[0]);
        InsertKeeps(x, s[1..]);
        assert s == [s[0]] + s[1..];
        forall y | y in Insert(x, s[1..]) ensures Newer(s[0], y) {
          if y in s[1..] {
            assert Newer(s[0], y);
          }
        }
      }
    }
  }

  lemma {:induction false} SortedIs(s: seq<Share>)
    requires DistinctIds(s)
    ensures Descending(Sorted(s)) && |Sorted(s)| == |s|
    ensures forall y :: y in Sorted(s) <==> y in s
  {
    if s != [] {
      var init, last := s[..|s| - 1], s[|s| - 1];
      SortedIs(init);
      assert s == init + [last];
      forall i | 0 <= i < |Sorted(init)| ensures Sorted(init)[i].id != last.id {
        assert Sorted(init)[i] in init;
      }
      InsertKeeps(last, Sorted(init));
    }
  }

  // Merging.

  datatype Best = Best(difficulty: Option<real>, worker: Option<string>)

  datatype Pool = Pool(history: seq<Share>, session: Best, allTime: Best, resetAfter: int)

  const EMPTY: Pool := Pool([], Best(None, None), Best(None, None), 0)

  function FirstOf(raw: seq<Option<Share>>): seq<Option<Share>> {
    if |raw| > MAXBATCH then raw[..MAXBATCH] else raw
  }

  /** The shares of a batch that are looked at: normalized and later than the last clear. */
  function Considered(raw: seq<Option<Share>>, resetAfter: int): seq<Share> {
    if raw == [] then []
    else
      var init, last := Considered(raw[..|raw| - 1], resetAfter), raw[|raw| - 1];
      if last.None? || last.value.timestamp <= resetAfter then init else init + [last.value]
  }

  /** Assignment to a dictionary keyed by id: in place when the id is there, at the end when it is not. */
  function Upsert(d: seq<Share>, x: Share): seq<Share> {
    if d == [] then [x] else if d[0].id == x.id then [x] + d[1..] else [d[0]] + Upsert(d[1..], x)
  }

  function UpsertAll(d: seq<Share>, xs: seq<Share>): seq<Share> {
    if xs == [] then d else Upsert(UpsertAll(d, xs[..|xs| - 1]), xs[|xs| - 1])
  }

  predicate Improves(b: Best, x: Share) {
    || x.difficulty > (if b.difficulty.Some? then b.difficulty.value else 0.0)
    || (b.difficulty == Some(x.difficulty) && (b.worker.None? || b.worker.value == ""))
  }

  function Improved(b: Best, x: Share): Best {
    if Improves(b, x) then Best(Some(x.difficulty), Some(x.worker)) else b
  }

  function ImprovedBy(b: Best, xs: seq<Share>): Best {
    if xs == [] then b else Improved(ImprovedBy(b, xs[..|xs| - 1]), xs[|xs| - 1])
  }

  function Newest(d: seq<Share>): seq<Share> {
    if |Sorted(d)| > MAXSHARES then Sorted(d)[..MAXSHARES] else Sorted(d)
  }

  function Merged(p: Pool, raw: seq<Option<Share>>): Pool {
    var xs := Considered(FirstOf(raw), p.resetAfter);
    Pool(Newest(UpsertAll(p.history, xs)), ImprovedBy(p.session, xs), ImprovedBy(p.allTime, xs), p.resetAfter)
  }

  /** clear_share_history, for a pool that is configured or not. */
  function Cleared(configured: bool, now: int): Pool {
    EMPTY.(resetAfter := if configured then now else 0)
  }

  predicate SameIds(s: seq<Share>, t: seq<Share>) {
    |s| == |t| && forall i :: 0 <= i < |s| ==> s[i].id == t[i].id
  }

  class PoolLogService {
    var shareHistory: map<string, seq<Share>>
    var sessionBest: map<string, Best>
    var allTimeBest: map<string, Best>
    var resetAfter: map<string, int>

    function Now(key: string): Pool
      reads this
    {
      Pool(if key in shareHistory then shareHistory[key] else [],
           if key in sessionBest then sessionBest[key] else Best(None, None),
           if key in allTimeBest then allTimeBest[key] else Best(None, None),
           if key in resetAfter then resetAfter[key] else 0)
    }

    constructor ()
      ensures forall key :: Now(key) == EMPTY
    {
      shareHistory, sessionBest, allTimeBest, resetAfter := map[], map[], map[], map[];
    }

    /** _merge_shares; `changed` says whether the history file is written. */
    method MergeShares(key: string, raw: seq<Option<Share>>) returns (changed: bool)
      modifies this
      ensures Now(key) == Merged(old(Now(key)), raw)
      ensures forall k :: k != key ==> Now(k) == old(Now(k))
      ensures !changed ==>
        && Now(key).session == old(Now(key)).session && Now(key).allTime == old(Now(key)).allTime
        && SameIds(Now(key).history, old(Now(key)).history)
    {
      var p := Now(key);
      var byId, session, allTime;
      byId, session, allTime, changed := ConsiderAll(p, FirstOf(raw));
      var merged := Newest(byId);
      if !SameIds(merged, p.history) {
        changed := true;
      }
      shareHistory := shareHistory[key := merged];
      sessionBest := sessionBest[key := session];
      allTimeBest := allTimeBest[key := allTime];
    }

    /** The loop of _merge_shares. */
    static method ConsiderAll(p: Pool, batch: seq<Option<Share>>)
      returns (byId: seq<Share>, session: Best, allTime: Best, changed: bool)
      ensures byId == UpsertAll(p.history, Considered(batch, p.resetAfter))
      ensures session == ImprovedBy(p.session, Considered(batch, p.resetAfter))
      ensures allTime == ImprovedBy(p.allTime, Considered(batch, p.resetAfter))
      ensures !changed ==> session == p.session && allTime == p.allTime
    {
      byId, session, allTime, changed := p.history, p.session, p.allTime, false;
      var k := 0;
      while k < |batch|
        invariant 0 <= k <= |batch|
        invariant byId == UpsertAll(p.history, Considered(batch[..k], p.resetAfter))
        invariant session == ImprovedBy(p.session, Considered(batch[..k], p.resetAfter))
        invariant allTime == ImprovedBy(p.allTime, Considered(batch[..k], p.resetAfter))
        invariant !changed ==> session == p.session && allTime == p.allTime
      {
        assert batch[..k + 1][..k] == batch[..k];
        var share := batch[k];
        k := k + 1;
        if share.None? || share.value.timestamp <= p.resetAfter {
          continue;
        }
        var x := share.value;
        OneMore(p, Considered(batch[..k - 1], p.resetAfter), x);
        if forall i :: 0 <= i < |byId| ==> byId[i].id != x.id {
          changed := true;
        }
        byId := Upsert(byId, x);
        if Improves(session, x) {
          session := Best(Some(x.difficulty), Some(x.worker));
          changed := true;
        }
        if Improves(allTime, x) {
          allTime := Best(Some(x.difficulty), Some(x.worker));
          changed := true;
        }
      }
      assert batch[..k] == batch;
    }

    /** clear_share_history. */
    method ClearShareHistory(active: set<string>, now: int)
      modifies this
      ensures forall key :: Now(key) == Cleared(key in active, now)
    {
      shareHistory := map[];
      sessionBest := map[];
      allTimeBest := map[];
      resetAfter := map key | key in active :: now;
    }

    /** reconfigure: pools no longer configured are forgotten. */
    method Reconfigure(active: set<string>)
      modifies this
      ensures forall key :: Now(key) == if key in active then old(Now(key)) else EMPTY
    {
      shareHistory := map key | key in shareHistory && key in active :: shareHistory[key];
      sessionBest := map key | key in sessionBest && key in active :: sessionBest[key];
      allTimeBest := map key | key in allTimeBest && key in active :: allTimeBest[key];
      resetAfter := map key | key in resetAfter && key in active :: resetAfter[key];
    }
  }

  lemma {:induction false} OneMore(p: Pool, xs: seq<Share>, x: Share)
    ensures UpsertAll(p.history, xs + [x]) == Upsert(UpsertAll(p.history, xs), x)
    ensures ImprovedBy(p.session, xs + [x]) == Improved(ImprovedBy(p.session, xs), x)
    ensures ImprovedBy(p.allTime, xs + [x]) == Improved(ImprovedBy(p.allTime, xs), x)
  {
    assert (xs + [x])[..|xs|] == xs;
  }

  // Incremental equals batch.

  /** An id always carries the same record. */
  predicate Consistent(all: set<Share>) {
    forall x, y :: x in all && y in all && x.id == y.id ==> x == y
  }

  /** The ten newest of a set, newest first. */
  predicate IsTopTen(h: seq<Share>, all: set<Share>) {
    && Descending(h) && |h| <= MAXSHARES
    && (forall x :: x in h ==> x in all)
    && (forall x :: x in all && x !in h ==> |h| == MAXSHARES && Newer(h[MAXSHARES - 1], x))
  }

  function Elements(s: seq<Share>): set<Share> {
    set x | x in s
  }

  lemma {:induction false} UpsertIs(d: seq<Share>, x: Share)
    requires DistinctIds(d) && forall y :: y in d && y.id == x.id ==> y == x
    ensures DistinctIds(Upsert(d, x))
    ensures forall y :: y in Upsert(d, x) <==> y == x || y in d
  {
    if d != [] {
      assert d == [d[0]] + d[1..];
      if d[0].id != x.id {
        UpsertIs(d[1..], x);
        forall y | y in Upsert(d[1..], x) ensures y.id != d[0].id {
        }
      }
    }
  }

  lemma {:induction false} UpsertAllIs(d: seq<Share>, xs: seq<Share>)
    requires DistinctIds(d)
    requires forall x, y :: (x in d || x in xs) && (y in d || y in xs) && x.id == y.id ==> x == y
    ensures DistinctIds(UpsertAll(d, xs))
    ensures forall y :: y in UpsertAll(d, xs) <==> y in d || y in xs
  {
    if xs != [] {
      var init, last := xs[..|xs| - 1], xs[|xs| - 1];
      assert xs == init + [last];
      UpsertAllIs(d, init);
      UpsertIs(UpsertAll(d, init), last);
    }
  }

  lemma {:induction false} DescendingDistinct(h: seq<Share>, all: set<Share>)
    requires Descending(h) && Consistent(all) && forall x :: x in h ==> x in all
    ensures DistinctIds(h)
  {
    forall i, j | 0 <= i < j < |h| ensures h[i].id != h[j].id {
      NewerOrder(h[i], h[j]);
    }
  }

  /** An element of a descending list sits at least as deep in any descending list that contains all before it. */
  lemma {:induction false} SitsDeep(h: seq<Share>, m: seq<Share>, i: nat) returns (j: nat)
    requires Descending(h) && Descending(m) && i < |h| && forall x :: x in h ==> x in m
    ensures i <= j < |m| && m[j] == h[i]
  {
    assert h[i] in h && h[i] in m;
    j :| 0 <= j < |m| && m[j] == h[i];
    if i > 0 {
      var j' := SitsDeep(h, m, i - 1);
      NewerOrder(h[i - 1], h[i]);
    }
  }

  /** The ten newest of what is kept and a batch are the ten newest of everything and that batch. */
  lemma {:induction false} MergeIsTopTen(h: seq<Share>, all: set<Share>, xs: seq<Share>)
    requires IsTopTen(h, all) && Consistent(all + Elements(xs))
    ensures IsTopTen(Newest(UpsertAll(h, xs)), all + Elements(xs))
  {
    SortedHolds(h, all, xs);
    var m := Sorted(UpsertAll(h, xs));
    var d := UpsertAll(h, xs);
    forall x | x in all + Elements(xs) && x !in Newest(d)
      ensures |Newest(d)| == MAXSHARES && Newer(Newest(d)[MAXSHARES - 1], x)
    {
      LeftOut(h, all, m, x);
    }
  }

  lemma {:induction false} SortedHolds(h: seq<Share>, all: set<Share>, xs: seq<Share>)
    requires IsTopTen(h, all) && Consistent(all + Elements(xs))
    ensures var m := Sorted(UpsertAll(h, xs)); Descending(m) && forall x :: x in m <==> x in h || x in xs
  {
    DescendingDistinct(h, all + Elements(xs));
    forall x, y | (x in h || x in xs) && (y in h || y in xs) && x.id == y.id ensures x == y {
      assert x in all + Elements(xs) && y in all + Elements(xs);
    }
    UpsertAllIs(h, xs);
    SortedIs(UpsertAll(h, xs));
  }

  lemma {:induction false} LeftOut(h: seq<Share>, all: set<Share>, m: seq<Share>, x: Share)
    requires IsTopTen(h, all) && Descending(m) && forall y :: y in h ==> y in m
    requires x in m || x in all
    requires x !in (if |m| > MAXSHARES then m[..MAXSHARES] else m)
    ensures |m| >= MAXSHARES && Newer(m[MAXSHARES - 1], x)
  {
    if x in m {
      var i :| 0 <= i < |m| && m[i] == x;
    } else {
      assert x !in h;
      var j := SitsDeep(h, m, MAXSHARES - 1);
      if j > MAXSHARES - 1 {
        NewerTransitive(m[MAXSHARES - 1], m[j], x);
      }
    }
  }

  // The best difficulty.

  /** The maximum positive difficulty of a set and a worker who reached it; nothing when there is none. */
  predicate IsBest(b: Best, all: set<Share>) {
    && (b.difficulty.None? <==> forall x :: x in all ==> x.difficulty <= 0.0)
    && (b.difficulty.Some? ==>
          && b.difficulty.value > 0.0 && (forall x :: x in all ==> x.difficulty <= b.difficulty.value)
          && b.worker.Some? && exists x :: x in all && x.difficulty == b.difficulty.value && x.worker == b.worker.value)
  }

  lemma {:induction false} ImprovedIsBest(b: Best, all: set<Share>, x: Share)
    requires IsBest(b, all)
    ensures IsBest(Improved(b, x), all + {x})
  {
    if Improves(b, x) {
      assert x in all + {x};
    } else if b.difficulty.Some? {
      var y :| y in all && y.difficulty == b.difficulty.value && y.worker == b.worker.value;
      assert y in all + {x};
    }
  }

  lemma {:induction false} ImprovedByIsBest(b: Best, all: set<Share>, xs: seq<Share>)
    requires IsBest(b, all)
    ensures IsBest(ImprovedBy(b, xs), all + Elements(xs))
  {
    if xs == [] {
      assert all + Elements(xs) == all;
    } else {
      var init, last := xs[..|xs| - 1], xs[|xs| - 1];
      assert xs == init + [last];
      ImprovedByIsBest(b, all, init);
      ImprovedIsBest(ImprovedBy(b, init), all + Elements(init), last);
      assert all + Elements(xs) == all + Elements(init) + {last};
    }
  }

  // Runs.

  datatype Event = Merge(raw: seq<Option<Share>>) | Clear(configured: bool, at: int) | Reconfigure(configured: bool)

  function Step(p: Pool, e: Event): Pool {
    match e
    case Merge(raw) => Merged(p, raw)
    case Clear(configured, at) => Cleared(configured, at)
    case Reconfigure(configured) => if configured then p else EMPTY
  }

  function After(events: seq<Event>): Pool {
    if events == [] then EMPTY else Step(After(events[..|events| - 1]), events[|events| - 1])
  }

  /** Everything considered since the last clear, or since the pool was last dropped from the configuration. */
  function AllSince(events: seq<Event>): set<Share> {
    if events == [] then {}
    else
      var before, e := events[..|events| - 1], events[|events| - 1];
      match e
      case Merge(raw) => AllSince(before) + Elements(Considered(FirstOf(raw), After(before).resetAfter))
      case Clear(configured, at) => {}
      case Reconfigure(configured) => if configured then AllSince(before) else {}
  }

  ghost predicate AlwaysConsistent(events: seq<Event>) {
    forall k :: 0 <= k <= |events| ==> Consistent(AllSince(events[..k]))
  }

  /**
   * After any sequence of merges, clears and reconfigurations, when an id always carries the same record:
   * the retained list is the ten newest of all shares considered since the last clear, and both bests are
   * the maximum positive difficulty among them.
   */
  lemma {:induction false} IncrementalIsBatch(events: seq<Event>)
    requires AlwaysConsistent(events)
    ensures IsTopTen(After(events).history, AllSince(events))
    ensures IsBest(After(events).session, AllSince(events)) && IsBest(After(events).allTime, AllSince(events))
  {
    if events != [] {
      var before, e := events[..|events| - 1], events[|events| - 1];
      assert events[..|events|] == events;
      assert forall k :: 0 <= k <= |before| ==> before[..k] == events[..k];
      IncrementalIsBatch(before);
      if e.Merge? {
        var xs := Considered(FirstOf(e.raw), After(before).resetAfter);
        MergeIsTopTen(After(before).history, AllSince(before), xs);
        ImprovedByIsBest(After(before).session, AllSince(before), xs);
        ImprovedByIsBest(After(before).allTime, AllSince(before), xs);
      }
    }
  }

  /** The ten newest are unique, so the order of arrival leaves no trace. */
  lemma {:induction false} TopTenUnique(h: seq<Share>, g: seq<Share>, all: set<Share>)
    requires IsTopTen(h, all) && IsTopTen(g, all)
    ensures h == g
  {
    SameLength(h, g, all);
    SameLength(g, h, all);
    forall i | 0 <= i < |h| ensures h[i] == g[i] {
      SameAt(h, g, all, i);
    }
  }

  lemma {:induction false} SameLength(h: seq<Share>, g: seq<Share>, all: set<Share>)
    requires IsTopTen(h, all) && IsTopTen(g, all)
    ensures |h| <= |g|
  {
    if |g| < |h| {
      assert forall x :: x in h ==> x in g;
      var j := SitsDeep(h, g, |h| - 1);
    }
  }

  lemma {:induction false} SameAt(h: seq<Share>, g: seq<Share>, all: set<Share>, i: nat)
    requires IsTopTen(h, all) && IsTopTen(g, all) && |h| == |g| && i < |h|
    ensures h[i] == g[i]
  {
    if i > 0 {
      forall j | 0 <= j < i ensures h[j] == g[j] {
        SameAt(h, g, all, j);
      }
    }
    if h[i] != g[i] {
      NotAhead(h, g, all, i);
      NotAhead(g, h, all, i);
      NewerOrder(g[i], h[i]);
    }
  }

  /** With equal starts, the next element of h is in g, so g's next is not older. */
  lemma {:induction false} NotAhead(h: seq<Share>, g: seq<Share>, all: set<Share>, i: nat)
    requires IsTopTen(h, all) && IsTopTen(g, all) && |h| == |g| && i < |h| && h[i] != g[i]
    requires forall j :: 0 <= j < i ==> h[j] == g[j]
    ensures Newer(g[i], h[i])
  {
    if h[i] in g {
      var j :| 0 <= j < |g| && g[j] == h[i];
      if j < i {
        NewerOrder(h[j], h[i]);
      }
    } else {
      assert Newer(g[MAXSHARES - 1], h[i]);
      if i < MAXSHARES - 1 {
        NewerTransitive(g[i], g[MAXSHARES - 1], h[i]);
      }
    }
  }

  /** When a merge reports no change, the history written before is still the right one. */
  lemma {:induction false} UnchangedIsSame(p: Pool, raw: seq<Option<Share>>, all: set<Share>)
    requires IsTopTen(p.history, all) && Consistent(all + Elements(Considered(FirstOf(raw), p.resetAfter)))
    requires SameIds(Merged(p, raw).history, p.history)
    ensures Merged(p, raw).history == p.history
  {
    MergeIsTopTen(p.history, all, Considered(FirstOf(raw), p.resetAfter));
    forall i | 0 <= i < |p.history| ensures Merged(p, raw).history[i] == p.history[i] {
      assert p.history[i] in p.history && Merged(p, raw).history[i] in Merged(p, raw).history;
    }
  }
}
