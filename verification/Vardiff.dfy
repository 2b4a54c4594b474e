/** Variable difficulty of one session (pkg/stratum/vardiff.go), over the reals, with integer difficulties. */
module Vardiff {
  const MAXSHARES: nat := 10

  /** Configuration; `variance` is the accepted fraction around the target time. */
  datatype Settings = Settings(minDiff: real, maxDiff: real, targetTime: real, retargetTime: real, variance: real)

  predicate Integral(x: real) {
    x == x.Floor as real
  }

  /** Integer bounds of at least 1 and times that make sense. */
  predicate Proper(s: Settings) {
    && Integral(s.minDiff) && Integral(s.maxDiff) && 1.0 <= s.minDiff <= s.maxDiff
    && s.targetTime > 0.0 && s.variance >= 0.0
  }

  predicate InBounds(s: Settings, d: real) {
    s.minDiff <= d <= s.maxDiff
  }

  /** math.Round: to the nearest integer, halves away from zero. */
  function RoundAway(x: real): int {
    if x >= 0.0 then (x + 0.5).Floor else -(0.5 - x).Floor
  }

  /** roundDifficulty, integer mode. */
  function RoundDifficulty(d: real): (r: real)
    ensures r >= 1.0
  {
    if RoundAway(d) < 1 then 1.0 else RoundAway(d) as real
  }

  function Clamp(s: Settings, d: real): real {
    var atLeast := if d < s.minDiff then s.minDiff else d;
    if atLeast > s.maxDiff then s.maxDiff else atLeast
  }

  /** The ratio of target to average time, kept between a quarter and four. */
  function Ratio(s: Settings, avg: real): real
    requires avg > 0.0
  {
    var r := s.targetTime / avg;
    if r > 4.0 then 4.0 else if r < 0.25 then 0.25 else r
  }

  function Calculated(s: Settings, current: real, avg: real): real
    requires avg > 0.0
  {
    current * Ratio(s, avg)
  }

  function NewDiff(s: Settings, current: real, avg: real): real
    requires avg > 0.0
  {
    RoundDifficulty(Clamp(s, Calculated(s, current, avg)))
  }

  function Abs(x: real): real {
    if x < 0.0 then -x else x
  }

  predicate WithinVariance(s: Settings, avg: real)
    requires s.targetTime > 0.0
  {
    Abs(avg - s.targetTime) / s.targetTime <= s.variance
  }

  predicate Enough(newDiff: real, current: real)
    requires current > 0.0
  {
    Abs(newDiff - current) / current >= 0.01
  }

  /** What an average time between shares makes of the current difficulty, when it changes it. */
  predicate Adjusts(s: Settings, current: real, avg: real)
    requires s.targetTime > 0.0 && current > 0.0
  {
    avg > 0.0 && !WithinVariance(s, avg) && Enough(NewDiff(s, current, avg), current)
  }

  // The tracker.

  datatype Tracker = Tracker(currentDiff: real, shareTimes: seq<real>, lastRetarget: real)

  datatype Reason = MinShares | RetargetWait | InVariance | AdjustedNow

  datatype Decision = Decision(adjusted: bool, reason: Reason, clampedDiff: real)

  function LastShares(times: seq<real>): seq<real> {
    if |times| > MAXSHARES then times[1..] else times
  }

  function AverageShareTime(times: seq<real>): real {
    if |times| < 2 then 0.0 else (times[|times| - 1] - times[0]) / (|times| - 1) as real
  }

  /** The window with the new share, and whether it is time to look at it. */
  function Window(v: Tracker, now: real): seq<real> {
    LastShares(v.shareTimes + [now])
  }

  predicate Due(s: Settings, v: Tracker, now: real) {
    |Window(v, now)| >= 4 && now - v.lastRetarget >= s.retargetTime && AverageShareTime(Window(v, now)) > 0.0
  }

  /** RecordShare: adjusting empties the window; looking without adjusting only moves the timer. */
  function Recorded(s: Settings, v: Tracker, now: real): Tracker
    requires s.targetTime > 0.0 && v.currentDiff > 0.0
  {
    var times := Window(v, now);
    if !Due(s, v, now) then v.(shareTimes := times)
    else if Adjusts(s, v.currentDiff, AverageShareTime(times)) then
      Tracker(NewDiff(s, v.currentDiff, AverageShareTime(times)), [], now)
    else v.(shareTimes := times, lastRetarget := now)
  }

  predicate RecordAdjusts(s: Settings, v: Tracker, now: real)
    requires s.targetTime > 0.0 && v.currentDiff > 0.0
  {
    Due(s, v, now) && Adjusts(s, v.currentDiff, AverageShareTime(Window(v, now)))
  }

  class VarDiff {
    const settings: Settings
    var currentDiff: real
    var shareTimes: seq<real>
    var lastRetarget: real

    ghost predicate Valid()
      reads this
    {
      Proper(settings) && currentDiff > 0.0 && |shareTimes| <= MAXSHARES
    }

    function Now(): Tracker
      reads this
    {
      Tracker(currentDiff, shareTimes, lastRetarget)
    }

    /** NewVarDiff. */
    constructor (settings: Settings, initialDiff: real, now: real)
      requires Proper(settings) && initialDiff > 0.0
      ensures Valid() && this.settings == settings && Now() == Tracker(initialDiff, [], now)
    {
      this.settings, currentDiff, shareTimes, lastRetarget := settings, initialDiff, [], now;
    }

    /** ResetWindow. */
    method ResetWindow(newDiff: real, now: real)
      requires Valid() && newDiff > 0.0
      modifies this
      ensures Valid() && Now() == Tracker(newDiff, [], now)
    {
      currentDiff := newDiff;
      shareTimes := [];
      lastRetarget := now;
    }

    /** RecordShare. */
    method RecordShare(now: real) returns (d: Decision)
      requires Valid()
      modifies this
      ensures Valid() && Now() == Recorded(settings, old(Now()), now)
      ensures d.adjusted == RecordAdjusts(settings, old(Now()), now)
      ensures d.adjusted ==> d.clampedDiff == currentDiff
    {
      shareTimes := shareTimes + [now];
      if |shareTimes| > MAXSHARES {
        shareTimes := shareTimes[1..];
      }
      if |shareTimes| < 4 {
        return Decision(false, MinShares, 0.0);
      }
      if now - lastRetarget < settings.retargetTime {
        return Decision(false, RetargetWait, 0.0);
      }
      var avgTime := AverageShareTime(shareTimes);
      if avgTime <= 0.0 {
        return Decision(false, RetargetWait, 0.0);
      }
      var variance := Abs(avgTime - settings.targetTime) / settings.targetTime;
      if variance <= settings.variance {
        lastRetarget := now;
        return Decision(false, InVariance, currentDiff);
      }
      var newDiff := Adjusted(avgTime);
      var change := Abs(newDiff - currentDiff) / currentDiff;
      if change < 0.01 {
        lastRetarget := now;
        return Decision(false, InVariance, newDiff);
      }
      currentDiff := newDiff;
      lastRetarget := now;
      shareTimes := [];
      return Decision(true, AdjustedNow, newDiff);
    }

    method ClampedRatio(avgTime: real) returns (ratio: real)
      requires avgTime > 0.0
      ensures ratio == Ratio(settings, avgTime)
    {
      ratio := settings.targetTime / avgTime;
      if ratio > 4.0 {
        ratio := 4.0;
      }
      if ratio < 0.25 {
        ratio := 0.25;
      }
    }

    method Calculate(avgTime: real) returns (calcDiff: real)
      requires avgTime > 0.0
      ensures calcDiff == Calculated(settings, currentDiff, avgTime)
    {
      var ratio := ClampedRatio(avgTime);
      calcDiff := currentDiff * ratio;
    }

    /** The arithmetic of RecordShare. */
    method Adjusted(avgTime: real) returns (newDiff: real)
      requires Valid() && avgTime > 0.0
      ensures newDiff == NewDiff(settings, currentDiff, avgTime) && newDiff >= 1.0
    {
      var calcDiff := Calculate(avgTime);
      newDiff := Bounded(calcDiff);
      newDiff := RoundDifficulty(newDiff);
    }

    method Bounded(calcDiff: real) returns (newDiff: real)
      ensures newDiff == Clamp(settings, calcDiff)
    {
      newDiff := calcDiff;
      if newDiff < settings.minDiff {
        newDiff := settings.minDiff;
      }
      if newDiff > settings.maxDiff {
        newDiff := settings.maxDiff;
      }
    }
  }

  // Bounds.

  lemma {:induction false} RoundMonotone(x: real, y: real)
    requires 0.0 <= x <= y
    ensures RoundAway(x) <= RoundAway(y)
  {
  }

  lemma {:induction false} RoundOfIntegral(x: real)
    requires Integral(x)
    ensures RoundAway(x) as real == x
  {
    assert (x + 0.5).Floor == x.Floor;
    assert (0.5 - x).Floor == -x.Floor;
  }

  /** Clamping and then rounding stays between integer bounds. */
  lemma {:induction false} RoundedInBounds(s: Settings, d: real)
    requires Proper(s)
    ensures InBounds(s, RoundDifficulty(Clamp(s, d))) && Integral(RoundDifficulty(Clamp(s, d)))
    ensures RoundDifficulty(Clamp(s, d)) == RoundAway(Clamp(s, d)) as real
  {
    RoundMonotone(s.minDiff, Clamp(s, d));
    RoundMonotone(Clamp(s, d), s.maxDiff);
    RoundOfIntegral(s.minDiff);
    RoundOfIntegral(s.maxDiff);
  }

  // Shares outside the accepted range.

  /** The shares come faster than the accepted range. */
  predicate Fast(s: Settings, avg: real) {
    0.0 < avg < s.targetTime * (1.0 - s.variance)
  }

  predicate Slow(s: Settings, avg: real) {
    avg > s.targetTime * (1.0 + s.variance)
  }

  lemma {:induction false} FastOrSlow(s: Settings, avg: real)
    requires Proper(s) && avg > 0.0
    ensures !WithinVariance(s, avg) <==> Fast(s, avg) || Slow(s, avg)
  {
    var t, d := s.targetTime, Abs(avg - s.targetTime);
    assert d / t * t == d;
    if WithinVariance(s, avg) {
      assert (d / t) * t <= s.variance * t;
    } else {
      assert (d / t) * t > s.variance * t;
    }
  }

  // Real arithmetic.

  lemma {:induction false} MulLess(x: real, y: real, z: real)
    requires x < y && z > 0.0
    ensures x * z < y * z
  {
  }

  lemma {:induction false} MulAtMost(x: real, y: real, z: real)
    requires x <= y && z >= 0.0
    ensures x * z <= y * z
  {
  }

  lemma {:induction false} Rotate(x: real, y: real, z: real)
    ensures (x * y) * z == (x * z) * y
  {
  }

  lemma {:induction false} CancelLess(x: real, y: real, z: real)
    requires z > 0.0 && x * z < y * z
    ensures x < y
  {
    if x >= y {
      MulAtMost(y, x, z);
    }
  }

  lemma {:induction false} CancelEqual(x: real, y: real, z: real)
    requires z > 0.0 && x * z == y * z
    ensures x == y
  {
    if x < y {
      MulLess(x, y, z);
    } else if y < x {
      MulLess(y, x, z);
    }
  }

  /** An average below m times the target, as a ratio. */
  lemma {:induction false} RatioAbove(r: real, t: real, avg: real, m: real)
    requires m > 0.0 && 0.0 < avg && r * avg == t
    ensures avg < t * m <==> r * m > 1.0
  {
    Rotate(r, m, avg);
    assert (r * m) * avg == t * m;
    if r * m <= 1.0 {
      MulAtMost(r * m, 1.0, avg);
    } else {
      MulLess(1.0, r * m, avg);
    }
  }

  lemma {:induction false} RatioBelow(r: real, t: real, avg: real, w: real)
    requires w > 0.0 && 0.0 < avg && r * avg == t
    ensures avg > t * w <==> r * w < 1.0
  {
    Rotate(r, w, avg);
    assert (r * w) * avg == t * w;
    if r * w < 1.0 {
      MulLess(r * w, 1.0, avg);
    } else {
      MulAtMost(1.0, r * w, avg);
    }
  }

  /** The edge c / m of the accepted range, in terms of difficulties. */
  lemma {:induction false} EdgeOrder(edge: real, c: real, m: real, r: real)
    requires c > 0.0 && m > 0.0 && edge * m == c
    ensures edge > 0.0
    ensures r * m > 1.0 <==> c * r > edge
    ensures r * m < 1.0 <==> c * r < edge
  {
    if edge <= 0.0 {
      MulAtMost(edge, 0.0, m);
    }
    Rotate(c, r, m);
    var p := r * m;
    assert (c * r) * m == p * c;
    if p > 1.0 {
      MulLess(1.0, p, c);
      CancelLess(edge, c * r, m);
    } else if p < 1.0 {
      MulLess(p, 1.0, c);
      CancelLess(c * r, edge, m);
    } else {
      CancelEqual(c * r, edge, m);
    }
  }

  lemma {:induction false} EdgeSide(edge: real, c: real, m: real)
    requires c > 0.0 && m > 0.0 && edge * m == c
    ensures m <= 1.0 ==> edge >= c
    ensures m >= 1.0 ==> edge <= c
  {
    EdgeOrder(edge, c, m, 1.0);
  }

  /** The average that gives the ratio x / c. */
  lemma {:induction false} AverageFor(s: Settings, c: real, x: real) returns (avg: real)
    requires Proper(s) && c >= 1.0 && x > 0.0
    ensures avg > 0.0 && c * (s.targetTime / avg) == x
  {
    var t := s.targetTime;
    avg := t * c / x;
    assert avg * x == t * c;
    if avg <= 0.0 {
      MulAtMost(avg, 0.0, x);
      MulLess(0.0, t, c);
    }
    var r := t / avg;
    assert r * avg == t;
    Recovered(r, avg, t, c, x);
  }

  lemma {:induction false} Recovered(r: real, avg: real, t: real, c: real, x: real)
    requires avg > 0.0 && t > 0.0 && r * avg == t && avg * x == t * c
    ensures c * r == x
  {
    Rotate(c, r, avg);
    assert (c * r) * avg == c * t;
    CancelEqual(c * r, x, avg);
  }

  // Direction.

  /** Edge of the accepted range on the fast side and on the slow side, as difficulties. */
  function FastEdge(s: Settings, c: real): real
    requires s.variance < 1.0
  {
    c / (1.0 - s.variance)
  }

  function SlowEdge(s: Settings, c: real): real
    requires s.variance >= 0.0
  {
    c / (1.0 + s.variance)
  }

  lemma {:induction false} FastMeans(s: Settings, c: real, avg: real)
    requires Proper(s) && c >= 1.0 && avg > 0.0
    ensures Fast(s, avg) <==> s.variance < 1.0 && c * (s.targetTime / avg) > FastEdge(s, c)
  {
    var m, r := 1.0 - s.variance, s.targetTime / avg;
    assert r * avg == s.targetTime;
    if m <= 0.0 {
      MulAtMost(0.0, -m, s.targetTime);
      assert s.targetTime * m <= 0.0;
    } else {
      assert FastEdge(s, c) * m == c;
      RatioAbove(r, s.targetTime, avg, m);
      EdgeOrder(FastEdge(s, c), c, m, r);
    }
  }

  lemma {:induction false} SlowMeans(s: Settings, c: real, avg: real)
    requires Proper(s) && c >= 1.0 && avg > 0.0
    ensures Slow(s, avg) <==> c * (s.targetTime / avg) < SlowEdge(s, c)
  {
    var w, r := 1.0 + s.variance, s.targetTime / avg;
    assert r * avg == s.targetTime;
    assert SlowEdge(s, c) * w == c;
    RatioBelow(r, s.targetTime, avg, w);
    EdgeOrder(SlowEdge(s, c), c, w, r);
  }

  /** The calculated difficulty is c times the ratio, kept between c / 4 and 4 c. */
  lemma {:induction false} CalculatedIs(s: Settings, c: real, avg: real)
    requires Proper(s) && c >= 1.0 && avg > 0.0
    ensures var x := c * (s.targetTime / avg);
            Calculated(s, c, avg) == if x > 4.0 * c then 4.0 * c else if x < c / 4.0 then c / 4.0 else x
  {
    var r := s.targetTime / avg;
    if r > 4.0 {
      MulLess(4.0, r, c);
    } else if r < 0.25 {
      MulLess(r, 0.25, c);
    } else {
      MulAtMost(r, 4.0, c);
      MulAtMost(0.25, r, c);
    }
  }

  /** Where an adjustment can land: rounding a clamped difficulty. */
  function Landed(s: Settings, x: real): real {
    RoundDifficulty(Clamp(s, x))
  }

  lemma {:induction false} LandedMonotone(s: Settings, x: real, y: real)
    requires Proper(s) && x <= y
    ensures Landed(s, x) <= Landed(s, y)
  {
    RoundedInBounds(s, x);
    RoundedInBounds(s, y);
    RoundMonotone(Clamp(s, x), Clamp(s, y));
  }

  /** Fast shares raise the difficulty whenever they change it. */
  ghost predicate FastRaises(s: Settings, c: real)
    requires Proper(s) && c >= 1.0
  {
    forall avg :: avg > 0.0 && Fast(s, avg) && Enough(NewDiff(s, c, avg), c) ==> NewDiff(s, c, avg) > c
  }

  ghost predicate SlowLowers(s: Settings, c: real)
    requires Proper(s) && c >= 1.0
  {
    forall avg :: avg > 0.0 && Slow(s, avg) && Enough(NewDiff(s, c, avg), c) ==> NewDiff(s, c, avg) < c
  }

  ghost predicate AtMostFourfold(s: Settings, c: real)
    requires Proper(s) && c >= 1.0
  {
    forall avg :: avg > 0.0 && !WithinVariance(s, avg) ==> NewDiff(s, c, avg) <= 4.0 * c
  }

  /** The nearest integer, halves down. */
  function RoundHalfDown(x: real): int {
    -(0.5 - x).Floor
  }

  /**
   * The slowest fast share rate lands less than one percent below the current difficulty. One could check
   * this for a configured default before any share arrives.
   */
  predicate FastSafe(s: Settings, c: real)
    requires Proper(s)
  {
    s.variance >= 1.0 || c - RoundAway(Least(FastEdge(s, c), 4.0 * c)) as real < 0.01 * c
  }

  /** The fastest slow share rate lands less than one percent above the current difficulty. */
  predicate SlowSafe(s: Settings, c: real)
    requires Proper(s)
  {
    s.variance >= 3.0 || RoundHalfDown(SlowEdge(s, c)) as real - c < 0.01 * c
  }

  /** Four times the current difficulty is not rounded up, or not reached. */
  predicate FourSafe(s: Settings, c: real) {
    s.variance >= 1.0 || s.maxDiff <= 4.0 * c || RoundAway(4.0 * c) as real <= 4.0 * c
  }

  function Least(x: real, y: real): real {
    if x < y then x else y
  }

  lemma {:induction false} EnoughMeans(newDiff: real, c: real)
    requires c > 0.0
    ensures Enough(newDiff, c) <==> Abs(newDiff - c) >= 0.01 * c
  {
    EnoughOfQuotient(Abs(newDiff - c) / c, Abs(newDiff - c), c);
  }

  lemma {:induction false} EnoughOfQuotient(q: real, d: real, c: real)
    requires c > 0.0 && q * c == d
    ensures q >= 0.01 <==> d >= 0.01 * c
  {
    if q >= 0.01 {
      MulAtMost(0.01, q, c);
    } else {
      MulLess(q, 0.01, c);
    }
  }

  lemma {:induction false} FastLands(s: Settings, c: real, avg: real)
    requires Proper(s) && c >= 1.0 && InBounds(s, c) && FastSafe(s, c)
    requires avg > 0.0 && Fast(s, avg) && Enough(NewDiff(s, c, avg), c)
    ensures NewDiff(s, c, avg) > c
  {
    var low := FastAbove(s, c, avg);
    EnoughMeans(Landed(s, Calculated(s, c, avg)), c);
    LandsAbove(s, c, low, Calculated(s, c, avg));
  }

  lemma {:induction false} FastAbove(s: Settings, c: real, avg: real) returns (low: real)
    requires Proper(s) && c >= 1.0 && avg > 0.0 && Fast(s, avg)
    ensures s.variance < 1.0 && low == Least(FastEdge(s, c), 4.0 * c)
    ensures c <= low <= Calculated(s, c, avg)
  {
    FastMeans(s, c, avg);
    CalculatedIs(s, c, avg);
    EdgeSide(FastEdge(s, c), c, 1.0 - s.variance);
    low := Least(FastEdge(s, c), 4.0 * c);
  }

  lemma {:induction false} LandsAbove(s: Settings, c: real, low: real, x: real)
    requires Proper(s) && c >= 1.0 && InBounds(s, c) && c <= low <= x
    requires c - RoundAway(low) as real < 0.01 * c && Abs(Landed(s, x) - c) >= 0.01 * c
    ensures Landed(s, x) > c
  {
    LandedMonotone(s, low, x);
    RoundedInBounds(s, low);
    RoundOfIntegral(s.maxDiff);
  }

  lemma {:induction false} FastFails(s: Settings, c: real) returns (avg: real)
    requires Proper(s) && c >= 1.0 && InBounds(s, c) && !FastSafe(s, c)
    ensures avg > 0.0 && Fast(s, avg) && Enough(NewDiff(s, c, avg), c) && NewDiff(s, c, avg) < c
  {
    EdgeSide(FastEdge(s, c), c, 1.0 - s.variance);
    var x := BetweenAbove(s, c, FastEdge(s, c));
    avg := FastAverage(s, c, x);
    EnoughMeans(Landed(s, x), c);
  }

  lemma {:induction false} FastAverage(s: Settings, c: real, x: real) returns (avg: real)
    requires Proper(s) && c >= 1.0 && s.variance < 1.0 && 0.0 < FastEdge(s, c) < x <= 4.0 * c && c <= x
    ensures avg > 0.0 && Fast(s, avg) && Calculated(s, c, avg) == x
  {
    avg := AverageFor(s, c, x);
    FastMeans(s, c, avg);
    CalculatedAt(s, c, avg, x);
  }

  lemma {:induction false} CalculatedAt(s: Settings, c: real, avg: real, x: real)
    requires Proper(s) && c >= 1.0 && avg > 0.0 && c * (s.targetTime / avg) == x && c / 4.0 <= x <= 4.0 * c
    ensures Calculated(s, c, avg) == x
  {
    CalculatedIs(s, c, avg);
  }

  lemma {:induction false} BetweenAbove(s: Settings, c: real, edge: real) returns (x: real)
    requires Proper(s) && 1.0 <= c <= edge && InBounds(s, c)
    requires c - RoundAway(Least(edge, 4.0 * c)) as real >= 0.01 * c
    ensures edge < x <= 4.0 * c && Landed(s, x) < c && Abs(Landed(s, x) - c) >= 0.01 * c
  {
    var n := RoundAway(Least(edge, 4.0 * c));
    assert edge < 4.0 * c;
    x := (edge + n as real + 0.5) / 2.0;
    assert n + 1 <= s.maxDiff.Floor;
    assert (x + 0.5).Floor == n;
  }

  lemma {:induction false} FastRaisesIff(s: Settings, c: real)
    requires Proper(s) && c >= 1.0 && InBounds(s, c)
    ensures FastRaises(s, c) <==> FastSafe(s, c)
  {
    if FastSafe(s, c) {
      forall avg | avg > 0.0 && Fast(s, avg) && Enough(NewDiff(s, c, avg), c) ensures NewDiff(s, c, avg) > c {
        FastLands(s, c, avg);
      }
    } else {
      var avg := FastFails(s, c);
    }
  }

  lemma {:induction false} SlowLands(s: Settings, c: real, avg: real)
    requires Proper(s) && c >= 1.0 && InBounds(s, c) && SlowSafe(s, c)
    requires avg > 0.0 && Slow(s, avg) && Enough(NewDiff(s, c, avg), c)
    ensures NewDiff(s, c, avg) < c
  {
    var edge := SlowBelow(s, c, avg);
    EnoughMeans(Landed(s, Calculated(s, c, avg)), c);
    LandsBelow(s, c, edge, Calculated(s, c, avg));
  }

  lemma {:induction false} SlowBelow(s: Settings, c: real, avg: real) returns (edge: real)
    requires Proper(s) && c >= 1.0 && avg > 0.0 && Slow(s, avg)
    ensures edge == SlowEdge(s, c) && edge <= c && Calculated(s, c, avg) <= c
    ensures Calculated(s, c, avg) == c / 4.0 || Calculated(s, c, avg) < edge
    ensures s.variance >= 3.0 ==> Calculated(s, c, avg) == c / 4.0
  {
    SlowMeans(s, c, avg);
    CalculatedIs(s, c, avg);
    edge := SlowEdge(s, c);
    EdgeSide(edge, c, 1.0 + s.variance);
    EdgeOrder(edge, c, 1.0 + s.variance, 0.25);
  }

  lemma {:induction false} LandsBelow(s: Settings, c: real, edge: real, x: real)
    requires Proper(s) && c >= 1.0 && InBounds(s, c) && x <= c
    requires x == c / 4.0 || (x < edge <= c && RoundHalfDown(edge) as real - c < 0.01 * c)
    requires Abs(Landed(s, x) - c) >= 0.01 * c
    ensures Landed(s, x) < c
  {
    RoundedInBounds(s, x);
    RoundOfIntegral(s.minDiff);
    if s.minDiff <= x && x != c / 4.0 {
      RoundBelowEdge(x, edge);
    }
  }

  lemma {:induction false} RoundBelowEdge(x: real, edge: real)
    requires 0.0 <= x < edge
    ensures RoundAway(x) <= RoundHalfDown(edge)
  {
  }

  lemma {:induction false} SlowFails(s: Settings, c: real) returns (avg: real)
    requires Proper(s) && c >= 1.0 && InBounds(s, c) && !SlowSafe(s, c)
    ensures avg > 0.0 && Slow(s, avg) && Enough(NewDiff(s, c, avg), c) && NewDiff(s, c, avg) > c
  {
    EdgeSide(SlowEdge(s, c), c, 1.0 + s.variance);
    var x := BetweenBelow(s, c, SlowEdge(s, c));
    avg := SlowAverage(s, c, x);
    EnoughMeans(Landed(s, x), c);
  }

  lemma {:induction false} SlowAverage(s: Settings, c: real, x: real) returns (avg: real)
    requires Proper(s) && c >= 1.0 && c / 4.0 <= x < SlowEdge(s, c) && x <= c
    ensures avg > 0.0 && Slow(s, avg) && Calculated(s, c, avg) == x
  {
    avg := AverageFor(s, c, x);
    SlowMeans(s, c, avg);
    CalculatedAt(s, c, avg, x);
  }

  lemma {:induction false} BetweenBelow(s: Settings, c: real, edge: real) returns (x: real)
    requires Proper(s) && c >= 1.0 && edge <= c && InBounds(s, c)
    requires RoundHalfDown(edge) as real - c >= 0.01 * c
    ensures c / 4.0 <= x < edge && Landed(s, x) > c && Abs(Landed(s, x) - c) >= 0.01 * c
  {
    var m := RoundHalfDown(edge);
    x := (m as real - 0.5 + edge) / 2.0;
    assert m >= s.minDiff.Floor + 1;
    assert (x + 0.5).Floor == m;
  }

  lemma {:induction false} SlowLowersIff(s: Settings, c: real)
    requires Proper(s) && c >= 1.0 && InBounds(s, c)
    ensures SlowLowers(s, c) <==> SlowSafe(s, c)
  {
    if SlowSafe(s, c) {
      forall avg | avg > 0.0 && Slow(s, avg) && Enough(NewDiff(s, c, avg), c) ensures NewDiff(s, c, avg) < c {
        SlowLands(s, c, avg);
      }
    } else {
      var avg := SlowFails(s, c);
    }
  }

  lemma {:induction false} CalculatedBelow(s: Settings, c: real, avg: real)
    requires Proper(s) && c >= 1.0 && avg > 0.0
    ensures Calculated(s, c, avg) <= 4.0 * c && (Slow(s, avg) ==> Calculated(s, c, avg) <= c)
    ensures Fast(s, avg) ==> s.variance < 1.0
  {
    CalculatedIs(s, c, avg);
    FastMeans(s, c, avg);
    if Slow(s, avg) {
      var edge := SlowBelow(s, c, avg);
    }
  }

  lemma {:induction false} FourLands(s: Settings, c: real, avg: real)
    requires Proper(s) && c >= 1.0 && InBounds(s, c) && FourSafe(s, c)
    requires avg > 0.0 && !WithinVariance(s, avg)
    ensures NewDiff(s, c, avg) <= 4.0 * c
  {
    FastOrSlow(s, avg);
    CalculatedBelow(s, c, avg);
    var top := if Slow(s, avg) then c else 4.0 * c;
    LandedMonotone(s, Calculated(s, c, avg), top);
    RoundedInBounds(s, top);
    RoundOfIntegral(s.maxDiff);
  }

  lemma {:induction false} FourFails(s: Settings, c: real) returns (avg: real)
    requires Proper(s) && c >= 1.0 && InBounds(s, c) && !FourSafe(s, c)
    ensures avg > 0.0 && !WithinVariance(s, avg) && NewDiff(s, c, avg) > 4.0 * c
  {
    avg := VeryFast(s, c);
    FastOrSlow(s, avg);
    RoundedInBounds(s, 4.0 * c);
  }

  lemma {:induction false} VeryFast(s: Settings, c: real) returns (avg: real)
    requires Proper(s) && c >= 1.0 && s.variance < 1.0
    ensures avg > 0.0 && Fast(s, avg) && Calculated(s, c, avg) == 4.0 * c
  {
    var edge := FastEdge(s, c);
    assert edge >= c by { EdgeSide(edge, c, 1.0 - s.variance); }
    avg := AverageFor(s, c, edge + 4.0 * c);
    assert Fast(s, avg) by { FastMeans(s, c, avg); }
    assert Calculated(s, c, avg) == 4.0 * c by { CalculatedIs(s, c, avg); }
  }

  lemma {:induction false} AtMostFourfoldIff(s: Settings, c: real)
    requires Proper(s) && c >= 1.0 && InBounds(s, c)
    ensures AtMostFourfold(s, c) <==> FourSafe(s, c)
  {
    if FourSafe(s, c) {
      forall avg | avg > 0.0 && !WithinVariance(s, avg) ensures NewDiff(s, c, avg) <= 4.0 * c {
        FourLands(s, c, avg);
      }
    } else {
      var avg := FourFails(s, c);
    }
  }

  /**
   * From a whole-number difficulty, every adjustment goes the way the share rate demands and at most
   * fourfold up. From others this holds exactly when the three conditions above do.
   */
  lemma {:induction false} IntegralIsSafe(s: Settings, c: real)
    requires Proper(s) && c >= 1.0 && InBounds(s, c) && Integral(c)
    ensures FastRaises(s, c) && SlowLowers(s, c) && AtMostFourfold(s, c)
  {
    if s.variance < 1.0 {
      EdgeSide(FastEdge(s, c), c, 1.0 - s.variance);
      IntegralRounds(c, Least(FastEdge(s, c), 4.0 * c));
    }
    EdgeSide(SlowEdge(s, c), c, 1.0 + s.variance);
    IntegralRoundsDown(c, SlowEdge(s, c));
    FourTimesIntegral(c);
    FastRaisesIff(s, c);
    SlowLowersIff(s, c);
    AtMostFourfoldIff(s, c);
  }

  lemma {:induction false} IntegralRounds(c: real, x: real)
    requires Integral(c) && 0.0 <= c <= x
    ensures RoundAway(x) as real >= c
  {
    RoundMonotone(c, x);
    RoundOfIntegral(c);
  }

  lemma {:induction false} IntegralRoundsDown(c: real, x: real)
    requires Integral(c) && x <= c
    ensures RoundHalfDown(x) as real <= c
  {
    assert (0.5 - x).Floor >= -c.Floor;
  }

  lemma {:induction false} FourTimesIntegral(c: real)
    requires Integral(c)
    ensures RoundAway(4.0 * c) as real == 4.0 * c
  {
    var n := c.Floor;
    assert 4.0 * c == (4 * n) as real;
    WholeFloor(4 * n);
    RoundOfIntegral(4.0 * c);
  }

  lemma {:induction false} WholeFloor(n: int)
    ensures (n as real).Floor == n
  {
  }

  /** A default of 1.4 with shares somewhat too fast goes down to 1 instead of up. */
  lemma {:induction false} FractionalDefaultGoesDown()
    ensures var s := Settings(1.0, 1000.0, 15.0, 0.0, 0.05);
            Proper(s) && Fast(s, 14.2) && Adjusts(s, 1.4, 14.2) && NewDiff(s, 1.4, 14.2) == 1.0
  {
    var s := Settings(1.0, 1000.0, 15.0, 0.0, 0.05);
    assert 1.4 * (15.0 / 14.2) < 1.49;
  }
}
