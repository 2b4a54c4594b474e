/** The Real Time Target of eCash templates (pkg/coin/rtt.go), over the reals and unbounded integers. */
module Rtt {
  import opened Common
  import opened Difficulty
  import opened Positional

  /** Window 1, 2, 5, 11 and 17 blocks. */
  const COEFFICIENTS: seq<real> := [
    0.000000000050372626864,
    0.000000000000049192018423,
    0.000000000000000048039080491,
    0.00000000000000000049192018423,
    0.000000000000000000046913164542]

  datatype Rtt = Rtt(prevHeaderTime: seq<int>, prevBits: Option<Bytes>)

  // Compact targets.

  predicate IsCompact(b: Option<Bytes>) {
    b.Some? && |b.value| == 4
  }

  function Mantissa(b: Bytes): nat
    requires |b| == 4
  {
    b[1] as int * 0x1_0000 + b[2] as int * 0x100 + b[3]
  }

  /** rttCompactToBig: all 24 mantissa bits count and nothing is negative. */
  function RttTarget(b: Bytes): nat
    requires |b| == 4
  {
    if b[0] >= 3 then Mantissa(b) * Pow(256, b[0] - 3) else Mantissa(b) / Pow(256, 3 - b[0])
  }

  method RttCompactToBig(compact: Option<Bytes>) returns (target: Option<nat>)
    ensures target == if IsCompact(compact) then Some(RttTarget(compact.value)) else None
  {
    if compact.None? || |compact.value| != 4 {
      return None;
    }
    var data := compact.value;
    var mantissa := Mantissa(data);
    if mantissa == 0 {
      ZeroMantissa(data);
      return Some(0);
    }
    if data[0] >= 3 {
      return Some(mantissa * Pow(256, data[0] - 3));
    }
    return Some(mantissa / Pow(256, 3 - data[0]));
  }

  lemma {:induction false} ZeroMantissa(b: Bytes)
    requires |b| == 4 && Mantissa(b) == 0
    ensures RttTarget(b) == 0
  {
    ZeroTimes(Pow(256, if b[0] >= 3 then b[0] - 3 else 3 - b[0]));
  }

  lemma {:induction false} ZeroTimes(p: nat)
    ensures 0 * p == 0 && (p > 0 ==> 0 / p == 0)
  {
  }

  // Windows.

  /** The first coefficient is for the window that the older template format does not have. */
  function Start(times: seq<int>): nat {
    if |times| <= 4 then 1 else 0
  }

  /** The last timestamp that is not zero, or zero. */
  function LastNonzero(times: seq<int>): int {
    if times == [] then 0
    else if times[|times| - 1] != 0 then times[|times| - 1]
    else LastNonzero(times[..|times| - 1])
  }

  /** A window counts when it has a coefficient and a timestamp other than zero and the one before. */
  predicate Used(times: seq<int>, i: nat)
    requires i < |times|
  {
    Start(times) + i < |COEFFICIENTS| && times[i] != 0 && times[i] != LastNonzero(times[..i])
  }

  function Elapsed(now: int, timestamp: int): int {
    if now - timestamp < 1 then 1 else now - timestamp
  }

  function Pow5(x: real): real {
    x * x * x * x * x
  }

  function WindowTarget(prevTarget: nat, coefficient: real, elapsed: int): int {
    (prevTarget as real * coefficient * Pow5(elapsed as real)).Floor
  }

  /** Window i's target uses coefficient start plus i. */
  function TargetOf(times: seq<int>, prevTarget: nat, now: int, i: nat): int
    requires i < |times| && Used(times, i)
  {
    WindowTarget(prevTarget, COEFFICIENTS[Start(times) + i], Elapsed(now, times[i]))
  }

  /** The smaller of the target and those of the first n windows that count. */
  function Least(times: seq<int>, prevTarget: nat, target: int, now: int, n: nat): int
    requires n <= |times|
  {
    if n == 0 then target
    else
      var before := Least(times, prevTarget, target, now, n - 1);
      if Used(times, n - 1) && TargetOf(times, prevTarget, now, n - 1) < before
      then TargetOf(times, prevTarget, now, n - 1) else before
  }

  function RttOf(rtt: Rtt, bits: Option<Bytes>, now: int): Option<int> {
    if rtt.prevHeaderTime == [] || !IsCompact(rtt.prevBits) || !IsCompact(bits) then None
    else Some(Least(rtt.prevHeaderTime, RttTarget(rtt.prevBits.value), RttTarget(bits.value), now,
                    |rtt.prevHeaderTime|))
  }

  /** ComputeRTT. */
  method ComputeRTT(rtt: Rtt, bits: Option<Bytes>, currentTime: int) returns (r: Option<int>)
    ensures r == RttOf(rtt, bits, currentTime)
  {
    var times := rtt.prevHeaderTime;
    if |times| == 0 {
      return None;
    }
    var prevTarget := RttCompactToBig(rtt.prevBits);
    if prevTarget.None? {
      return None;
    }
    var bitsTarget := RttCompactToBig(bits);
    if bitsTarget.None? {
      return None;
    }
    var target := LowerTarget(times, prevTarget.value, bitsTarget.value, currentTime);
    return Some(target);
  }

  /** The window loop of ComputeRTT. */
  method LowerTarget(times: seq<int>, prevTarget: nat, bitsTarget: int, currentTime: int) returns (nextTarget: int)
    ensures nextTarget == Least(times, prevTarget, bitsTarget, currentTime, |times|)
  {
    nextTarget := bitsTarget;
    var filterIndex := if |times| <= 4 then 1 else 0;
    var prevWindowTimestamp := 0;
    var i := 0;
    while i < |times|
      invariant 0 <= i <= |times|
      invariant filterIndex == Start(times) + i
      invariant prevWindowTimestamp == LastNonzero(times[..i])
      invariant nextTarget == Least(times, prevTarget, bitsTarget, currentTime, i)
    {
      if filterIndex >= |COEFFICIENTS| {
        BeyondCoefficients(times, prevTarget, bitsTarget, currentTime, i, |times|);
        return;
      }
      assert times[..i + 1][..i] == times[..i];
      var timestamp := times[i];
      i := i + 1;
      if timestamp == 0 {
        filterIndex := filterIndex + 1;
        continue;
      }
      if i > 1 && timestamp == prevWindowTimestamp {
        filterIndex := filterIndex + 1;
        continue;
      }
      prevWindowTimestamp := timestamp;
      var diffTime := currentTime - timestamp;
      if diffTime < 1 {
        diffTime := 1;
      }
      var target := WindowTarget(prevTarget, COEFFICIENTS[filterIndex], diffTime);
      filterIndex := filterIndex + 1;
      if target < nextTarget {
        nextTarget := target;
      }
    }
  }

  lemma {:induction false} BeyondCoefficients(times: seq<int>, prevTarget: nat, target: int, now: int, i: nat, n: nat)
    requires i <= n <= |times| && Start(times) + i >= |COEFFICIENTS|
    ensures Least(times, prevTarget, target, now, n) == Least(times, prevTarget, target, now, i)
  {
    if i < n {
      BeyondCoefficients(times, prevTarget, target, now, i, n - 1);
    }
  }

  // What the result is.

  /** One of the candidates, and none of them is smaller. */
  lemma {:induction false} LeastIs(times: seq<int>, prevTarget: nat, target: int, now: int, n: nat)
    requires n <= |times|
    ensures var r := Least(times, prevTarget, target, now, n);
            && r <= target && (forall i :: 0 <= i < n && Used(times, i) ==> r <= TargetOf(times, prevTarget, now, i))
            && (r == target || exists i :: 0 <= i < n && Used(times, i) && r == TargetOf(times, prevTarget, now, i))
  {
    if n > 0 {
      LeastIs(times, prevTarget, target, now, n - 1);
    }
  }

  /** The Real Time Target is the minimum of the bits target and the targets of the windows that count. */
  lemma {:induction false} RttIsMinimum(rtt: Rtt, bits: Option<Bytes>, now: int)
    requires RttOf(rtt, bits, now).Some?
    ensures var r, times := RttOf(rtt, bits, now).value, rtt.prevHeaderTime;
            var prev, target := RttTarget(rtt.prevBits.value), RttTarget(bits.value);
            && r <= target && (forall i :: 0 <= i < |times| && Used(times, i) ==> r <= TargetOf(times, prev, now, i))
            && (r == target || exists i :: 0 <= i < |times| && Used(times, i) && r == TargetOf(times, prev, now, i))
  {
    LeastIs(rtt.prevHeaderTime, RttTarget(rtt.prevBits.value), RttTarget(bits.value), now, |rtt.prevHeaderTime|);
  }

  // Time.

  lemma {:induction false} Product(x: real, y: real)
    requires x >= 0.0 && y >= 0.0
    ensures x * y >= 0.0
  {
  }

  lemma {:induction false} ProductMonotone(x: real, y: real, u: real, v: real)
    requires 0.0 <= x <= u && 0.0 <= y <= v
    ensures x * y <= u * v
  {
    Product(u - x, y);
    Product(u, v - y);
    assert u * v - x * y == (u - x) * y + u * (v - y);
  }

  lemma {:induction false} Pow5Monotone(x: real, y: real)
    requires 0.0 <= x <= y
    ensures 0.0 <= Pow5(x) <= Pow5(y)
  {
    Product(x, x);
    Product(x * x, x);
    Product(x * x * x, x);
    Product(x * x * x * x, x);
    ProductMonotone(x, x, y, y);
    ProductMonotone(x * x, x, y * y, y);
    ProductMonotone(x * x * x, x, y * y * y, y);
    ProductMonotone(x * x * x * x, x, y * y * y * y, y);
  }

  lemma {:induction false} WindowMonotone(prevTarget: nat, coefficient: real, e: int, f: int)
    requires coefficient >= 0.0 && 0 <= e <= f
    ensures WindowTarget(prevTarget, coefficient, e) <= WindowTarget(prevTarget, coefficient, f)
  {
    var c := prevTarget as real * coefficient;
    Product(prevTarget as real, coefficient);
    Pow5Monotone(e as real, f as real);
    ProductMonotone(c, Pow5(e as real), c, Pow5(f as real));
    FloorMonotone(c * Pow5(e as real), c * Pow5(f as real));
  }

  lemma {:induction false} FloorMonotone(x: real, y: real)
    requires x <= y
    ensures x.Floor <= y.Floor
  {
  }

  lemma {:induction false} LeastMonotone(times: seq<int>, prevTarget: nat, target: int, now: int, later: int, n: nat)
    requires n <= |times| && now <= later
    ensures Least(times, prevTarget, target, now, n) <= Least(times, prevTarget, target, later, n)
  {
    if n > 0 {
      LeastMonotone(times, prevTarget, target, now, later, n - 1);
      if Used(times, n - 1) {
        WindowMonotone(prevTarget, COEFFICIENTS[Start(times) + n - 1], Elapsed(now, times[n - 1]),
                       Elapsed(later, times[n - 1]));
      }
    }
  }

  /** Waiting never makes the target harder. */
  lemma {:induction false} RttMonotone(rtt: Rtt, bits: Option<Bytes>, now: int, later: int)
    requires now <= later && RttOf(rtt, bits, now).Some?
    ensures RttOf(rtt, bits, later).Some? && RttOf(rtt, bits, now).value <= RttOf(rtt, bits, later).value
  {
    LeastMonotone(rtt.prevHeaderTime, RttTarget(rtt.prevBits.value), RttTarget(bits.value), now, later,
                  |rtt.prevHeaderTime|);
  }

  // Against the other compact decoder.

  lemma {:induction false} FourBytes(b: Bytes)
    requires |b| == 4
    ensures Value(256, b) == b[0] as int * 0x100_0000 + Mantissa(b) < 0x1_0000_0000
    ensures Value(256, b) / 0x100_0000 == b[0] && Value(256, b) % 0x80_0000 == Mantissa(b) % 0x80_0000
    ensures Value(256, b) / 0x80_0000 % 2 == Mantissa(b) / 0x80_0000
  {
    assert b[..3][..2][..1][..0] == [];
    assert b[..3][..2] == b[..2] && b[..2][..1] == b[..1];
    assert b[..3][2] == b[2] && b[..2][1] == b[1] && b[..1][0] == b[0];
    assert Value(256, b[..1]) == b[0];
    assert Value(256, b[..2]) == b[0] as int * 256 + b[1];
    assert Value(256, b[..3]) == (b[0] as int * 256 + b[1]) * 256 + b[2];
    CompactParts(b[0], Mantissa(b));
  }

  lemma {:induction false} CompactParts(exponent: nat, mantissa: nat)
    requires mantissa < 0x100_0000
    ensures var n := exponent * 0x100_0000 + mantissa;
            && n / 0x100_0000 == exponent && n % 0x80_0000 == mantissa % 0x80_0000
            && n / 0x80_0000 % 2 == mantissa / 0x80_0000
  {
    var n, top, low := exponent * 0x100_0000 + mantissa, mantissa / 0x80_0000, mantissa % 0x80_0000;
    DivModUnique(n, 0x100_0000, exponent, mantissa);
    DivModUnique(n, 0x80_0000, 2 * exponent + top, low);
  }

  /** The two decoders of compact targets agree exactly when the sign bit is clear or the exponent is zero. */
  lemma {:induction false} DecodersAgreeIff(b: Bytes)
    requires |b| == 4
    ensures 0 <= Value(256, b) < 0x1_0000_0000
    ensures RttTarget(b) == CompactToBig(Value(256, b)) <==> Mantissa(b) < 0x80_0000 || b[0] == 0
  {
    FourBytes(b);
    var m := Mantissa(b);
    var p := Pow(256, if b[0] >= 3 then b[0] - 3 else 3 - b[0]);
    assert Pow(256, 0) == 1 && Pow(256, 1) == 256 && Pow(256, 2) == 0x1_0000 && Pow(256, 3) == 0x100_0000;
    if m >= 0x80_0000 {
      if b[0] >= 3 {
        ProductSign(m, p);
        ProductSign(m - 0x80_0000, p);
      }
    }
  }

  lemma {:induction false} ProductSign(x: nat, p: nat)
    requires p > 0
    ensures x * p >= x
  {
  }

  /** With the sign bit clear, a hash that meets the Real Time Target also meets the network target. */
  lemma {:induction false} RttIsStricter(rtt: Rtt, bits: Option<Bytes>, now: int)
    requires RttOf(rtt, bits, now).Some? && Mantissa(bits.value) < 0x80_0000
    ensures 0 <= Value(256, bits.value) < 0x1_0000_0000
    ensures RttOf(rtt, bits, now).value <= CompactToBig(Value(256, bits.value))
  {
    DecodersAgreeIff(bits.value);
    RttIsMinimum(rtt, bits, now);
  }
}
