/** Targets and share difficulty (pkg/coin/difficulty.go); floating-point rounding is left out. */
module Difficulty {
  import opened Common
  import opened Positional
  import opened Script

  /** 0xFFFF shifted left by 208 bits. */
  const MAXTARGET: nat := 0xFFFF_0000_0000_0000_0000_0000_0000_0000_0000_0000_0000_0000_0000_0000

  /** CompactToBig: the sign bit negates the target. */
  function CompactToBig(compact: uint32): int {
    var exponent := compact / 0x100_0000;
    var mantissa := compact % 0x80_0000;
    var target := if exponent <= 3 then mantissa / Pow(256, 3 - exponent) else mantissa * Pow(256, exponent - 3);
    if compact / 0x80_0000 % 2 != 0 then -target else target
  }

  /** DifficultyToTarget: the difficulty-1 target divided, truncated. */
  function DifficultyToTarget(difficulty: real): int {
    if difficulty <= 0.0 then MAXTARGET else (MAXTARGET as real / difficulty).Floor
  }

  /** HashMeetsTarget, on big-endian bytes. */
  predicate HashMeetsTarget(hash: Bytes, target: int) {
    Value(256, hash) <= target
  }

  predicate HashMeetsDifficulty(hash: Bytes, difficulty: real) {
    HashMeetsTarget(hash, DifficultyToTarget(difficulty))
  }

  /** Meeting a positive difficulty means hash times difficulty is at most the difficulty-1 target. */
  lemma {:induction false} MeetsIff(hash: Bytes, difficulty: real)
    requires difficulty > 0.0
    ensures HashMeetsDifficulty(hash, difficulty) <==> Value(256, hash) as real * difficulty <= MAXTARGET as real
  {
    QuotientFloor(MAXTARGET, difficulty, MAXTARGET as real / difficulty, Value(256, hash));
  }

  lemma {:induction false} QuotientFloor(n: int, d: real, q: real, v: int)
    requires d > 0.0 && q * d == n as real
    ensures v <= q.Floor <==> v as real * d <= n as real
  {
    if v as real <= q {
      ScaledAtMost(v as real, q, d);
    } else {
      ScaledLess(q, v as real, d);
    }
  }

  lemma {:induction false} ScaledAtMost(x: real, y: real, d: real)
    requires x <= y && d > 0.0
    ensures x * d <= y * d
  {
  }

  lemma {:induction false} ScaledLess(x: real, y: real, d: real)
    requires x < y && d > 0.0
    ensures x * d < y * d
  {
  }
}
