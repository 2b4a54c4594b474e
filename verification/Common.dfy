/** Vocabulary shared by every module: bytes, optional results and the hash parameter. */
module Common {

  datatype Option<+T> = None | Some(value: T)

  type byte = b: int | 0 <= b < 256

  type Bytes = seq<byte>

  /** A 32-byte string, the shape of every transaction id and block hash. */
  type Bytes32 = s: Bytes | |s| == 32 witness seq(32, i => 0)

  /**
   * SHA-256 applied twice. Nothing below depends on which function it is: every result that mentions
   * one is proved for every total function from byte strings to 32 bytes.
   */
  type Sha256d = Bytes -> Bytes32

  function Zeros(n: nat): (z: Bytes)
    ensures |z| == n
    ensures forall i :: 0 <= i < n ==> z[i] == 0
  {
    seq(n, i => 0)
  }

  function Max(a: int, b: int): int {
    if a < b then b else a
  }

  function Min(a: int, b: int): int {
    if b < a then b else a
  }

  lemma {:induction false} Assoc2(a: Bytes, b: Bytes, rest: Bytes)
    ensures a + b + rest == a + (b + rest)
  {
  }

  lemma {:induction false} Assoc3(a: Bytes, b: Bytes, c: Bytes, rest: Bytes)
    ensures a + b + c + rest == a + (b + (c + rest))
  {
  }

  lemma {:induction false} Assoc4(a: Bytes, b: Bytes, c: Bytes, d: Bytes, rest: Bytes)
    ensures a + b + c + d + rest == a + (b + (c + (d + rest)))
  {
    Assoc3(a, b, c, d + rest);
  }

  lemma {:induction false} Assoc5(a: Bytes, b: Bytes, c: Bytes, d: Bytes, e: Bytes, rest: Bytes)
    ensures a + b + c + d + e + rest == a + (b + (c + (d + (e + rest))))
  {
    Assoc4(a, b, c, d, e + rest);
  }
}
