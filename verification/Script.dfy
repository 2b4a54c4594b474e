/** Byte-level serialization (pkg/coinbase/script.go) and the parsers it is checked against. */
module Script {
  import opened Common

  datatype Parsed<+T> = Fail | Ok(value: T, rest: Bytes)

  function TakeBytes(n: nat, s: Bytes): Parsed<Bytes> {
    if |s| < n then Fail else Ok(s[..n], s[n..])
  }

  /** Little-endian value. */
  function FromLE(s: Bytes): nat {
    if s == [] then 0 else s[0] + 256 * FromLE(s[1..])
  }

  function TakeLE(n: nat, s: Bytes): Parsed<nat> {
    if |s| < n then Fail else Ok(FromLE(s[..n]), s[n..])
  }

  type uint32 = n: nat | n < 0x1_0000_0000
  type uint64 = n: nat | n < 0x1_0000_0000_0000_0000

  /** The low `len` bytes of n, lowest first: byte(n), byte(n >> 8), ... */
  function PutLE(n: nat, len: nat): (b: Bytes)
    ensures |b| == len
    decreases len
  {
    if len == 0 then [] else [n % 256] + PutLE(n / 256, len - 1)
  }

  function PutUint32LE(v: uint32): (b: Bytes)
    ensures |b| == 4
  {
    PutLE(v, 4)
  }

  function PutUint64LE(v: uint64): (b: Bytes)
    ensures |b| == 8
  {
    PutLE(v, 8)
  }

  function SerializeVarInt(n: uint64): (b: Bytes)
    ensures 1 <= |b| <= 9
  {
    if n < 0xFD then [n]
    else if n <= 0xFFFF then [0xFD] + PutLE(n, 2)
    else if n <= 0xFFFF_FFFF then [0xFE] + PutLE(n, 4)
    else [0xFF] + PutLE(n, 8)
  }

  /** readVarInt of builder.go: value and bytes consumed; a truncated integer reads as (0, 1). */
  function ReadVarInt(data: Bytes): (r: (nat, nat)) {
    if |data| == 0 then (0, 0)
    else if data[0] < 0xFD then (data[0], 1)
    else
      var size := if data[0] == 0xFD then 2 else if data[0] == 0xFE then 4 else 8;
      if |data| < 1 + size then (0, 1) else (FromLE(data[1..1 + size]), 1 + size)
  }

  /** CompactSize as the Bitcoin wire format defines it: a short string is an error. */
  function TakeVarInt(s: Bytes): Parsed<nat> {
    if s == [] then Fail
    else if s[0] < 0xFD then Ok(s[0], s[1..])
    else TakeLE(if s[0] == 0xFD then 2 else if s[0] == 0xFE then 4 else 8, s[1..])
  }

  function Pow256(k: nat): (p: nat)
    ensures p > 0
  {
    if k == 0 then 1 else 256 * Pow256(k - 1)
  }

  lemma {:induction false} PutLERoundTrip(n: nat, len: nat)
    requires n < Pow256(len)
    ensures FromLE(PutLE(n, len)) == n
    decreases len
  {
    if len > 0 {
      PutLERoundTrip(n / 256, len - 1);
      assert PutLE(n, len)[1..] == PutLE(n / 256, len - 1);
    }
  }

  lemma {:induction false} Sizes()
    ensures Pow256(2) == 0x1_0000
    ensures Pow256(4) == 0x1_0000_0000
    ensures Pow256(8) == 0x1_0000_0000_0000_0000
  {
  }

  lemma {:induction false} TakeWrittenLE(n: nat, len: nat, rest: Bytes)
    requires n < Pow256(len)
    ensures TakeLE(len, PutLE(n, len) + rest) == Ok(n, rest)
  {
    PutLERoundTrip(n, len);
    assert (PutLE(n, len) + rest)[..len] == PutLE(n, len);
  }

  /** Reading back what was written, whatever follows. */
  lemma {:induction false} TakeWrittenVarInt(n: uint64, rest: Bytes)
    ensures TakeVarInt(SerializeVarInt(n) + rest) == Ok(n, rest)
  {
    Sizes();
    if n < 0xFD {
      assert ([n] + rest)[1..] == rest;
    } else if n <= 0xFFFF {
      TakeWrittenLong(0xFD, n, 2, rest);
    } else if n <= 0xFFFF_FFFF {
      TakeWrittenLong(0xFE, n, 4, rest);
    } else {
      TakeWrittenLong(0xFF, n, 8, rest);
    }
  }

  lemma {:induction false} TakeWrittenLong(marker: byte, n: nat, len: nat, rest: Bytes)
    requires marker >= 0xFD && len == (if marker == 0xFD then 2 else if marker == 0xFE then 4 else 8)
    requires n < Pow256(len)
    ensures TakeVarInt([marker] + PutLE(n, len) + rest) == Ok(n, rest)
  {
    TakeWrittenLE(n, len, rest);
    assert ([marker] + PutLE(n, len) + rest)[1..] == PutLE(n, len) + rest;
  }

  /** readVarInt agrees with the wire format wherever that accepts, and elsewhere reads a zero from at most one byte. */
  lemma {:induction false} ReadVarIntAgrees(s: Bytes)
    ensures TakeVarInt(s).Ok? ==>
              && ReadVarInt(s).0 == TakeVarInt(s).value
              && ReadVarInt(s).1 <= |s| && s[ReadVarInt(s).1..] == TakeVarInt(s).rest
    ensures TakeVarInt(s).Fail? ==> ReadVarInt(s) == (0, if s == [] then 0 else 1)
  {
    if TakeVarInt(s).Ok? && s[0] >= 0xFD {
      var size := if s[0] == 0xFD then 2 else if s[0] == 0xFE then 4 else 8;
      assert s[1..][..size] == s[1..1 + size];
    }
  }

  lemma {:induction false} TakePrefix(a: Bytes, rest: Bytes)
    ensures TakeBytes(|a|, a + rest) == Ok(a, rest)
  {
  }

  // Block heights (BIP34).

  /** Little-endian bytes without trailing zeros. */
  function MinimalLE(n: nat): (b: Bytes)
    ensures n > 0 ==> b != [] && b[|b| - 1] != 0
  {
    if n == 0 then [] else [n % 256] + MinimalLE(n / 256)
  }

  function HeightBytes(height: int): (b: Bytes)
    requires height > 0
    ensures b != []
  {
    var b := MinimalLE(height);
    if b[|b| - 1] >= 0x80 then b + [0] else b
  }

  function SerializeHeightSpec(height: int): Bytes
    requires height < 0x8000_0000_0000_0000
  {
    if height <= 0 then [0x01, 0x00]
    else
      HeightBytesShort(height);
      [|HeightBytes(height)|] + HeightBytes(height)
  }

  lemma {:induction false} MinimalLEShort(n: nat, k: nat, bound: nat)
    requires n < bound && bound == Pow256(k)
    ensures |MinimalLE(n)| <= k
    decreases k
  {
    if n > 0 && k > 0 {
      MinimalLEShort(n / 256, k - 1, Pow256(k - 1));
    }
  }

  lemma {:induction false} HeightBytesShort(height: int)
    requires 0 < height < 0x8000_0000_0000_0000
    ensures |HeightBytes(height)| <= 9
  {
    Sizes();
    MinimalLEShort(height, 8, Pow256(8));
  }

  lemma {:induction false} MinimalLEValue(n: nat)
    ensures FromLE(MinimalLE(n)) == n
  {
    if n > 0 {
      MinimalLEValue(n / 256);
      assert MinimalLE(n)[1..] == MinimalLE(n / 256);
    }
  }

  lemma {:induction false} FromLETrailingZero(s: Bytes)
    ensures FromLE(s + [0]) == FromLE(s)
  {
    if s != [] {
      assert (s + [0])[1..] == s[1..] + [0];
      FromLETrailingZero(s[1..]);
    }
  }

  /** Numbers in scripts: little-endian with the sign in the top bit of the last byte. */
  function ScriptNumber(s: Bytes): int {
    if s == [] then 0
    else if s[|s| - 1] < 0x80 then FromLE(s)
    else 0 - FromLE(s[..|s| - 1] + [s[|s| - 1] - 0x80]) as int
  }

  /** Nothing could be dropped: the last byte carries value bits, or only exists to keep the sign clear. */
  predicate MinimalNumber(s: Bytes) {
    s == [] || s[|s| - 1] % 0x80 != 0 || (|s| > 1 && s[|s| - 2] >= 0x80)
  }

  /** BIP34: a direct push of the height as a minimally encoded, positive script number. */
  lemma {:induction false} HeightIsMinimalPush(height: int)
    requires 0 < height < 0x8000_0000_0000_0000
    ensures var push := SerializeHeightSpec(height);
            && push[0] == |push| - 1 && 1 <= push[0] <= 75
            && MinimalNumber(push[1..]) && ScriptNumber(push[1..]) == height
  {
    HeightBytesShort(height);
    var b := MinimalLE(height);
    MinimalLEValue(height);
    FromLETrailingZero(b);
    assert SerializeHeightSpec(height)[1..] == HeightBytes(height);
  }

  /** The shortest push of a number: an opcode of its own for -1 to 16, else a direct push of its minimal encoding. */
  predicate IsMinimalPush(push: Bytes, n: int) {
    if n == -1 then push == [0x4f]
    else if n == 0 then push == [0x00]
    else if 1 <= n <= 16 then push == [0x50 + n]
    else
      && push != [] && push[0] == |push| - 1 && 1 <= push[0] <= 75
      && MinimalNumber(push[1..]) && ScriptNumber(push[1..]) == n
  }

  /** Height 1 is pushed as two bytes where one opcode would do. */
  lemma {:induction false} HeightOneIsLonger()
    ensures SerializeHeightSpec(1) == [0x01, 0x01] && IsMinimalPush([0x51], 1)
  {
    assert MinimalLE(1) == [1] + MinimalLE(0);
  }

  /** The code never uses those opcodes: its push is the shortest one exactly for heights above 16. */
  lemma {:induction false} MinimalPushIff(height: int)
    requires -0x8000_0000_0000_0000 <= height < 0x8000_0000_0000_0000
    ensures IsMinimalPush(SerializeHeightSpec(height), height) <==> height > 16
  {
    if height > 0 {
      HeightIsMinimalPush(height);
    } else {
      assert SerializeHeightSpec(height)[1..] == [0x00];
    }
  }

  /** SerializeHeight. */
  method SerializeHeight(height: int) returns (result: Bytes)
    requires height < 0x8000_0000_0000_0000
    ensures result == SerializeHeightSpec(height)
  {
    if height < 0 {
      return [0x01, 0x00];
    }
    if height == 0 {
      return [0x01, 0x00];
    }
    var buf := CollectBytes(height);
    HeightBytesShort(height);
    if buf[|buf| - 1] >= 0x80 {
      buf := buf + [0x00];
    }
    return [|buf|] + buf;
  }

  /** The digit loop of SerializeHeight. */
  method CollectBytes(height: nat) returns (buf: Bytes)
    ensures buf == MinimalLE(height)
  {
    var h := height;
    buf := [];
    while h > 0
      invariant buf + MinimalLE(h) == MinimalLE(height)
    {
      NextByte(buf, h);
      var low: byte := h % 256;
      buf := buf + [low];
      h := h / 256;
    }
    assert MinimalLE(h) == [] && buf + [] == buf;
  }

  lemma {:induction false} NextByte(buf: Bytes, h: nat)
    requires h > 0
    ensures buf + [h % 256] + MinimalLE(h / 256) == buf + MinimalLE(h)
  {
    Assoc2(buf, [h % 256], MinimalLE(h / 256));
  }

  // Byte order.

  function Reversed(b: Bytes): (r: Bytes)
    ensures |r| == |b|
    ensures forall i :: 0 <= i < |b| ==> r[i] == b[|b| - 1 - i]
  {
    seq(|b|, i requires 0 <= i < |b| => b[|b| - 1 - i])
  }

  /** ReverseBytes: a new buffer; the input is untouched. */
  method ReverseBytes(b: Bytes) returns (reversed: Bytes)
    ensures reversed == Reversed(b)
  {
    var out := new byte[|b|](i => 0);
    var i := 0;
    while i < |b|
      invariant 0 <= i <= |b|
      invariant forall k :: 0 <= k < i ==> out[|b| - 1 - k] == b[k]
    {
      out[|b| - 1 - i] := b[i];
      i := i + 1;
    }
    forall k | 0 <= k < |b| ensures out[..][k] == Reversed(b)[k] {
      assert out[|b| - 1 - (|b| - 1 - k)] == b[|b| - 1 - k];
    }
    return out[..];
  }

  // Output scripts.

  function P2PKHScript(pubKeyHash: Bytes): Bytes {
    [0x76, 0xa9, 0x14] + pubKeyHash + [0x88, 0xac]
  }

  function P2SHScript(scriptHash: Bytes): Bytes {
    [0xa9, 0x14] + scriptHash + [0x87]
  }
}
