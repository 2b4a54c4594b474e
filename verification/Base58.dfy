/** Base58 and Base58Check decoding (pkg/coin/base58.go). */
module Base58 {
  import opened Common
  import opened Positional

  const ALPHABET := "1" + "23456789" + "ABCDEFGHJKLMNPQRSTUVWXYZ" + "abcdefghijkmnopqrstuvwxyz"

  /** The reverse table: the digit a character stands for, -1 for all others. */
  function Reverse(c: char): (r: int)
    ensures -1 <= r < 58
  {
    ReverseFrom(c, 0)
  }

  function ReverseFrom(c: char, i: nat): (r: int)
    requires i <= 58
    ensures -1 <= r < 58
    decreases 58 - i
  {
    if i == 58 then -1 else if ALPHABET[i] == c then i else ReverseFrom(c, i + 1)
  }

  lemma {:induction false} ReverseFromIs(c: char, i: nat)
    requires i <= 58
    ensures ReverseFrom(c, i) == -1 || (i <= ReverseFrom(c, i) && ALPHABET[ReverseFrom(c, i)] == c)
    decreases 58 - i
  {
    if i < 58 && ALPHABET[i] != c {
      ReverseFromIs(c, i + 1);
    }
  }

  lemma {:induction false} ReverseInjective(c: char, d: char)
    requires Reverse(c) == Reverse(d) != -1
    ensures c == d
  {
    ReverseFromIs(c, 0);
    ReverseFromIs(d, 0);
  }

  lemma {:induction false} OnlyOneIsZero(c: char)
    ensures Reverse(c) == 0 <==> c == '1'
  {
    ReverseFromIs(c, 0);
    assert ALPHABET[0] == '1';
  }

  predicate IsBase58(s: string) {
    forall i :: 0 <= i < |s| ==> Reverse(s[i]) != -1
  }

  function DigitsOf(s: string): (ds: seq<int>)
    requires IsBase58(s)
    ensures |ds| == |s| && IsDigits(58, ds)
    ensures forall i :: 0 <= i < |s| ==> ds[i] == Reverse(s[i])
  {
    seq(|s|, i requires 0 <= i < |s| => Reverse(s[i]))
  }

  /** big.Int.Bytes: big-endian, without leading zeros. */
  function BytesOf(n: nat): (b: Bytes)
    ensures b != [] ==> b[0] != 0
    ensures b == [] <==> n == 0
  {
    if n == 0 then [] else BytesOf(n / 256) + [n % 256]
  }

  lemma {:induction false} ValueOfBytes(n: nat)
    ensures Value(256, BytesOf(n)) == n
  {
    if n > 0 {
      ValueOfBytes(n / 256);
      ValueSnoc(256, BytesOf(n / 256), n % 256);
    }
  }

  function LeadingOnes(s: string): (k: nat)
    ensures k <= |s|
    ensures forall i :: 0 <= i < k ==> s[i] == '1'
    ensures k < |s| ==> s[k] != '1'
  {
    if s == "" || s[0] != '1' then 0
    else
      var k := LeadingOnes(s[1..]);
      assert forall i :: 1 <= i <= k ==> s[i] == s[1..][i - 1];
      1 + k
  }

  /** Leading '1's become leading zero bytes; the rest is the minimal big-endian value. */
  function DecodeSpec(s: string): Option<Bytes> {
    if s == "" || !IsBase58(s) then None
    else Some(Zeros(LeadingOnes(s)) + BytesOf(Value(58, DigitsOf(s))))
  }

  lemma {:induction false} MoreZerosDiffer(a: nat, x: Bytes, b: nat, y: Bytes)
    requires x != [] ==> x[0] != 0
    requires a < b
    ensures Zeros(a) + x != Zeros(b) + y
  {
    var s, t := Zeros(a) + x, Zeros(b) + y;
    if |s| == |t| {
      assert s[a] == x[0] && t[a] == 0;
    }
  }

  lemma {:induction false} SplitLeadingZeros(a: nat, x: Bytes, b: nat, y: Bytes)
    requires x != [] ==> x[0] != 0
    requires y != [] ==> y[0] != 0
    requires Zeros(a) + x == Zeros(b) + y
    ensures a == b && x == y
  {
    if a < b {
      MoreZerosDiffer(a, x, b, y);
    } else if b < a {
      MoreZerosDiffer(b, y, a, x);
    } else {
      assert x == (Zeros(a) + x)[a..] && y == (Zeros(b) + y)[b..];
    }
  }

  lemma {:induction false} LeadingZero(ds: seq<int>)
    ensures Value(58, [0] + ds) == Value(58, ds)
  {
    ValueAppend(58, [0], ds);
    assert [0][..0] == [];
  }

  lemma {:induction false} DropLeadingZeros(ds: seq<int>, k: nat)
    requires k <= |ds| && forall i :: 0 <= i < k ==> ds[i] == 0
    ensures Value(58, ds) == Value(58, ds[k..])
  {
    if k > 0 {
      assert ds == [0] + ds[1..];
      LeadingZero(ds[1..]);
      DropLeadingZeros(ds[1..], k - 1);
      assert ds[1..][k - 1..] == ds[k..];
    }
  }

  /** No two different strings decode alike. */
  lemma {:induction false} DecodeInjective(s: string, t: string)
    requires DecodeSpec(s).Some? && DecodeSpec(s) == DecodeSpec(t)
    ensures s == t
  {
    var v, w := Value(58, DigitsOf(s)), Value(58, DigitsOf(t));
    SplitLeadingZeros(LeadingOnes(s), BytesOf(v), LeadingOnes(t), BytesOf(w));
    ValueOfBytes(v);
    ValueOfBytes(w);
    SameZerosSameValue(s, t);
    SameDigits(s, t);
  }

  lemma {:induction false} SameZerosSameValue(s: string, t: string)
    requires IsBase58(s) && IsBase58(t)
    requires LeadingOnes(s) == LeadingOnes(t) && Value(58, DigitsOf(s)) == Value(58, DigitsOf(t))
    ensures DigitsOf(s) == DigitsOf(t)
  {
    var k := LeadingOnes(s);
    OnlyLeadingOnes(s, k);
    OnlyLeadingOnes(t, k);
    SameAfterZeros(DigitsOf(s), DigitsOf(t), k);
  }

  lemma {:induction false} SameAfterZeros(ds: seq<int>, dt: seq<int>, k: nat)
    requires IsDigits(58, ds) && IsDigits(58, dt)
    requires k <= |ds| && k <= |dt|
    requires forall i :: 0 <= i < k ==> ds[i] == 0 && dt[i] == 0
    requires k < |ds| ==> ds[k] != 0
    requires k < |dt| ==> dt[k] != 0
    requires Value(58, ds) == Value(58, dt)
    ensures ds == dt
  {
    DropLeadingZeros(ds, k);
    DropLeadingZeros(dt, k);
    assert ds[k..] == dt[k..] by { CanonicalInjective(58, ds[k..], dt[k..]); }
    SameParts(ds, dt, k);
  }

  lemma {:induction false} SameParts(ds: seq<int>, dt: seq<int>, k: nat)
    requires k <= |ds| && k <= |dt| && ds[k..] == dt[k..]
    requires forall i :: 0 <= i < k ==> ds[i] == dt[i]
    ensures ds == dt
  {
    assert ds[..k] == dt[..k];
    assert ds == ds[..k] + ds[k..] && dt == dt[..k] + dt[k..];
  }

  lemma {:induction false} OnlyLeadingOnes(s: string, k: nat)
    requires IsBase58(s) && k == LeadingOnes(s)
    ensures forall i :: 0 <= i < k ==> DigitsOf(s)[i] == 0
    ensures k < |s| ==> DigitsOf(s)[k] != 0
  {
    forall i | 0 <= i < |s| ensures Reverse(s[i]) == 0 <==> s[i] == '1' {
      OnlyOneIsZero(s[i]);
    }
  }

  lemma {:induction false} SameDigits(s: string, t: string)
    requires IsBase58(s) && IsBase58(t) && DigitsOf(s) == DigitsOf(t)
    ensures s == t
  {
    forall i | 0 <= i < |s| ensures s[i] == t[i] {
      assert DigitsOf(s)[i] == DigitsOf(t)[i];
      ReverseInjective(s[i], t[i]);
    }
  }

  lemma {:induction false} NextDigit(s: string, i: nat)
    requires i < |s| && IsBase58(s[..i]) && Reverse(s[i]) != -1
    ensures IsBase58(s[..i + 1])
    ensures Value(58, DigitsOf(s[..i + 1])) == Value(58, DigitsOf(s[..i])) * 58 + Reverse(s[i])
  {
    assert DigitsOf(s[..i + 1]) == DigitsOf(s[..i]) + [Reverse(s[i])];
    ValueSnoc(58, DigitsOf(s[..i]), Reverse(s[i]));
  }

  /** Base58Decode. */
  method Decode(s: string) returns (r: Option<Bytes>)
    ensures r == DecodeSpec(s)
  {
    if |s| == 0 {
      return None;
    }
    var result: nat := 0;
    var i := 0;
    while i < |s|
      invariant 0 <= i <= |s|
      invariant IsBase58(s[..i]) && result == Value(58, DigitsOf(s[..i]))
    {
      if Reverse(s[i]) == -1 {
        return None;
      }
      NextDigit(s, i);
      result := result * 58 + Reverse(s[i]);
      i := i + 1;
    }
    assert s[..i] == s;
    var leadingZeros := CountLeadingOnes(s);
    return Some(Zeros(leadingZeros) + BytesOf(result));
  }

  method CountLeadingOnes(s: string) returns (leadingZeros: nat)
    ensures leadingZeros == LeadingOnes(s)
  {
    leadingZeros := 0;
    while leadingZeros < |s| && s[leadingZeros] == '1'
      invariant 0 <= leadingZeros <= LeadingOnes(s)
    {
      leadingZeros := leadingZeros + 1;
    }
  }

  lemma {:induction false} BytesOfShort(n: nat, k: nat)
    requires n < Pow(256, k)
    ensures |BytesOf(n)| <= k
    decreases k
  {
    if n > 0 && k > 0 {
      BytesOfShort(n / 256, k - 1);
    }
  }

  lemma {:induction false} ValueBelow(ds: seq<int>)
    requires IsDigits(58, ds)
    ensures Value(58, ds) < Pow(256, |ds|)
  {
    if ds != [] {
      ValueBelow(ds[..|ds| - 1]);
    }
  }

  /** Decoding never makes a string longer. */
  lemma {:induction false} DecodedIsShort(s: string)
    requires DecodeSpec(s).Some?
    ensures |DecodeSpec(s).value| <= |s|
  {
    var ds, k := DigitsOf(s), LeadingOnes(s);
    OnlyLeadingOnes(s, k);
    DropLeadingZeros(ds, k);
    ValueBelow(ds[k..]);
    BytesOfShort(Value(58, ds), |s| - k);
  }

  datatype Checked = Checked(version: byte, payload: Bytes)

  /** Base58CheckDecode: the last four bytes must be the first four of the hash of the rest. */
  function CheckDecode(h: Sha256d, address: string): Option<Checked> {
    var decoded := DecodeSpec(address);
    if decoded.None? || |decoded.value| < 5 then None
    else
      var payload := decoded.value[..|decoded.value| - 4];
      var checksum := decoded.value[|decoded.value| - 4..];
      if h(payload)[..4] != checksum then None
      else Some(Checked(payload[0], payload[1..]))
  }
}
