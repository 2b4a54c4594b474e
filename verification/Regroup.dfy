/** Regrouping a digit string into digits of another width, as both address formats do between 8 and 5 bits. */
module Regroup {
  import opened Common
  import opened Positional

  const WORD: nat := Pow(2, 64)

  /** The value a signed 64-bit register holds for x. */
  function WrapInt64(x: int): (r: int)
    ensures -(WORD as int) <= 2 * r < WORD
  {
    (x + WORD / 2) % WORD - WORD / 2
  }

  /** The two widths in use. */
  lemma {:induction false} Widths()
    ensures Pow(2, 5) == 32 && Pow(2, 8) == 256
  {
  }

  lemma {:induction false} NatProduct(x: nat, y: nat)
    ensures x * y >= 0
  {
  }

  lemma {:induction false} NatQuotient(x: nat, d: nat)
    requires d > 0
    ensures x / d >= 0 && 0 <= x % d < d
  {
  }

  predicate InWidth(data: seq<int>, width: nat) {
    IsDigits(Pow(2, width), data)
  }

  /**
   * What regrouping means: read the input as one big number and write that number in the new width.
   * With padding, zero bits complete the last group. Without it, the bits left over must be fewer than
   * one input group and must all be zero.
   */
  function Regrouped(data: seq<int>, fromBits: nat, toBits: nat, pad: bool): (r: Option<seq<int>>)
    requires fromBits > 0 && toBits > 0
    requires InWidth(data, fromBits)
    ensures r.Some? ==> InWidth(r.value, toBits)
  {
    var n := Value(Pow(2, fromBits), data);
    var bits := |data| * fromBits;
    var left := bits % toBits;
    NatProduct(|data|, fromBits);
    NatQuotient(bits, toBits);
    if pad then
      var p := if left == 0 then 0 else toBits - left;
      NatProduct(n, Pow(2, p));
      NatQuotient(bits + p, toBits);
      Some(Digits(Pow(2, toBits), n * Pow(2, p), (bits + p) / toBits))
    else if left >= fromBits || n % Pow(2, left) != 0 then None
    else
      NatQuotient(n, Pow(2, left));
      Some(Digits(Pow(2, toBits), n / Pow(2, left), bits / toBits))
  }

  lemma {:induction false} Distribute(x: int, y: int, d: int)
    ensures (x - y) * d == x * d - y * d
  {
  }

  lemma {:induction false} SubtractMultiple(n: int, j: int, d: int)
    requires d > 0
    ensures (n - j * d) / d == n / d - j && (n - j * d) % d == n % d
  {
    Distribute(n / d, j, d);
    DivModUnique(n - j * d, d, n / d - j, n % d);
  }

  lemma {:induction false} Reassociate(q: int, x: int, y: int, z: int)
    ensures q * (x * y * z) == q * z * y * x
  {
    assert x * y * z == z * (y * x);
    assert q * (z * (y * x)) == (q * z) * (y * x);
    assert (q * z) * (y * x) == q * z * y * x;
  }

  lemma {:induction false} WordSplits(a: nat, b: nat)
    requires a + b <= 64
    ensures WORD == Pow(2, a) * Pow(2, b) * Pow(2, 64 - a - b)
  {
    var c := 64 - a - b;
    PowAdd(2, a, b);
    PowAdd(2, a + b, c);
    assert a + b + c == 64;
  }

  /** Shifting a register that wrapped yields the same group as shifting the unbounded number. */
  lemma {:induction false} GroupOfWrapped(n: int, q: int, b: nat, t: nat)
    requires b + t <= 64
    ensures ((n - q * WORD) / Pow(2, b)) % Pow(2, t) == (n / Pow(2, b)) % Pow(2, t)
  {
    var k := q * Pow(2, 64 - b - t);
    WordSplits(b, t);
    Reassociate(q, Pow(2, b), Pow(2, t), Pow(2, 64 - b - t));
    SubtractMultiple(n, k * Pow(2, t), Pow(2, b));
    SubtractMultiple(n / Pow(2, b), k, Pow(2, t));
  }

  /** Reading one more input group moves everything already emitted out of the way. */
  lemma {:induction false} NextInput(n: nat, v: nat, from: nat, bits: nat)
    requires v < Pow(2, from)
    ensures (n * Pow(2, from) + v) / Pow(2, bits + from) == n / Pow(2, bits)
  {
    PowAdd(2, from, bits);
    DivModUnique(n * Pow(2, from) + v, Pow(2, from), n, v);
    DivDiv(n * Pow(2, from) + v, Pow(2, from), Pow(2, bits));
  }

  lemma {:induction false} NextOutput(n: nat, bits: nat, to: nat)
    requires bits >= to
    ensures n / Pow(2, bits - to) / Pow(2, to) == n / Pow(2, bits)
  {
    PowAdd(2, bits - to, to);
    DivDiv(n, Pow(2, bits - to), Pow(2, to));
  }

  /** The last, padded group. */
  lemma {:induction false} LastGroup(n: nat, q: int, bits: nat, to: nat)
    requires bits < to <= 64
    ensures ((n - q * WORD) * Pow(2, to - bits)) % Pow(2, to) == (n * Pow(2, to - bits)) % Pow(2, to)
    ensures n * Pow(2, to - bits) / Pow(2, to) == n / Pow(2, bits)
    ensures (n * Pow(2, to - bits)) % Pow(2, to) == (n % Pow(2, bits)) * Pow(2, to - bits)
  {
    PowAdd(2, bits, to - bits);
    ScaledDivMod(n, Pow(2, bits), Pow(2, to - bits));
    PaddedWrap(n, q, to, Pow(2, to - bits));
  }

  lemma {:induction false} ScaledDivMod(n: nat, b: nat, p: nat)
    requires b > 0 && p > 0
    ensures b * p > 0 && n * p / (b * p) == n / b && (n * p) % (b * p) == (n % b) * p
  {
    ScaledSplit(n / b, b, n % b, p);
    DivModUnique(n * p, b * p, n / b, (n % b) * p);
  }

  lemma {:induction false} PaddedWrap(n: int, q: int, to: nat, p: nat)
    requires to <= 64
    ensures ((n - q * WORD) * p) % Pow(2, to) == (n * p) % Pow(2, to)
  {
    var t, c := Pow(2, to), Pow(2, 64 - to);
    PowAdd(2, to, 64 - to);
    TakeOut(n, q, WORD, p, t, c);
    SubtractMultiple(n * p, q * p * c, t);
  }

  lemma {:induction false} TakeOut(n: int, q: int, w: int, p: int, t: int, c: int)
    requires w == t * c
    ensures (n - q * w) * p == n * p - (q * p * c) * t
  {
    Distribute(n, q * w, p);
    Reassociate4(q, t, c, p);
  }

  lemma {:induction false} Reassociate4(q: int, t: int, c: int, p: int)
    ensures q * (t * c) * p == (q * p * c) * t
  {
    Swap(q, t * c, p);
    Commute(t, c);
    assert q * p * (c * t) == (q * p * c) * t;
  }

  lemma {:induction false} Swap(x: int, y: int, z: int)
    ensures x * y * z == x * z * y
  {
  }

  lemma {:induction false} ScaledSplit(h: nat, b: nat, l: nat, p: nat)
    requires l < b && p > 0
    ensures (h * b + l) * p == h * (b * p) + l * p
    ensures 0 <= l * p < b * p
  {
    assert (h * b) * p == h * (b * p);
    MulLower(b - 1, l, p);
    assert (b - 1) * p == b * p - p;
  }

  /** ConvertBits of bech32.go: a signed accumulator that is never masked. */
  method ConvertBits(data: seq<int>, fromBits: nat, toBits: nat, pad: bool) returns (r: Option<seq<int>>)
    requires fromBits > 0 && toBits > 0 && fromBits + toBits <= 64
    ensures r == if InWidth(data, fromBits) then Regrouped(data, fromBits, toBits, pad) else None
  {
    var acc: int := 0;
    var bits: nat := 0;
    var ret: seq<int> := [];
    ghost var q: int := 0;
    var i := 0;
    while i < |data|
      invariant 0 <= i <= |data|
      invariant Loaded(data, i, fromBits, toBits, q, acc, bits, ret)
    {
      var value := data[i];
      OutOfWidthOrNot(value, Pow(2, fromBits));
      if value < 0 || value / Pow(2, fromBits) != 0 {
        return None;
      }
      q := WrapStep(acc, data, i, q, fromBits);
      acc := WrapInt64(acc * Pow(2, fromBits) + value);
      bits, ret := TakeIn(data, i, fromBits, toBits, acc, bits, ret, q);
      i := i + 1;
    }
    Finished(data, fromBits, toBits, pad, q, acc, bits, ret);
    r := Closed(acc, fromBits, toBits, pad, bits, ret);
  }

  /** cashAddrConvertBits: the same walk with an unsigned accumulator and no range check on the input. */
  method CashAddrConvertBits(data: seq<int>, fromBits: nat, toBits: nat, pad: bool) returns (r: Option<seq<int>>)
    requires fromBits > 0 && toBits > 0 && fromBits + toBits <= 64
    requires InWidth(data, fromBits)
    ensures r == Regrouped(data, fromBits, toBits, pad)
  {
    var acc: int := 0;
    var bits: nat := 0;
    var ret: seq<int> := [];
    ghost var q: int := 0;
    var i := 0;
    while i < |data|
      invariant 0 <= i <= |data|
      invariant Loaded(data, i, fromBits, toBits, q, acc, bits, ret)
    {
      var value := data[i];
      q := MaskStep(acc, data, i, q, fromBits);
      acc := (acc * Pow(2, fromBits) + value) % WORD;
      bits, ret := TakeIn(data, i, fromBits, toBits, acc, bits, ret, q);
      i := i + 1;
    }
    Finished(data, fromBits, toBits, pad, q, acc, bits, ret);
    r := Closed(acc, fromBits, toBits, pad, bits, ret);
  }

  /** i input groups are in the accumulator, up to whole words, and the full output groups are out. */
  ghost predicate Loaded(data: seq<int>, i: nat, fromBits: nat, toBits: nat, q: int, acc: int, bits: nat, ret: seq<int>)
    requires toBits > 0 && i <= |data|
  {
    && InWidth(data[..i], fromBits)
    && acc == Value(Pow(2, fromBits), data[..i]) - q * WORD
    && Emitted(Value(Pow(2, fromBits), data[..i]), i * fromBits, bits, toBits, ret)
  }

  /** How both end: pad the bits left over to one more group, or refuse them unless they are few and zero. */
  function Closed(acc: int, fromBits: nat, toBits: nat, pad: bool, bits: nat, ret: seq<int>): Option<seq<int>>
    requires bits < toBits
  {
    var last := (acc * Pow(2, toBits - bits)) % Pow(2, toBits);
    if pad then Some(if bits > 0 then ret + [last] else ret)
    else if bits >= fromBits || last != 0 then None
    else Some(ret)
  }

  /** What both do with a group once it is in the accumulator. */
  method TakeIn(data: seq<int>, ghost i: nat, fromBits: nat, toBits: nat, acc: int, pending: nat, emitted: seq<int>,
                ghost q: int)
    returns (bits: nat, ret: seq<int>)
    requires toBits > 0 && fromBits + toBits <= 64 && i < |data|
    requires InWidth(data[..i], fromBits) && 0 <= data[i] < Pow(2, fromBits)
    requires Emitted(Value(Pow(2, fromBits), data[..i]), i * fromBits, pending, toBits, emitted)
    requires acc == Value(Pow(2, fromBits), data[..i + 1]) - q * WORD
    ensures Loaded(data, i + 1, fromBits, toBits, q, acc, bits, ret)
  {
    ghost var n := ReadOne(data, i, fromBits, toBits, pending, emitted);
    bits, ret := EmitGroups(acc, pending + fromBits, toBits, emitted, n, q, (i + 1) * fromBits);
  }

  /** The inner loop of both: emit whole groups from the top of the accumulator. */
  method EmitGroups(acc: int, pending: nat, toBits: nat, emitted: seq<int>, ghost n: nat, ghost q: int, ghost read: nat)
    returns (bits: nat, ret: seq<int>)
    requires toBits > 0 && pending <= 64
    requires acc == n - q * WORD && Drained(n, read, pending, toBits, emitted)
    ensures Emitted(n, read, bits, toBits, ret)
  {
    bits, ret := pending, emitted;
    while bits >= toBits
      invariant bits <= 64
      invariant Drained(n, read, bits, toBits, ret)
    {
      EmitOne(n, q, read, bits, toBits, ret);
      bits := bits - toBits;
      ret := ret + [(acc / Pow(2, bits)) % Pow(2, toBits)];
    }
  }

  /** The groups emitted so far are the high part of the number read so far. */
  ghost predicate Drained(n: nat, read: nat, bits: nat, toBits: nat, ret: seq<int>)
    requires toBits > 0
  {
    && ret == Digits(Pow(2, toBits), n / Pow(2, bits), |ret|)
    && |ret| * toBits + bits == read
  }

  ghost predicate Emitted(n: nat, read: nat, bits: nat, toBits: nat, ret: seq<int>)
    requires toBits > 0
  {
    bits < toBits && Drained(n, read, bits, toBits, ret)
  }

  lemma {:induction false} EmitOne(n: nat, q: int, read: nat, bits: nat, toBits: nat, ret: seq<int>)
    requires 0 < toBits <= bits <= 64 && Drained(n, read, bits, toBits, ret)
    ensures var group := ((n - q * WORD) / Pow(2, bits - toBits)) % Pow(2, toBits);
            Drained(n, read, bits - toBits, toBits, ret + [group])
  {
    GroupOfWrapped(n, q, bits - toBits, toBits);
    NextOutput(n, bits, toBits);
    assert (|ret| + 1) * toBits == |ret| * toBits + toBits;
  }

  /** The number read grows by one group; what is emitted stays its high part. */
  lemma {:induction false} ReadOne(data: seq<int>, i: nat, fromBits: nat, toBits: nat, bits: nat, ret: seq<int>)
    returns (n': nat)
    requires toBits > 0 && i < |data| && InWidth(data[..i], fromBits) && 0 <= data[i] < Pow(2, fromBits)
    requires Emitted(Value(Pow(2, fromBits), data[..i]), i * fromBits, bits, toBits, ret)
    ensures InWidth(data[..i + 1], fromBits) && n' == Value(Pow(2, fromBits), data[..i + 1])
    ensures Drained(n', (i + 1) * fromBits, bits + fromBits, toBits, ret)
  {
    ReadValue(data, i, fromBits);
    n' := Value(Pow(2, fromBits), data[..i + 1]);
    NextInput(Value(Pow(2, fromBits), data[..i]), data[i], fromBits, bits);
    NextProduct(i, fromBits);
  }

  lemma {:induction false} NextProduct(i: nat, x: nat)
    ensures (i + 1) * x == i * x + x
  {
  }

  lemma {:induction false} ReadValue(data: seq<int>, i: nat, fromBits: nat)
    requires i < |data| && InWidth(data[..i], fromBits) && 0 <= data[i] < Pow(2, fromBits)
    ensures InWidth(data[..i + 1], fromBits)
    ensures Value(Pow(2, fromBits), data[..i + 1]) == Value(Pow(2, fromBits), data[..i]) * Pow(2, fromBits) + data[i]
  {
    assert data[..i + 1] == data[..i] + [data[i]];
    ValueSnoc(Pow(2, fromBits), data[..i], data[i]);
  }

  /** The masked register differs from the number read by whole words. */
  lemma {:induction false} MaskStep(acc: int, data: seq<int>, i: nat, q: int, fromBits: nat) returns (q': int)
    requires i < |data| && InWidth(data[..i], fromBits) && 0 <= data[i] < Pow(2, fromBits)
    requires acc == Value(Pow(2, fromBits), data[..i]) - q * WORD
    ensures (acc * Pow(2, fromBits) + data[i]) % WORD == Value(Pow(2, fromBits), data[..i + 1]) - q' * WORD
  {
    ReadValue(data, i, fromBits);
    q' := MaskedBy(acc, Value(Pow(2, fromBits), data[..i]), q, Pow(2, fromBits), data[i]);
  }

  lemma {:induction false} MaskedBy(acc: int, n: int, q: int, p: nat, v: int) returns (q': int)
    requires acc == n - q * WORD
    ensures (acc * p + v) % WORD == n * p + v - q' * WORD
  {
    q' := (acc * p + v) / WORD + q * p;
    Distribute(n, q * WORD, p);
    Swap(q, WORD, p);
  }

  /** What the loop leaves behind is what the definition asks for, up to the last group. */
  lemma {:induction false} Finished(
      data: seq<int>, fromBits: nat, toBits: nat, pad: bool, q: int, acc: int, bits: nat, ret: seq<int>)
    requires fromBits > 0 && 0 < toBits <= 64 && Loaded(data, |data|, fromBits, toBits, q, acc, bits, ret)
    ensures InWidth(data, fromBits) && bits < toBits
    ensures Regrouped(data, fromBits, toBits, pad) == Closed(acc, fromBits, toBits, pad, bits, ret)
  {
    assert data[..|data|] == data;
    var n := Value(Pow(2, fromBits), data);
    NatProduct(|data|, fromBits);
    LastGroup(n, q, bits, toBits);
    LeftOver(|data| * fromBits, bits, toBits, |ret|);
    if pad {
      FinishedPadding(data, fromBits, toBits, n, acc, |data| * fromBits, bits, ret);
    } else {
      ZeroScaled(n % Pow(2, bits), Pow(2, toBits - bits));
      UnpaddedOnly(data, fromBits, toBits, n, |data| * fromBits, bits, |ret|);
    }
  }

  lemma {:induction false} FinishedPadding(
      data: seq<int>, fromBits: nat, toBits: nat, n: nat, acc: int, read: nat, bits: nat, ret: seq<int>)
    requires fromBits > 0 && InWidth(data, fromBits) && n == Value(Pow(2, fromBits), data) && read == |data| * fromBits
    requires bits < toBits && read % toBits == bits && read / toBits == |ret|
    requires bits > 0 ==> (read + (toBits - bits)) / toBits == |ret| + 1
    requires ret == Digits(Pow(2, toBits), n / Pow(2, bits), |ret|)
    requires n * Pow(2, toBits - bits) / Pow(2, toBits) == n / Pow(2, bits)
    requires (acc * Pow(2, toBits - bits)) % Pow(2, toBits) == (n * Pow(2, toBits - bits)) % Pow(2, toBits)
    ensures Regrouped(data, fromBits, toBits, true) == Closed(acc, fromBits, toBits, true, bits, ret)
  {
    if bits > 0 {
      PaddedIs(data, fromBits, toBits, n, read, toBits - bits, |ret| + 1);
    } else {
      PaddedIs(data, fromBits, toBits, n, read, 0, |ret|);
    }
  }

  lemma {:induction false} UnpaddedOnly(
      data: seq<int>, fromBits: nat, toBits: nat, n: nat, read: nat, left: nat, groups: nat)
    requires fromBits > 0 && toBits > 0 && InWidth(data, fromBits)
    requires n == Value(Pow(2, fromBits), data) && read == |data| * fromBits
    requires read % toBits == left && read / toBits == groups
    ensures n / Pow(2, left) >= 0
    ensures Regrouped(data, fromBits, toBits, false) ==
            if left >= fromBits || n % Pow(2, left) != 0 then None
            else Some(Digits(Pow(2, toBits), n / Pow(2, left), groups))
  {
    NatQuotient(n, Pow(2, left));
  }

  lemma {:induction false} OutOfWidthOrNot(v: int, p: nat)
    requires p > 0
    ensures v >= 0 ==> (v / p == 0 <==> v < p)
  {
    assert v == (v / p) * p + v % p;
  }

  lemma {:induction false} WrapStep(acc: int, data: seq<int>, i: nat, q: int, fromBits: nat) returns (q': int)
    requires i < |data| && InWidth(data[..i], fromBits) && 0 <= data[i] < Pow(2, fromBits)
    requires acc == Value(Pow(2, fromBits), data[..i]) - q * WORD
    ensures WrapInt64(acc * Pow(2, fromBits) + data[i]) == Value(Pow(2, fromBits), data[..i + 1]) - q' * WORD
  {
    ReadValue(data, i, fromBits);
    q' := WrappedBy(acc, Value(Pow(2, fromBits), data[..i]), q, Pow(2, fromBits), data[i]);
  }

  lemma {:induction false} WrappedBy(acc: int, n: int, q: int, p: nat, v: int) returns (q': int)
    requires acc == n - q * WORD
    ensures WrapInt64(acc * p + v) == n * p + v - q' * WORD
  {
    var x := acc * p + v;
    var w := (x + WORD / 2) / WORD;
    q' := w + q * p;
    Distribute(n, q * WORD, p);
    assert q * WORD * p == q * p * WORD;
  }

  lemma {:induction false} LeftOver(read: nat, bits: nat, toBits: nat, groups: nat)
    requires bits < toBits && groups * toBits + bits == read
    ensures read % toBits == bits && read / toBits == groups
    ensures bits > 0 ==> (read + (toBits - bits)) / toBits == groups + 1
  {
    DivModUnique(read, toBits, groups, bits);
    if bits > 0 {
      Distribute(groups + 1, 1, toBits);
      DivModUnique(read + (toBits - bits), toBits, groups + 1, 0);
    }
  }

  lemma {:induction false} ZeroScaled(x: nat, p: nat)
    requires p > 0
    ensures x * p == 0 <==> x == 0
  {
    if x > 0 {
      MulLower(x, 1, p);
    }
  }

  /** Padding to narrower groups and back returns the input, whatever it was. */
  lemma {:induction false} PadThenUnpad(data: seq<int>, wide: nat, narrow: nat)
    requires 0 < narrow <= wide && InWidth(data, wide)
    ensures Regrouped(Regrouped(data, wide, narrow, true).value, narrow, wide, false) == Some(data)
  {
    var n := Value(Pow(2, wide), data);
    NatProduct(|data|, wide);
    var p, m := PaddedTo(data, wide, narrow, n, |data| * wide);
    NatProduct(n, Pow(2, p));
    ValueBound(Pow(2, wide), data);
    UnpadDigits(n, wide, narrow, p, m, |data|);
    DigitsOfValue(Pow(2, wide), data);
  }

  lemma {:induction false} PaddedTo(data: seq<int>, wide: nat, narrow: nat, n: nat, bits: nat) returns (p: nat, m: nat)
    requires 0 < narrow <= wide && InWidth(data, wide)
    requires n == Value(Pow(2, wide), data) && bits == |data| * wide
    ensures p < narrow && m * narrow == bits + p && n * Pow(2, p) >= 0
    ensures Regrouped(data, wide, narrow, true) == Some(Digits(Pow(2, narrow), n * Pow(2, p), m))
  {
    p := if bits % narrow == 0 then 0 else narrow - bits % narrow;
    NatQuotient(bits + p, narrow);
    m := (bits + p) / narrow;
    RoundUp(bits, narrow, p);
    PaddedIs(data, wide, narrow, n, bits, p, m);
  }

  lemma {:induction false} UnpadDigits(n: nat, wide: nat, narrow: nat, p: nat, m: nat, len: nat)
    requires p < narrow <= wide && n < Pow(Pow(2, wide), len) && m * narrow == len * wide + p
    ensures n * Pow(2, p) >= 0
    ensures Regrouped(Digits(Pow(2, narrow), n * Pow(2, p), m), narrow, wide, false)
            == Some(Digits(Pow(2, wide), n, len))
  {
    ScaledFits(n, wide, len, narrow, m, p);
    UnpadScaled(n, n * Pow(2, p), m * narrow, wide, narrow, p, m, len);
  }

  lemma {:induction false} UnpadScaled(n: nat, scaled: nat, bits: nat, wide: nat, narrow: nat, p: nat, m: nat, len: nat)
    requires p < narrow <= wide && scaled == n * Pow(2, p) && scaled < Pow(Pow(2, narrow), m)
    requires m * narrow == bits == len * wide + p
    ensures Regrouped(Digits(Pow(2, narrow), scaled, m), narrow, wide, false) == Some(Digits(Pow(2, wide), n, len))
  {
    AsWideGroups(scaled, narrow, m);
    assert bits % wide == p && bits / wide == len by { DivModUnique(bits, wide, len, p); }
    UnpaddedIs(Digits(Pow(2, narrow), scaled, m), narrow, wide, scaled, bits, p, n, len);
  }

  /** Regrouping with padding, from the sizes. */
  lemma {:induction false} PaddedIs(data: seq<int>, from: nat, to: nat, n: nat, bits: nat, p: nat, len: nat)
    requires from > 0 && to > 0 && InWidth(data, from)
    requires Value(Pow(2, from), data) == n && |data| * from == bits
    requires (if bits % to == 0 then 0 else to - bits % to) == p && (bits + p) / to == len
    ensures n * Pow(2, p) >= 0
    ensures Regrouped(data, from, to, true) == Some(Digits(Pow(2, to), n * Pow(2, p), len))
  {
    NatProduct(n, Pow(2, p));
  }

  /** Regrouping without padding, from the sizes and the quotient. */
  lemma {:induction false} UnpaddedIs(
      data: seq<int>, from: nat, to: nat, n: nat, bits: nat, left: nat, h: nat, len: nat)
    requires from > 0 && to > 0 && InWidth(data, from)
    requires Value(Pow(2, from), data) == n && |data| * from == bits
    requires bits % to == left < from && bits / to == len && n == h * Pow(2, left)
    ensures Regrouped(data, from, to, false) == Some(Digits(Pow(2, to), h, len))
  {
    DivModUnique(n, Pow(2, left), h, 0);
  }

  lemma {:induction false} RoundUp(bits: nat, narrow: nat, p: nat)
    requires narrow > 0
    requires p == if bits % narrow == 0 then 0 else narrow - bits % narrow
    ensures p < narrow && (bits + p) / narrow * narrow == bits + p
  {
    if p == 0 {
      DivModUnique(bits, narrow, bits / narrow, 0);
    } else {
      Distribute(bits / narrow + 1, 1, narrow);
      DivModUnique(bits + p, narrow, bits / narrow + 1, 0);
    }
  }

  lemma {:induction false} Commute(x: int, y: int)
    ensures x * y == y * x
  {
  }

  lemma {:induction false} ScaledBelow(n: int, b: int, p: nat)
    requires 0 <= n < b && p > 0
    ensures 0 <= n * p < b * p
  {
    MulLower(b - 1, n, p);
    MulLower(n, 0, p);
    Distribute(b, 1, p);
  }

  /** Sizes of powers when `len` groups of `a` bits and p more make m groups of b bits. */
  lemma {:induction false} PowerSizes(a: nat, len: nat, b: nat, m: nat, p: nat)
    requires m * b == len * a + p
    ensures Pow(Pow(2, b), m) == Pow(Pow(2, a), len) * Pow(2, p)
  {
    var e := len * a;
    PowerOfGroups(a, len, e);
    PowerOfGroups(b, m, e + p);
    PowAdd(2, e, p);
  }

  lemma {:induction false} PowerOfGroups(a: nat, len: nat, e: nat)
    requires e == len * a
    ensures Pow(Pow(2, a), len) == Pow(2, e)
  {
    PowPow(2, a, len);
    Commute(a, len);
  }

  lemma {:induction false} ScaledFits(n: nat, wide: nat, len: nat, narrow: nat, m: nat, p: nat)
    requires n < Pow(Pow(2, wide), len) && m * narrow == len * wide + p
    ensures 0 <= n * Pow(2, p) < Pow(Pow(2, narrow), m)
  {
    PowerSizes(wide, len, narrow, m, p);
    ScaledBelow(n, Pow(Pow(2, wide), len), Pow(2, p));
  }

  /** Anything the unpadded direction accepts is what padding would have produced. */
  lemma {:induction false} UnpadThenPad(data: seq<int>, narrow: nat, wide: nat)
    requires 0 < narrow <= wide && InWidth(data, narrow)
    requires Regrouped(data, narrow, wide, false).Some?
    ensures Regrouped(Regrouped(data, narrow, wide, false).value, wide, narrow, true) == Some(data)
  {
    var n, bits, left, h, m := Accepted(data, narrow, wide);
    HighFits(n, h, narrow, |data|, wide, m, left);
    UnpaddedIs(data, narrow, wide, n, bits, left, h, m);
    PadDigits(Digits(Pow(2, wide), h, m), h, wide, m, narrow, left, |data|);
    DigitsOfValue(Pow(2, narrow), data);
  }

  /** What acceptance without padding says about the sizes. */
  lemma {:induction false} Accepted(data: seq<int>, from: nat, to: nat)
    returns (n: nat, bits: nat, left: nat, h: nat, m: nat)
    requires from > 0 && to > 0 && InWidth(data, from) && Regrouped(data, from, to, false).Some?
    ensures Value(Pow(2, from), data) == n < Pow(Pow(2, from), |data|)
    ensures |data| * from == bits == m * to + left && bits % to == left < from && bits / to == m
    ensures n == h * Pow(2, left)
  {
    ValueBound(Pow(2, from), data);
    NatProduct(|data|, from);
    n, bits := Value(Pow(2, from), data), |data| * from;
    NatQuotient(bits, to);
    left, m := bits % to, bits / to;
    NatQuotient(n, Pow(2, left));
    h := n / Pow(2, left);
    Quotient(n, Pow(2, left));
    Quotient(bits, to);
  }

  lemma {:induction false} Quotient(n: nat, d: nat)
    requires d > 0
    ensures n == n / d * d + n % d
  {
  }

  lemma {:induction false} PadDigits(data: seq<int>, h: nat, wide: nat, m: nat, narrow: nat, left: nat, len: nat)
    requires 0 < narrow <= wide && h < Pow(Pow(2, wide), m) && data == Digits(Pow(2, wide), h, m)
    requires left < narrow && len * narrow == m * wide + left
    ensures h * Pow(2, left) >= 0
    ensures Regrouped(data, wide, narrow, true) == Some(Digits(Pow(2, narrow), h * Pow(2, left), len))
  {
    AsWideGroups(h, wide, m);
    CompleteGroups(m * wide, narrow, left, len);
    PaddedIs(data, wide, narrow, h, m * wide, left, len);
  }

  lemma {:induction false} AsWideGroups(h: nat, wide: nat, m: nat)
    requires h < Pow(Pow(2, wide), m)
    ensures Value(Pow(2, wide), Digits(Pow(2, wide), h, m)) == h
  {
    ValueDigits(Pow(2, wide), h, m);
    SmallMod(h, Pow(Pow(2, wide), m));
  }

  lemma {:induction false} HighFits(n: nat, h: nat, narrow: nat, len: nat, wide: nat, m: nat, left: nat)
    requires n < Pow(Pow(2, narrow), len) && len * narrow == m * wide + left
    requires n == h * Pow(2, left)
    ensures h < Pow(Pow(2, wide), m)
  {
    PowerSizes(wide, m, narrow, len, left);
    if h >= Pow(Pow(2, wide), m) {
      MulLower(h, Pow(Pow(2, wide), m), Pow(2, left));
    }
  }

  /** Fewer than one narrow group was left over, so padding fills exactly that. */
  lemma {:induction false} CompleteGroups(bits: nat, narrow: nat, left: nat, len: nat)
    requires left < narrow && len * narrow == bits + left
    ensures (if bits % narrow == 0 then 0 else narrow - bits % narrow) == left
    ensures (bits + left) / narrow == len
  {
    DivModUnique(bits + left, narrow, len, 0);
    if left == 0 {
      DivModUnique(bits, narrow, len, 0);
    } else {
      Distribute(len, 1, narrow);
      DivModUnique(bits, narrow, len - 1, narrow - left);
    }
  }
}
