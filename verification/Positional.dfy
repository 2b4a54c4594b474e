/** Big-endian digit strings in any base, and their uniqueness. */
module Positional {

  function Pow(base: nat, k: nat): (p: nat)
    ensures base > 0 ==> p > 0
  {
    if k == 0 then 1 else base * Pow(base, k - 1)
  }

  lemma {:induction false} PowAdd(base: nat, j: nat, k: nat)
    ensures Pow(base, j + k) == Pow(base, j) * Pow(base, k)
  {
    if j > 0 {
      PowAdd(base, j - 1, k);
      MulAssoc(base, Pow(base, j - 1), Pow(base, k));
    }
  }

  lemma {:induction false} MulAssoc(x: int, y: int, z: int)
    ensures x * (y * z) == (x * y) * z
  {
  }

  lemma {:induction false} PowPow(base: nat, j: nat, k: nat)
    ensures Pow(Pow(base, j), k) == Pow(base, j * k)
  {
    if k > 0 {
      PowPow(base, j, k - 1);
      PowAdd(base, j, j * (k - 1));
      assert j + j * (k - 1) == j * k;
    }
  }

  lemma {:induction false} PowMonotone(base: nat, j: nat, k: nat)
    requires base > 0 && j <= k
    ensures Pow(base, j) <= Pow(base, k)
  {
    PowAdd(base, j, k - j);
    MulAtLeast(Pow(base, j), Pow(base, k - j));
  }

  lemma {:induction false} MulAtLeast(x: nat, y: nat)
    requires y > 0
    ensures x <= x * y
  {
  }

  /** Quotient and remainder are the only way to split n = q * d + r with r below d. */
  lemma {:induction false} DivModUnique(n: int, d: int, q: int, r: int)
    requires d > 0 && 0 <= r < d && n == q * d + r
    ensures n / d == q && n % d == r
  {
    assert n == (n / d) * d + n % d;
    assert (n / d - q) * d == r - n % d;
    if n / d - q >= 1 {
      MulLower(n / d - q, 1, d);
    } else if n / d - q <= -1 {
      MulLower(-1, n / d - q, d);
    }
  }

  lemma {:induction false} MulLower(x: int, y: int, d: int)
    requires x >= y && d >= 0
    ensures x * d >= y * d
  {
  }

  predicate IsDigits(base: nat, ds: seq<int>) {
    forall i :: 0 <= i < |ds| ==> 0 <= ds[i] < base
  }

  /** The number a digit string stands for, most significant digit first. */
  function Value(base: nat, ds: seq<int>): (v: int)
    ensures IsDigits(base, ds) ==> v >= 0
  {
    if ds == [] then 0 else Value(base, ds[..|ds| - 1]) * base + ds[|ds| - 1]
  }

  lemma {:induction false} ValueSnoc(base: nat, ds: seq<int>, d: int)
    ensures Value(base, ds + [d]) == Value(base, ds) * base + d
  {
    assert (ds + [d])[..|ds|] == ds;
  }

  lemma {:induction false} ShiftIn(x: int, p: int, base: int, v: int, d: int)
    ensures (x * p + v) * base + d == x * (base * p) + (v * base + d)
  {
    assert (x * p) * base == x * (base * p);
  }

  lemma {:induction false} ValueAppend(base: nat, s: seq<int>, t: seq<int>)
    ensures Value(base, s + t) == Value(base, s) * Pow(base, |t|) + Value(base, t)
  {
    if t == [] {
      assert s + t == s;
    } else {
      var t', d := t[..|t| - 1], t[|t| - 1];
      ValueAppend(base, s, t');
      ValueSnoc(base, s + t', d);
      assert s + t == (s + t') + [d];
      ShiftIn(Value(base, s), Pow(base, |t'|), base, Value(base, t'), d);
    }
  }

  lemma {:induction false} BelowProduct(v: int, p: int, base: int, d: int)
    requires 0 <= v < p && 0 <= d < base
    ensures 0 <= v * base + d < base * p
  {
    MulLower(p - 1, v, base);
    assert (p - 1) * base == base * p - base;
    MulLower(v, 0, base);
  }

  lemma {:induction false} ValueBound(base: nat, ds: seq<int>)
    requires IsDigits(base, ds)
    ensures 0 <= Value(base, ds) < Pow(base, |ds|)
  {
    if ds != [] {
      var init := ds[..|ds| - 1];
      ValueBound(base, init);
      BelowProduct(Value(base, init), Pow(base, |init|), base, ds[|ds| - 1]);
    }
  }

  lemma {:induction false} RemainderBounds(n: nat, base: nat)
    requires base > 0
    ensures 0 <= n / base && 0 <= n % base < base
    ensures n == (n / base) * base + n % base
  {
  }

  /** The `len` low-order digits of n. */
  function Digits(base: nat, n: nat, len: nat): (ds: seq<int>)
    requires base > 0
    ensures |ds| == len
    ensures IsDigits(base, ds)
    decreases len
  {
    if len == 0 then [] else
    RemainderBounds(n, base);
    Digits(base, n / base, len - 1) + [n % base]
  }

  lemma {:induction false} ValueDigits(base: nat, n: nat, len: nat)
    requires base > 0
    ensures Value(base, Digits(base, n, len)) == n % Pow(base, len)
    decreases len
  {
    if len == 0 {
    } else {
      RemainderBounds(n, base);
      ValueDigits(base, n / base, len - 1);
      ValueSnoc(base, Digits(base, n / base, len - 1), n % base);
      SplitRemainder(n, base, Pow(base, len - 1));
    }
  }

  lemma {:induction false} SplitRemainder(n: nat, base: nat, p: nat)
    requires base > 0 && p > 0
    ensures 0 < base * p
    ensures n % (base * p) == ((n / base) % p) * base + n % base
  {
    RemainderBounds(n, base);
    RemainderBounds(n / base, p);
    var q, r := n / base / p, (n / base) % p;
    BelowProduct(r, p, base, n % base);
    ShiftIn(q, p, base, r, n % base);
    DivModUnique(n, base * p, q, r * base + n % base);
  }

  /** Digit strings of one length are determined by their value. */
  lemma {:induction false} ValueInjective(base: nat, s: seq<int>, t: seq<int>)
    requires IsDigits(base, s) && IsDigits(base, t)
    requires |s| == |t|
    requires Value(base, s) == Value(base, t)
    ensures s == t
  {
    if s != [] {
      var s', t' := s[..|s| - 1], t[..|t| - 1];
      DivModUnique(Value(base, s), base, Value(base, s'), s[|s| - 1]);
      DivModUnique(Value(base, t), base, Value(base, t'), t[|t| - 1]);
      ValueInjective(base, s', t');
      assert s == s' + [s[|s| - 1]];
      assert t == t' + [t[|t| - 1]];
    }
  }

  /** Without leading zeros the length is determined too. */
  lemma {:induction false} CanonicalInjective(base: nat, s: seq<int>, t: seq<int>)
    requires IsDigits(base, s) && IsDigits(base, t)
    requires s != [] ==> s[0] != 0
    requires t != [] ==> t[0] != 0
    requires Value(base, s) == Value(base, t)
    ensures s == t
  {
    if |s| == |t| {
      ValueInjective(base, s, t);
    } else if |s| < |t| {
      LongerIsLarger(base, s, t);
    } else {
      LongerIsLarger(base, t, s);
    }
  }

  lemma {:induction false} LongerIsLarger(base: nat, s: seq<int>, t: seq<int>)
    requires IsDigits(base, s) && IsDigits(base, t)
    requires |s| < |t| && t[0] != 0
    ensures Value(base, s) < Value(base, t)
  {
    ValueBound(base, s);
    LeadingDigit(base, t);
    PowMonotone(base, |s|, |t| - 1);
  }

  lemma {:induction false} LeadingDigit(base: nat, t: seq<int>)
    requires IsDigits(base, t) && t != [] && t[0] != 0
    ensures Pow(base, |t| - 1) <= Value(base, t)
  {
    assert t == [t[0]] + t[1..];
    ValueAppend(base, [t[0]], t[1..]);
    ValueBound(base, t[1..]);
    assert Value(base, [t[0]]) == t[0] by { assert [t[0]][..0] == []; }
    MulLower(t[0], 1, Pow(base, |t| - 1));
  }

  lemma {:induction false} DigitsOfValue(base: nat, ds: seq<int>)
    requires base > 0 && IsDigits(base, ds)
    ensures Digits(base, Value(base, ds), |ds|) == ds
  {
    ValueBound(base, ds);
    ValueDigits(base, Value(base, ds), |ds|);
    SmallMod(Value(base, ds), Pow(base, |ds|));
    ValueInjective(base, Digits(base, Value(base, ds), |ds|), ds);
  }

  lemma {:induction false} SmallMod(n: nat, d: nat)
    requires n < d
    ensures n % d == n && n / d == 0
  {
  }

  /** The first of len digits is what is left after dividing by all other places. */
  lemma {:induction false} LeadingDigitOf(base: nat, n: nat, len: nat)
    requires base > 0 && len > 0 && n < Pow(base, len)
    ensures Digits(base, n, len)[0] == n / Pow(base, len - 1)
  {
    ValueDigits(base, n, len);
    SmallMod(n, Pow(base, len));
    ValueLeads(base, Digits(base, n, len));
  }

  lemma {:induction false} DivDiv(n: int, a: int, b: int)
    requires a > 0 && b > 0
    ensures a * b > 0 && n / a / b == n / (a * b)
  {
    var q, r := n / a / b, (n / a) % b;
    assert n / a == q * b + r;
    assert n == (q * b + r) * a + n % a;
    BelowProduct(r, b, a, n % a);
    ShiftIn(q, b, a, r, n % a);
    DivModUnique(n, a * b, q, r * a + n % a);
  }

  lemma {:induction false} ValueLeads(base: nat, ds: seq<int>)
    requires base > 0 && ds != [] && IsDigits(base, ds)
    ensures Value(base, ds) / Pow(base, |ds| - 1) == ds[0]
  {
    assert ds == [ds[0]] + ds[1..];
    ValueAppend(base, [ds[0]], ds[1..]);
    assert [ds[0]][..0] == [];
    ValueBound(base, ds[1..]);
    DivModUnique(Value(base, ds), Pow(base, |ds| - 1), ds[0], Value(base, ds[1..]));
  }
}
