/**
 * The checksum register shared by CashAddr and Bech32: 5-bit symbols are shifted in, and each bit
 * shifted out folds one generator constant back. The two codes differ in width and constants only.
 */
module Checksum {
  import opened Bits
  import opened Polymod
  import opened Positional

  /** `keep` low bits survive a shift; `taps[i]` is folded in for bit i of what was shifted out. */
  datatype Generator = Generator(keep: nat, taps: seq<nat>)

  const CASHADDR := Generator(35, [0x98f2bc8e61, 0x79b76d99e2, 0xf33e5fb3c4, 0xae2eabe2a8, 0x1e4f43e470])
  const BECH32 := Generator(25, [0x3b6a57b2, 0x26508e6d, 0x1ea119fa, 0x3d4233dd, 0x2a1462b3])

  function Taps(d: nat, c0: nat, taps: seq<nat>): nat
    decreases taps
  {
    if taps == [] then d
    else Taps(if c0 % 2 == 1 then Xor(d, taps[0]) else d, c0 / 2, taps[1..])
  }

  function Step(g: Generator, c: nat, v: nat): nat {
    Taps(Xor(Low(c, g.keep) * 32, v), High(c, g.keep), g.taps)
  }

  ghost function Register(g: Generator): Machine<nat> {
    Machine((c: nat, v: nat) => Step(g, c, v), (a: nat, b: nat) => Xor(a, b), 0)
  }

  ghost predicate Fits(c: nat, n: nat) {
    c < Pow(32, n)
  }

  ghost function CodeOf(g: Generator): Code<nat> {
    Code(Register(g), (c: nat, n: nat) => Fits(c, n), g.keep / 5 + 1)
  }

  /** A generator set whose low symbols are independent, so that no tap can hide a shifted-out bit. */
  ghost predicate WellFormed(g: Generator) {
    && g.keep % 5 == 0
    && (forall i :: 0 <= i < |g.taps| ==> Fits(g.taps[i], g.keep / 5 + 1))
    && (forall x :: 0 < x < 32 ==> Low(Taps(0, x, g.taps), 5) != 0)
  }

  lemma {:induction false} TapsLinear(d: nat, e: nat, x: nat, y: nat, taps: seq<nat>)
    ensures Taps(Xor(d, e), Xor(x, y), taps) == Xor(Taps(d, x, taps), Taps(e, y, taps))
    decreases taps
  {
    if taps != [] {
      var t := taps[0];
      var d', e' := if x % 2 == 1 then Xor(d, t) else d, if y % 2 == 1 then Xor(e, t) else e;
      OneTap(d, e, x % 2 == 1, y % 2 == 1, t);
      XorHalves(x, y);
      TapsLinear(d', e', x / 2, y / 2, taps[1..]);
    }
  }

  lemma {:induction false} OneTap(d: nat, e: nat, p: bool, q: bool, t: nat)
    ensures (if p != q then Xor(Xor(d, e), t) else Xor(d, e))
         == Xor(if p then Xor(d, t) else d, if q then Xor(e, t) else e)
  {
    XorSwaps(d, t, e, t);
    XorSelf(t);
    XorZero(Xor(d, e));
    XorAssociates(d, e, t);
    XorAssociates(d, t, e);
    XorCommutes(t, e);
  }

  lemma {:induction false} StepLinear(g: Generator, a: nat, b: nat, u: nat, v: nat)
    ensures Step(g, Xor(a, b), Xor(u, v)) == Xor(Step(g, a, u), Step(g, b, v))
  {
    XorSplits(a, b, g.keep);
    assert Pow(2, 5) == 32;
    XorShifted(Low(a, g.keep), Low(b, g.keep), 5);
    XorSwaps(Low(a, g.keep) * 32, Low(b, g.keep) * 32, u, v);
    TapsLinear(Xor(Low(a, g.keep) * 32, u), Xor(Low(b, g.keep) * 32, v), High(a, g.keep), High(b, g.keep), g.taps);
  }

  lemma {:induction false} NoTaps(d: nat, taps: seq<nat>)
    ensures Taps(d, 0, taps) == d
    decreases taps
  {
    if taps != [] {
      NoTaps(d, taps[1..]);
    }
  }

  lemma {:induction false} TapsBelow(d: nat, x: nat, taps: seq<nat>, n: nat)
    requires Fits(d, n) && forall i :: 0 <= i < |taps| ==> Fits(taps[i], n)
    ensures Fits(Taps(d, x, taps), n)
    decreases taps
  {
    if taps != [] {
      FitsBits(n);
      XorBelow(d, taps[0], 5 * n);
      TapsBelow(if x % 2 == 1 then Xor(d, taps[0]) else d, x / 2, taps[1..], n);
    }
  }

  lemma {:induction false} FitsBits(n: nat)
    ensures Pow(32, n) == Pow(2, 5 * n)
  {
    assert Pow(2, 5) == 32;
    PowPow(2, 5, n);
  }

  /** With room left, feeding a symbol appends it as a base-32 digit. */
  lemma {:induction false} StepWithRoom(g: Generator, c: nat, v: nat, n: nat)
    requires WellFormed(g) && n < g.keep / 5 + 1 && Fits(c, n) && Fits(v, 1)
    ensures Step(g, c, v) == c * 32 + v
    ensures Fits(Step(g, c, v), n + 1)
  {
    PowMonotone(32, n, g.keep / 5);
    FitsBits(g.keep / 5);
    HighLowOf(c, g.keep, 0, c);
    assert Pow(2, 5) == 32 && Pow(32, 1) == 32;
    XorDisjoint(c, v, 5);
    NoTaps(c * 32 + v, g.taps);
    BelowProduct(c, Pow(32, n), 32, v);
  }

  lemma {:induction false} ZeroStepKeeps(g: Generator, c: nat)
    requires WellFormed(g) && Fits(c, g.keep / 5 + 1)
    ensures Fits(Step(g, c, 0), g.keep / 5 + 1)
    ensures Step(g, c, 0) == 0 ==> c == 0
  {
    var low, high := Low(c, g.keep), High(c, g.keep);
    HighLow(c, g.keep);
    FitsBits(g.keep / 5);
    TopSymbol(low, high, Pow(2, g.keep), c);
    XorZero(low * 32);
    BelowProduct(low, Pow(2, g.keep), 32, 0);
    TapsBelow(low * 32, high, g.taps, g.keep / 5 + 1);
    TapsLinear(low * 32, 0, 0, high, g.taps);
    NoTaps(low * 32, g.taps);
    assert Pow(2, 5) == 32;
    HighLowOf(low * 32, 5, low, 0);
    XorSplits(low * 32, Taps(0, high, g.taps), 5);
    assert Low(0, 5) == 0;
    if high == 0 {
      NoTaps(0, g.taps);
    }
  }

  lemma {:induction false} TopSymbol(low: nat, high: nat, p: nat, c: nat)
    requires c == high * p + low && c < 32 * p && p > 0
    ensures high < 32
  {
    if high >= 32 {
      MulLower(high, 32, p);
    }
  }

  lemma {:induction false} CodeIsSound(g: Generator)
    requires WellFormed(g)
    ensures Sound(CodeOf(g))
  {
    var k := CodeOf(g);
    var m := k.machine;
    RegisterIsLinear(g);
    RegisterIsGroup(g);
    CodeHasRoom(g);
    CodeKeepsWidth(g);
    forall u, v | k.fits(u, 1) && k.fits(v, 1) ensures k.fits(m.xor(u, v), 1) {
      FitsBits(1);
      XorBelow(u, v, 5);
    }
  }

  lemma {:induction false} CodeHasRoom(g: Generator)
    requires WellFormed(g)
    ensures var k, m := CodeOf(g), Register(g);
            forall c, v, n: nat :: n < k.width && k.fits(c, n) && k.fits(v, 1) ==>
              k.fits(m.step(c, v), n + 1) && (m.step(c, v) == m.zero ==> c == m.zero && v == m.zero)
  {
    var k, m := CodeOf(g), Register(g);
    forall c, v, n: nat | n < k.width && k.fits(c, n) && k.fits(v, 1)
      ensures k.fits(m.step(c, v), n + 1)
      ensures m.step(c, v) == m.zero ==> c == m.zero && v == m.zero
    {
      StepWithRoom(g, c, v, n);
    }
  }

  lemma {:induction false} CodeKeepsWidth(g: Generator)
    requires WellFormed(g)
    ensures var k, m := CodeOf(g), Register(g);
            && (forall c, n: nat :: k.fits(c, n) && n <= k.width ==> k.fits(c, k.width))
            && forall c :: k.fits(c, k.width) ==>
                 k.fits(m.step(c, m.zero), k.width) && (m.step(c, m.zero) == m.zero ==> c == m.zero)
  {
    var k, m := CodeOf(g), Register(g);
    forall c, n: nat | k.fits(c, n) && n <= k.width ensures k.fits(c, k.width) {
      PowMonotone(32, n, k.width);
    }
    forall c | k.fits(c, k.width)
      ensures k.fits(m.step(c, m.zero), k.width) && (m.step(c, m.zero) == m.zero ==> c == m.zero)
    {
      ZeroStepKeeps(g, c);
    }
  }

  lemma {:induction false} RegisterIsLinear(g: Generator)
    ensures Linear(Register(g))
  {
    var m := Register(g);
    forall a, b, u, v ensures m.step(m.xor(a, b), m.xor(u, v)) == m.xor(m.step(a, u), m.step(b, v)) {
      StepLinear(g, a, b, u, v);
    }
  }

  lemma {:induction false} RegisterIsGroup(g: Generator)
    ensures Group(Register(g))
  {
    var m := Register(g);
    forall a ensures m.xor(a, a) == m.zero && m.xor(a, m.zero) == a {
      XorSelf(a);
      XorZero(a);
    }
    forall a, b ensures m.xor(a, m.xor(a, b)) == b {
      XorCancels(a, b);
    }
  }

  /** Low symbols of the taps decide whether a generator set is independent. */
  lemma {:induction false} LowTaps(d: nat, x: nat, taps: seq<nat>, low: seq<nat>)
    requires |low| == |taps| && forall i :: 0 <= i < |taps| ==> low[i] == Low(taps[i], 5)
    ensures Low(Taps(d, x, taps), 5) == Taps(Low(d, 5), x, low)
    decreases taps
  {
    if taps != [] {
      XorSplits(d, taps[0], 5);
      LowTaps(if x % 2 == 1 then Xor(d, taps[0]) else d, x / 2, taps[1..], low[1..]);
    }
  }

  /** With room left, the register is the number its symbols spell in base 32. */
  lemma {:induction false} FeedIsValue(g: Generator, vs: seq<nat>)
    requires WellFormed(g) && |vs| <= g.keep / 5 + 1
    requires IsDigits(32, vs)
    ensures Feed(Register(g), 0, vs) == Value(32, vs)
  {
    if vs != [] {
      var init, last := vs[..|vs| - 1], vs[|vs| - 1];
      FeedIsValue(g, init);
      assert vs == init + [last];
      FeedAppend(Register(g), 0, init, [last]);
      ValueBound(32, init);
      assert Pow(32, 1) == 32;
      StepWithRoom(g, Value(32, init), last, |init|);
    }
  }

  /** Five taps unrolled, so that the finite check below is plain evaluation. */
  function Tap(d: nat, x: nat, t: nat): nat {
    if x % 2 == 1 then Xor(d, t) else d
  }

  function Mix(x: nat, t0: nat, t1: nat, t2: nat, t3: nat, t4: nat): nat {
    Tap(Tap(Tap(Tap(Tap(0, x, t0), x / 2, t1), x / 4, t2), x / 8, t3), x / 16, t4)
  }

  lemma {:induction false} MixIsTaps(x: nat, t0: nat, t1: nat, t2: nat, t3: nat, t4: nat)
    ensures Taps(0, x, [t0, t1, t2, t3, t4]) == Mix(x, t0, t1, t2, t3, t4)
  {
    var d1 := Tap(0, x, t0);
    var d2 := Tap(d1, x / 2, t1);
    var d3 := Tap(d2, x / 4, t2);
    var d4 := Tap(d3, x / 8, t3);
    calc {
      Taps(0, x, [t0, t1, t2, t3, t4]);
      { assert [t0, t1, t2, t3, t4][1..] == [t1, t2, t3, t4]; }
      Taps(d1, x / 2, [t1, t2, t3, t4]);
      { assert [t1, t2, t3, t4][1..] == [t2, t3, t4]; assert x / 2 / 2 == x / 4; }
      Taps(d2, x / 4, [t2, t3, t4]);
      { assert [t2, t3, t4][1..] == [t3, t4]; assert x / 4 / 2 == x / 8; }
      Taps(d3, x / 8, [t3, t4]);
      { assert [t3, t4][1..] == [t4]; assert x / 8 / 2 == x / 16; }
      Taps(d4, x / 16, [t4]);
      { assert [t4][1..] == []; }
      Tap(d4, x / 16, t4);
    }
  }

  /** The lowest bit of the mix is a parity; the rest is the mix of the halved taps. */
  predicate Odd(x: nat, t0: nat, t1: nat, t2: nat, t3: nat, t4: nat) {
    ((((x % 2 == 1 && t0 % 2 == 1)
    != (x / 2 % 2 == 1 && t1 % 2 == 1))
    != (x / 4 % 2 == 1 && t2 % 2 == 1))
    != (x / 8 % 2 == 1 && t3 % 2 == 1))
    != (x / 16 % 2 == 1 && t4 % 2 == 1)
  }

  lemma {:induction false} TapHalves(d: nat, x: nat, t: nat)
    ensures (Tap(d, x, t) % 2 == 1) == ((d % 2 == 1) != (x % 2 == 1 && t % 2 == 1))
    ensures Tap(d, x, t) / 2 == Tap(d / 2, x, t / 2)
  {
    XorHalves(d, t);
  }

  lemma {:induction false} MixHalves(x: nat, t0: nat, t1: nat, t2: nat, t3: nat, t4: nat)
    ensures (Mix(x, t0, t1, t2, t3, t4) % 2 == 1) == Odd(x, t0, t1, t2, t3, t4)
    ensures Mix(x, t0, t1, t2, t3, t4) / 2 == Mix(x, t0 / 2, t1 / 2, t2 / 2, t3 / 2, t4 / 2)
  {
    var d1 := Tap(0, x, t0);
    var d2 := Tap(d1, x / 2, t1);
    var d3 := Tap(d2, x / 4, t2);
    var d4 := Tap(d3, x / 8, t3);
    TapHalves(0, x, t0);
    TapHalves(d1, x / 2, t1);
    TapHalves(d2, x / 4, t2);
    TapHalves(d3, x / 8, t3);
    TapHalves(d4, x / 16, t4);
  }

  lemma {:induction false} NoBits(x: nat)
    requires x < 32
    requires x % 2 == 0 && x / 2 % 2 == 0 && x / 4 % 2 == 0 && x / 8 % 2 == 0 && x / 16 % 2 == 0
    ensures x == 0
  {
  }

  lemma {:induction false} LowSymbol(n: nat, low: nat)
    requires n % 32 == low
    ensures Low(n, 5) == low
  {
    assert Pow(2, 5) == 32;
    HighLowAreDivMod(n, 5);
  }

  lemma {:induction false} WellFormedIf(g: Generator, t0: nat, t1: nat, t2: nat, t3: nat, t4: nat)
    requires g.keep % 5 == 0 && |g.taps| == 5
    requires forall i :: 0 <= i < 5 ==> g.taps[i] < Pow(32, g.keep / 5 + 1)
    requires g.taps[0] % 32 == t0 && g.taps[1] % 32 == t1 && g.taps[2] % 32 == t2
    requires g.taps[3] % 32 == t3 && g.taps[4] % 32 == t4
    requires forall x: nat :: 0 < x < 32 ==> Mix(x, t0, t1, t2, t3, t4) != 0
    ensures WellFormed(g)
  {
    var low := [t0, t1, t2, t3, t4];
    forall i | 0 <= i < 5 ensures low[i] == Low(g.taps[i], 5) {
      LowSymbol(g.taps[i], low[i]);
    }
    forall x | 0 < x < 32 ensures Low(Taps(0, x, g.taps), 5) != 0 {
      LowTaps(0, x, g.taps, low);
      MixIsTaps(x, t0, t1, t2, t3, t4);
    }
  }

  lemma {:induction false} FeedFits(g: Generator, c: nat, vs: seq<nat>)
    requires WellFormed(g) && Fits(c, g.keep / 5 + 1) && IsDigits(Pow(32, g.keep / 5 + 1), vs)
    ensures Fits(Feed(Register(g), c, vs), g.keep / 5 + 1)
    decreases |vs|
  {
    if vs != [] {
      StepFits(g, c, vs[0]);
      FeedFits(g, Step(g, c, vs[0]), vs[1..]);
    }
  }

  lemma {:induction false} StepFits(g: Generator, c: nat, v: nat)
    requires WellFormed(g) && Fits(c, g.keep / 5 + 1) && Fits(v, g.keep / 5 + 1)
    ensures Fits(Step(g, c, v), g.keep / 5 + 1)
  {
    ZeroStepKeeps(g, c);
    XorZero(c);
    StepLinear(g, c, 0, 0, v);
    ZeroRegister(g, v);
    FitsBits(g.keep / 5 + 1);
    XorBelow(Step(g, c, 0), v, 5 * (g.keep / 5 + 1));
  }

  lemma {:induction false} ZeroRegister(g: Generator, v: nat)
    ensures Step(g, 0, v) == v
  {
    HighLowOf(0, g.keep, 0, 0);
    NoTaps(v, g.taps);
  }

  /** A string's own effect on the register, where a run of zeros of the same length has none. */
  lemma {:induction false} TailEffect(g: Generator, start: nat, c: seq<nat>, z: seq<nat>)
    requires WellFormed(g) && IsDigits(32, c) && |c| == |z| <= g.keep / 5 + 1
    requires forall i :: 0 <= i < |z| ==> z[i] == 0
    ensures Value(32, c) >= 0
    ensures Xor(Feed(Register(g), start, c), Feed(Register(g), start, z)) == Value(32, c)
  {
    CodeIsSound(g);
    FeedIsValue(g, c);
    ChecksumEffect(Register(g), start, c, z);
  }

  /** The symbols that bring the register to 1 after `head`. */
  function ChecksumFor(atZeros: nat, n: nat): (c: seq<int>)
    ensures |c| == n && IsDigits(32, c)
  {
    Digits(32, Xor(atZeros, 1), n)
  }

  /** A checksum holds exactly for the symbols computed from the register after trailing zeros. */
  lemma {:induction false} ChecksumDetermined(g: Generator, head: seq<nat>, c: seq<nat>, z: seq<nat>)
    requires WellFormed(g) && IsDigits(Pow(32, g.keep / 5 + 1), head) && IsDigits(32, c)
    requires |c| == |z| == g.keep / 5 + 1
    requires forall i :: 0 <= i < |z| ==> z[i] == 0
    ensures Feed(Register(g), 1, head + c) == 1 <==> c == ChecksumFor(Feed(Register(g), 1, head + z), |z|)
  {
    var m := Register(g);
    FeedAppend(m, 1, head, c);
    FeedAppend(m, 1, head, z);
    TailEffect(g, Feed(m, 1, head), c, z);
    PowMonotone(32, 1, |z|);
    assert Pow(32, 1) == 32;
    FeedFromOneFits(g, head + z);
    XorToOne(Feed(m, 1, head + c), Feed(m, 1, head + z), Value(32, c));
    DigitsDetermined(Xor(Feed(m, 1, head + z), 1), |z|, c);
  }

  lemma {:induction false} FeedFromOneFits(g: Generator, vs: seq<nat>)
    requires WellFormed(g) && IsDigits(Pow(32, g.keep / 5 + 1), vs)
    ensures Fits(Feed(Register(g), 1, vs), g.keep / 5 + 1)
    ensures Fits(Xor(Feed(Register(g), 1, vs), 1), g.keep / 5 + 1)
  {
    var n := g.keep / 5 + 1;
    assert Pow(32, 1) == 32;
    PowMonotone(32, 1, n);
    FeedFits(g, 1, vs);
    FitsBits(n);
    XorBelow(Feed(Register(g), 1, vs), 1, 5 * n);
  }

  lemma {:induction false} DigitsDetermined(want: nat, n: nat, c: seq<nat>)
    requires Fits(want, n) && |c| == n && IsDigits(32, c)
    ensures Value(32, c) == want <==> c == Digits(32, want, n)
  {
    ValueDigits(32, want, n);
    SmallMod(want, Pow(32, n));
    if Value(32, c) == want {
      ValueInjective(32, c, Digits(32, want, n));
    }
  }

  lemma {:induction false} XorToOne(x: nat, z: nat, v: nat)
    requires Xor(x, z) == v
    ensures x == 1 <==> v == Xor(z, 1)
  {
    XorCommutes(x, z);
    XorCancels(z, x);
    XorCancels(z, 1);
  }

  lemma {:induction false} CashAddrIsWellFormed()
    ensures WellFormed(CASHADDR)
  {
    assert Pow(32, 8) == 0x1_00_0000_0000;
    forall x: nat | 0 < x < 32 ensures Mix(x, 1, 2, 4, 8, 16) != 0 {
      CashAddrTaps(x);
    }
    WellFormedIf(CASHADDR, 1, 2, 4, 8, 16);
  }

  lemma {:induction false} CashAddrTaps(x: nat)
    requires 0 < x < 32
    ensures Mix(x, 1, 2, 4, 8, 16) != 0
  {
    if Mix(x, 1, 2, 4, 8, 16) == 0 {
      assert Mix(x, 0, 1, 2, 4, 8) == 0 && x % 2 == 0 by { MixHalves(x, 1, 2, 4, 8, 16); }
      assert Mix(x, 0, 0, 1, 2, 4) == 0 && x / 2 % 2 == 0 by { MixHalves(x, 0, 1, 2, 4, 8); }
      assert Mix(x, 0, 0, 0, 1, 2) == 0 && x / 4 % 2 == 0 by { MixHalves(x, 0, 0, 1, 2, 4); }
      assert Mix(x, 0, 0, 0, 0, 1) == 0 && x / 8 % 2 == 0 by { MixHalves(x, 0, 0, 0, 1, 2); }
      assert x / 16 % 2 == 0 by { MixHalves(x, 0, 0, 0, 0, 1); }
      NoBits(x);
    }
  }

  lemma {:induction false} Bech32IsWellFormed()
    ensures WellFormed(BECH32)
  {
    assert Pow(32, 6) == 0x4000_0000;
    forall x: nat | 0 < x < 32 ensures Mix(x, 18, 13, 26, 29, 19) != 0 {
      Bech32Taps(x);
    }
    WellFormedIf(BECH32, 18, 13, 26, 29, 19);
  }

  lemma {:induction false} Bech32Taps(x: nat)
    requires 0 < x < 32
    ensures Mix(x, 18, 13, 26, 29, 19) != 0
  {
    if Mix(x, 18, 13, 26, 29, 19) == 0 {
      Bech32Parities(x);
      IndependentParities(x);
    }
  }

  lemma {:induction false} Bech32Parities(x: nat)
    requires Mix(x, 18, 13, 26, 29, 19) == 0
    ensures !Odd(x, 18, 13, 26, 29, 19) && !Odd(x, 9, 6, 13, 14, 9) && !Odd(x, 4, 3, 6, 7, 4)
    ensures !Odd(x, 2, 1, 3, 3, 2) && !Odd(x, 1, 0, 1, 1, 1)
  {
    assert Mix(x, 9, 6, 13, 14, 9) == 0 && !Odd(x, 18, 13, 26, 29, 19) by { MixHalves(x, 18, 13, 26, 29, 19); }
    assert Mix(x, 4, 3, 6, 7, 4) == 0 && !Odd(x, 9, 6, 13, 14, 9) by { MixHalves(x, 9, 6, 13, 14, 9); }
    assert Mix(x, 2, 1, 3, 3, 2) == 0 && !Odd(x, 4, 3, 6, 7, 4) by { MixHalves(x, 4, 3, 6, 7, 4); }
    assert Mix(x, 1, 0, 1, 1, 1) == 0 && !Odd(x, 2, 1, 3, 3, 2) by { MixHalves(x, 2, 1, 3, 3, 2); }
    assert !Odd(x, 1, 0, 1, 1, 1) by { MixHalves(x, 1, 0, 1, 1, 1); }
  }

  lemma {:induction false} IndependentParities(x: nat)
    requires x < 32
    requires !Odd(x, 18, 13, 26, 29, 19) && !Odd(x, 9, 6, 13, 14, 9) && !Odd(x, 4, 3, 6, 7, 4)
    requires !Odd(x, 2, 1, 3, 3, 2) && !Odd(x, 1, 0, 1, 1, 1)
    ensures x == 0
  {
    NoBits(x);
  }

  /** One round of either polymod loop: shift, add the symbol, fold the bits shifted out. */
  method ShiftAndFold(g: Generator, c: nat, v: nat) returns (r: nat)
    requires |g.taps| == 5
    ensures r == Step(g, c, v)
  {
    HighLowAreDivMod(c, g.keep);
    var c0 := c / Pow(2, g.keep);
    r := Xor((c % Pow(2, g.keep)) * 32, v);
    var i := 0;
    while i < 5
      invariant 0 <= i <= 5
      invariant Taps(r, High(c0, i), g.taps[i..]) == Step(g, c, v)
    {
      HighLowAreDivMod(c0, i);
      HighNext(c0, i);
      if (c0 / Pow(2, i)) % 2 != 0 {
        r := Xor(r, g.taps[i]);
      }
      i := i + 1;
    }
  }

  lemma {:induction false} HighNext(n: nat, k: nat)
    ensures High(n, k + 1) == High(n, k) / 2
    decreases k
  {
    if k > 0 {
      HighNext(n / 2, k - 1);
    }
  }
}
